/**
 * Promo validation: a request counter guards the discount against late answers. Discounts
 * are set in a React transition, so an answer is first queued and shown at a later commit;
 * an urgent write in between wins over it.
 */
module PromoModel {
  import opened Base
  import opened Text

  datatype Promo = Promo(code: string, shown: real, queued: Option<real>, loading: bool, counter: nat)

  datatype Verdict = Valid(discount: real) | Invalid | Failed

  const NO_PROMO := Promo("", 0.0, None, false, 0)

  /** The Enter key asks for a discount of exactly 0; the Apply button shows below and at 0 and waits for `loading`. */
  predicate MayPressEnter(p: Promo) { p.shown == 0.0 && Trim(p.code) != "" }
  predicate MayClickApply(p: Promo) { p.shown <= 0.0 && !p.loading && Trim(p.code) != "" }

  /** `validatePromo` up to its POST. */
  function Ask(p: Promo): Promo {
    p.(loading := true, counter := p.counter + 1)
  }

  /** `validatePromo` after its POST settled. */
  function Told(p: Promo, seqNo: nat, v: Verdict): Promo {
    if p.counter != seqNo then p
    else p.(queued := Some(if v.Valid? then v.discount else 0.0), loading := false)
  }

  /** React applies the queued transition. */
  function Commit(p: Promo): Promo {
    match p.queued
    case Some(d) => p.(shown := d, queued := None)
    case None => p
  }

  /** The Clear button. */
  function Clear(p: Promo): Promo {
    p.(code := "", shown := 0.0, queued := None)
  }

  /** `resetForm`'s promo lines. */
  function ResetPromo(p: Promo): Promo {
    Promo("", 0.0, None, false, p.counter + 1)
  }

  class PromoBox {
    var promoCode: string
    var promoDiscount: real
    var pendingDiscount: Option<real>
    var promoLoading: bool
    var promoReqRef: nat

    function View(): Promo
      reads this
    {
      Promo(promoCode, promoDiscount, pendingDiscount, promoLoading, promoReqRef)
    }

    constructor ()
      ensures View() == NO_PROMO
    {
      promoCode, promoDiscount, pendingDiscount, promoLoading, promoReqRef := "", 0.0, None, false, 0;
    }

    /** Up to the POST; a blank code asks nothing. */
    method ValidatePromo() returns (reqId: Option<nat>)
      modifies this
      ensures if Trim(promoCode) == "" then reqId == None && View() == old(View())
              else reqId == Some(promoReqRef) && View() == Ask(old(View()))
    {
      if Trim(promoCode) == "" {
        return None;
      }
      promoLoading := true;
      promoReqRef := promoReqRef + 1;
      reqId := Some(promoReqRef);
    }

    method ValidationSettles(reqId: nat, v: Verdict)
      modifies this
      ensures View() == Told(old(View()), reqId, v)
    {
      if promoReqRef != reqId {
        return;
      }
      pendingDiscount := Some(if v.Valid? then v.discount else 0.0);
      if promoReqRef == reqId {
        promoLoading := false;
      }
    }

    method ResetForm()
      modifies this
      ensures View() == ResetPromo(old(View()))
    {
      promoCode := "";
      promoDiscount, pendingDiscount := 0.0, None;
      promoLoading := false;
      promoReqRef := promoReqRef + 1;
    }
  }
}

module PromoRuns {
  import opened Base
  import opened Text
  import opened PromoModel

  /**
   * `overQueued`: sent while a positive discount was queued but not yet shown; `typedBefore`: how
   * many values the box had taken by then.
   */
  datatype Request = Request(seqNo: nat, code: string, overQueued: bool, typedBefore: nat)

  /**
   * History: `typed` is every value the code box has taken, the first one blank, and `shownAt` how
   * many it had taken when the discount on screen was shown.
   */
  datatype System = System(promo: Promo, sent: seq<Request>, verdicts: seq<Option<Verdict>>, appliedBy: Option<nat>,
                           typed: seq<string>, shownAt: nat)

  datatype Event =
    | Types(code: string)
    | PressesEnter
    | ClicksApply
    | ClicksClear
    | Resets
    | Commits
    | Settles(request: nat, verdict: Verdict)

  const START := System(NO_PROMO, [], [], None, [""], 1)

  predicate QueuedPositive(p: Promo) { p.queued.Some? && p.queued.value > 0.0 }

  function Send(s: System): System {
    var p := Ask(s.promo);
    s.(promo := p, sent := s.sent + [Request(p.counter, Trim(p.code), QueuedPositive(s.promo), |s.typed|)], verdicts := s.verdicts + [None])
  }

  predicate Enabled(s: System, e: Event) {
    match e
    case Types(_) => s.promo.shown <= 0.0
    case PressesEnter => MayPressEnter(s.promo)
    case ClicksApply => MayClickApply(s.promo)
    case ClicksClear => s.promo.shown > 0.0
    case Settles(i, _) => i < |s.sent| && i < |s.verdicts| && s.verdicts[i].None?
    case _ => true
  }

  function Step(s: System, e: Event): System {
    if !Enabled(s, e) then s
    else match e
      case Types(code) => s.(promo := s.promo.(code := code), typed := s.typed + [code])
      case PressesEnter => Send(s)
      case ClicksApply => Send(s)
      case ClicksClear => s.(promo := Clear(s.promo), appliedBy := None, typed := s.typed + [""])
      case Resets => s.(promo := ResetPromo(s.promo), appliedBy := None, typed := s.typed + [""])
      case Commits => s.(promo := Commit(s.promo), shownAt := if s.promo.queued.Some? then |s.typed| else s.shownAt)
      case Settles(i, v) =>
        s.(promo := Told(s.promo, s.sent[i].seqNo, v), verdicts := s.verdicts[i := Some(v)],
           appliedBy := if s.promo.counter == s.sent[i].seqNo then Some(i) else s.appliedBy)
  }

  function Run(es: seq<Event>): System {
    if es == [] then START else Step(Run(es[..|es| - 1]), es[|es| - 1])
  }

  /** The latest request is out and its answer would still count. */
  predicate LiveRequest(s: System) {
    s.sent != [] && |s.verdicts| == |s.sent| &&
    s.sent[|s.sent| - 1].seqNo == s.promo.counter && s.verdicts[|s.sent| - 1].None?
  }

  /** Discount `d` is what the server granted to request `i`. */
  predicate GrantedBy(s: System, i: nat, d: real) {
    i < |s.sent| && i < |s.verdicts| && s.verdicts[i] == Some(Valid(d))
  }

  /** The box shows the last value typed, and a request carries the one typed last before it. */
  predicate BoxLogged(s: System) {
    && s.typed != [] && s.promo.code == s.typed[|s.typed| - 1]
    && (forall i :: 0 <= i < |s.sent| ==>
          0 < s.sent[i].typedBefore <= |s.typed| && s.sent[i].code == Trim(s.typed[s.sent[i].typedBefore - 1]))
  }

  /** While a discount shows the box is locked. */
  predicate BoxLocked(s: System) {
    s.promo.shown > 0.0 ==> s.shownAt == |s.typed|
  }

  /** Sequence numbers grow, and `loading` says whether the latest request is live. */
  predicate Counted(s: System) {
    && |s.verdicts| == |s.sent|
    && (forall i :: 0 <= i < |s.sent| ==> s.sent[i].seqNo <= s.promo.counter)
    && (forall i, j :: 0 <= i < j < |s.sent| ==> s.sent[i].seqNo < s.sent[j].seqNo)
    && (s.promo.loading <==> LiveRequest(s))
    && (QueuedPositive(s.promo) || s.promo.shown > 0.0 ==> (LiveRequest(s) ==> s.sent[|s.sent| - 1].overQueued))
  }

  /** A positive discount, queued or settled, was granted. */
  predicate Granted(s: System) {
    && (QueuedPositive(s.promo) ==> s.appliedBy.Some? && GrantedBy(s, s.appliedBy.value, s.promo.queued.value))
    && (s.promo.shown > 0.0 && s.promo.queued.None? ==> s.appliedBy.Some? && GrantedBy(s, s.appliedBy.value, s.promo.shown))
  }

  predicate Inv(s: System) {
    BoxLogged(s) && BoxLocked(s) && Counted(s) && Granted(s)
  }

  lemma BoxStep(s: System, e: Event)
    requires BoxLogged(s) && BoxLocked(s)
    ensures BoxLogged(Step(s, e)) && BoxLocked(Step(s, e))
  {
  }

  lemma CountedStep(s: System, e: Event)
    requires Counted(s)
    ensures Counted(Step(s, e))
  {
  }

  lemma GrantedStep(s: System, e: Event)
    requires Counted(s) && Granted(s)
    ensures Granted(Step(s, e))
  {
  }

  lemma StepKeepsInv(s: System, e: Event)
    requires Inv(s)
    ensures Inv(Step(s, e))
  {
    BoxStep(s, e);
    CountedStep(s, e);
    GrantedStep(s, e);
  }

  lemma {:induction false} RunInv(es: seq<Event>)
    ensures Inv(Run(es))
  {
    if es != [] {
      RunInv(es[..|es| - 1]);
      StepKeepsInv(Run(es[..|es| - 1]), es[|es| - 1]);
    }
  }

  /** An answer to a request issued before a later request or a reset changes nothing. */
  lemma StaleAnswerIsIgnored(es: seq<Event>, i: nat, v: Verdict)
    requires var s := Run(es); i < |s.sent| && (i < |s.sent| - 1 || s.sent[i].seqNo < s.promo.counter)
    ensures Step(Run(es), Settles(i, v)).promo == Run(es).promo
  {
    RunInv(es);
    var s := Run(es);
    assert s.sent[i].seqNo <= s.sent[|s.sent| - 1].seqNo <= s.promo.counter;
  }

  /**
   * In every run the answer to a request shows at the next commit, a discount or none, exactly when its request
   * is live; otherwise the commit shows what was queued before. The box asks again for a non-blank code only:
   * by Enter while it shows no discount, by Apply while it shows none and no request is live.
   */
  lemma AnswerShowsExactly(es: seq<Event>, i: nat, v: Verdict)
    requires Enabled(Run(es), Settles(i, v))
    ensures var s := Run(es);
            var after := Step(Step(s, Settles(i, v)), Commits).promo;
            if LiveRequest(s) && i == |s.sent| - 1 then after.shown == (if v.Valid? then v.discount else 0.0) && !after.loading
            else after == Step(s, Commits).promo
    ensures var s := Run(es);
            && (Enabled(s, ClicksApply) <==> s.promo.shown <= 0.0 && !LiveRequest(s) && Trim(s.promo.code) != "")
            && (Enabled(s, PressesEnter) <==> s.promo.shown == 0.0 && Trim(s.promo.code) != "")
  {
    RunInv(es);
    var s := Run(es);
    if i < |s.sent| - 1 { assert s.sent[i].seqNo < s.sent[|s.sent| - 1].seqNo <= s.promo.counter; }
  }

  /** A settled positive discount is one the server granted to some request, in every run. */
  lemma DiscountWasGranted(es: seq<Event>)
    ensures var s := Run(es);
            s.promo.shown > 0.0 && s.promo.queued.None? ==>
              s.appliedBy.Some? && GrantedBy(s, s.appliedBy.value, s.promo.shown)
  {
    RunInv(es);
  }

  /**
   * While a positive discount shows, no live request is out, unless that request was sent
   * while the discount was queued and not yet shown.
   */
  lemma PositiveDiscountMeansQuiet(es: seq<Event>)
    ensures var s := Run(es);
            && (s.promo.shown > 0.0 && LiveRequest(s) ==> s.sent[|s.sent| - 1].overQueued)
            && (s.promo.loading <==> LiveRequest(s))
  {
    RunInv(es);
  }

  /**
   * The quiet breaks at the send: Enter or Apply followed by a commit shows a positive discount
   * over a live request exactly when one was queued and not yet shown at the click.
   */
  lemma SendBreaksQuietExactly(es: seq<Event>, e: Event)
    requires (e.PressesEnter? || e.ClicksApply?) && Enabled(Run(es), e)
    ensures var s := Run(es);
            var s' := Step(Step(s, e), Commits);
            s'.promo.shown > 0.0 && LiveRequest(s') <==> QueuedPositive(s.promo)
  {
    RunInv(es);
  }

  /** What the box took after request `i` went out and before the discount was shown. */
  function TypedMeanwhile(s: System, i: nat): seq<string>
    requires i < |s.sent|
  {
    if s.sent[i].typedBefore <= s.shownAt <= |s.typed| then s.typed[s.sent[i].typedBefore..s.shownAt] else []
  }

  /**
   * In every run a settled positive discount was granted to the code of its request, and that is the
   * code in the box exactly when the box took nothing between the send and the commit, or took the
   * code back: the box is locked afterwards, but not while the request is out.
   */
  lemma DiscountIsForTheBoxExactly(es: seq<Event>)
    ensures var s := Run(es);
            s.promo.shown > 0.0 && s.promo.queued.None? ==>
              && s.appliedBy.Some? && GrantedBy(s, s.appliedBy.value, s.promo.shown)
              && var i := s.appliedBy.value;
                 var meanwhile := TypedMeanwhile(s, i);
                 && s.sent[i].typedBefore <= s.shownAt == |s.typed|
                 && s.typed[..s.sent[i].typedBefore] + meanwhile == s.typed
                 && (Trim(s.promo.code) == s.sent[i].code
                     <==> meanwhile == [] || Trim(meanwhile[|meanwhile| - 1]) == s.sent[i].code)
  {
    RunInv(es);
  }

  lemma Then(es: seq<Event>, e: Event) returns (es': seq<Event>)
    ensures Run(es') == Step(Run(es), e)
  {
    es' := es + [e];
    assert es'[..|es|] == es;
  }

  /** Enter, answer, Enter again before the commit: the discount shows while the second request is live. */
  lemma EnterBeforeCommit(code: string, d: real) returns (es: seq<Event>)
    requires Trim(code) != "" && d > 0.0
    ensures var s := Run(es); s.promo.shown == d && LiveRequest(s) && s.promo.loading
  {
    es := Then([], Types(code));
    es := Then(es, PressesEnter);
    es := Then(es, Settles(0, Valid(d)));
    es := Then(es, PressesEnter);
    es := Then(es, Commits);
  }

  /** Retyping the code while a request is out: the discount shows for a code that is no longer in the box. */
  lemma DiscountForAnotherCode(code: string, other: string, d: real) returns (es: seq<Event>)
    requires Trim(code) != "" && Trim(other) != Trim(code) && d > 0.0
    ensures var s := Run(es);
            s.promo.shown == d && s.appliedBy == Some(0) && s.sent != [] && s.sent[0].code != Trim(s.promo.code)
  {
    es := Then([], Types(code));
    es := Then(es, PressesEnter);
    es := Then(es, Types(other));
    es := Then(es, Settles(0, Valid(d)));
    es := Then(es, Commits);
  }
}
