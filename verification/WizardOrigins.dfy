/** Where the wizard's messages and fields come from: every one is traced to the events that made it. */
module WizardOrigins {
  import opened Base
  import opened Text
  import opened WizardClient
  import opened WizardSystem
  import opened WizardSafety

  // ---- What a submit carries ----

  /** Event `k` is the click that sent submit `i`, and its message is the form at that click. */
  ghost predicate ClickedAt(cfg: Config, es: seq<Event>, k: nat, i: nat) {
    && k < |es| && es[k] == ClicksSubmit && i < |Run(cfg, es).submits.sent|
    && var s, m := Run(cfg, es[..k]), Run(cfg, es).submits.sent[i];
       && !s.client.loading && |s.submits.sent| == i
       && m.draft == s.client.form.draft && m.items == s.client.form.items && m.resets == s.client.attempt.resets
  }

  lemma OnlyClicksSubmit(cfg: Config, s: System, e: Event)
    ensures var sent, after := s.submits.sent, Step(cfg, s, e).submits.sent;
            || after == sent
            || (&& e.ClicksSubmit? && !s.client.loading && |after| == |sent| + 1 && after[..|sent|] == sent
                && var m := after[|sent|];
                   m.draft == s.client.form.draft && m.items == s.client.form.items && m.resets == s.client.attempt.resets)
  {
  }

  /** In every run each submit was sent by one click, and carries the draft and the files held at that click. */
  lemma {:induction false} SubmitCarriesTheForm(cfg: Config, es: seq<Event>, i: nat) returns (k: nat)
    requires i < |Run(cfg, es).submits.sent|
    ensures ClickedAt(cfg, es, k, i)
  {
    var n := |es| - 1;
    var front := es[..n];
    OnlyClicksSubmit(cfg, Run(cfg, front), es[n]);
    if i < |Run(cfg, front).submits.sent| {
      k := SubmitCarriesTheForm(cfg, front, i);
      assert front[..k] == es[..k] && front[k] == es[k];
    } else {
      k := n;
    }
  }

  // ---- What a draft save carries ----

  /** The gate of `canAutosaveDraft` at this moment, and the effect is past its first run. */
  predicate MayAutosave(c: Client) {
    var d := c.form.draft;
    && !c.auto.guard && c.auto.didHydrate
    && d.flow != "" && d.consumerId != "" && d.serviceId != ""
    && ("non_judicial" <= d.flow || ("select_court" in d.payload && d.payload["select_court"] != ""))
    && (if d.flow == "non_judicial_copy_of_fir" || d.flow == "non_judicial_criminal_record_search"
        then c.form.place.districtId != "" else c.form.place.cityId != "")
  }

  /** Event `j` is the effect run that armed timer `t` with draft `d`, the form's at that moment. */
  ghost predicate ArmedAt(cfg: Config, es: seq<Event>, j: nat, d: Draft) {
    && j < |es| && es[j] == RunsEffect
    && var c := Run(cfg, es[..j]).client; MayAutosave(c) && c.form.draft == d
  }

  lemma EffectTimers(c: Client, t: nat)
    requires t in RunEffect(c.auto, c.form.draft, c.form.place).timers
    ensures var d := RunEffect(c.auto, c.form.draft, c.form.place).timers[t];
            (t in c.auto.timers && c.auto.timers[t] == d) || (MayAutosave(c) && c.form.draft == d)
  {
  }

  lemma TimersComeFromEffects(cfg: Config, s: System, e: Event, t: nat)
    requires t in Step(cfg, s, e).client.auto.timers
    ensures var d := Step(cfg, s, e).client.auto.timers[t];
            || (t in s.client.auto.timers && s.client.auto.timers[t] == d)
            || (e.RunsEffect? && MayAutosave(s.client) && s.client.form.draft == d)
  {
    if !ByHand(e) { OthersKeepTimers(cfg, s, e); }
    else if e.RunsEffect? && Enabled(s, e) { EffectTimers(s.client, t); }
  }

  lemma {:induction false} TimerHoldsTheForm(cfg: Config, es: seq<Event>, t: nat) returns (j: nat)
    requires t in Run(cfg, es).client.auto.timers
    ensures ArmedAt(cfg, es, j, Run(cfg, es).client.auto.timers[t])
  {
    var n := |es| - 1;
    var front := es[..n];
    TimersComeFromEffects(cfg, Run(cfg, front), es[n], t);
    if t in Run(cfg, front).client.auto.timers && Run(cfg, front).client.auto.timers[t] == Run(cfg, es).client.auto.timers[t] {
      j := TimerHoldsTheForm(cfg, front, t);
      assert front[..j] == es[..j] && front[j] == es[j];
    } else {
      j := n;
    }
  }

  lemma SavesComeFromTwoEvents(cfg: Config, s: System, e: Event)
    ensures var sent, after := s.saves.sent, Step(cfg, s, e).saves.sent;
            || after == sent
            || (e.ClicksSave? && !s.client.loading && after == sent + [SaveMsg(s.client.form.draft, false)])
            || (&& e.TimerFires? && e.timer in s.client.auto.timers && !s.client.auto.guard
                && after == sent + [SaveMsg(s.client.auto.timers[e.timer], true)])
  {
  }

  /** A manual save is the form at its click; an autosave the form at an effect run that passed the gate. */
  ghost predicate SavedFrom(cfg: Config, es: seq<Event>, k: nat, m: SaveMsg) {
    if m.auto then ArmedAt(cfg, es, k, m.draft)
    else k < |es| && es[k] == ClicksSave && Run(cfg, es[..k]).client.form.draft == m.draft
  }

  /** In every run each draft save carries the form as it was when it was asked for, or its timer armed. */
  lemma {:induction false} SaveCarriesTheForm(cfg: Config, es: seq<Event>, i: nat) returns (k: nat)
    requires i < |Run(cfg, es).saves.sent|
    ensures SavedFrom(cfg, es, k, Run(cfg, es).saves.sent[i])
  {
    var n := |es| - 1;
    var front, e := es[..n], es[n];
    var s := Run(cfg, front);
    SavesComeFromTwoEvents(cfg, s, e);
    if i < |s.saves.sent| {
      k := SaveCarriesTheForm(cfg, front, i);
      assert front[..k] == es[..k] && front[k] == es[k];
    } else if e.ClicksSave? {
      k := n;
    } else {
      k := TimerHoldsTheForm(cfg, front, e.timer);
      assert front[..k] == es[..k] && front[k] == es[k];
    }
  }

  lemma RunEffectExactly(c: Client)
    requires TimersQuiet(c.auto)
    ensures var a := RunEffect(c.auto, c.form.draft, c.form.place);
            if MayAutosave(c) then a.timers == map[c.auto.nextTimer := c.form.draft] && a.timerRef == Some(c.auto.nextTimer)
            else a.timers == map[]
  {
    if c.auto.timerRef.Some? {
      assert c.auto.timers - {c.auto.timerRef.value} == map[];
    } else {
      assert c.auto.timers == map[];
    }
  }

  /** In every run one more effect run leaves a timer with the form's draft exactly when the gate passes, else none. */
  lemma EffectArmsExactly(cfg: Config, es: seq<Event>)
    requires Run(cfg, es).client.auto.due
    ensures var c, a := Run(cfg, es).client, Step(cfg, Run(cfg, es), RunsEffect).client.auto;
            if MayAutosave(c) then a.timers == map[c.auto.nextTimer := c.form.draft] && a.timerRef == Some(c.auto.nextTimer)
            else a.timers == map[]
  {
    RunInv(cfg, es);
    RunEffectExactly(Run(cfg, es).client);
  }

  // ---- What the form and the pointer are bound to ----

  /** What an event does to one binding: nothing, a new id, or none. */
  datatype Binding = Same | Binds(id: nat) | Unbinds

  function AfterBinding(before: Option<nat>, b: Binding): Option<nat> {
    match b case Same => before case Binds(id) => Some(id) case Unbinds => None
  }

  /** An answer the client takes in: to a manual save, or to an autosave while the guard is down. */
  predicate TakesId(s: System, e: Event) {
    && e.SaveReplyArrives? && Enabled(s, e) && e.reply.Saved?
    && (s.saves.sent[e.save].auto ==> !s.client.auto.guard)
  }

  /** What an event does to the pointer of a flow. */
  function PointerBinding(cfg: Config, s: System, e: Event, flow: string): Binding {
    if !Enabled(s, e) then Same
    else match e
      case Resumes(_, _, id) => if flow == cfg.homeFlow then Binds(id) else Same
      case SaveReplyArrives(i, r) =>
        if !TakesId(s, e) || s.saves.sent[i].draft.flow != flow then Same
        else if s.saves.sent[i].auto then Binds(r.id) else Unbinds
      case ClicksStartFresh => if s.client.form.draft.flow == flow then Unbinds else Same
      case UploadsDone => if s.submits.sent[s.activity.submit].draft.flow == flow then Unbinds else Same
      case _ => Same
  }

  /** What an event does to the form's draft id. */
  function DraftBinding(s: System, e: Event): Binding {
    if !Enabled(s, e) then Same
    else match e
      case Resumes(_, _, id) => Binds(id)
      case Prefills(_, _) => Unbinds
      case SaveReplyArrives(i, r) => if !TakesId(s, e) then Same else if s.saves.sent[i].auto then Binds(r.id) else Unbinds
      case ClicksStartFresh => if s.client.form.draft.flow == "" then Unbinds else Same
      case UploadsDone => Unbinds
      case DiscardSettles(_) => Unbinds
      case _ => Same
  }

  function LastPointer(cfg: Config, es: seq<Event>, flow: string): Option<nat> {
    if es == [] then None
    else AfterBinding(LastPointer(cfg, es[..|es| - 1], flow),
                      PointerBinding(cfg, Run(cfg, es[..|es| - 1]), es[|es| - 1], flow))
  }

  function LastDraftId(cfg: Config, es: seq<Event>): Option<nat> {
    if es == [] then None
    else AfterBinding(LastDraftId(cfg, es[..|es| - 1]), DraftBinding(Run(cfg, es[..|es| - 1]), es[|es| - 1]))
  }

  function At(m: map<string, nat>, flow: string): Option<nat> {
    if flow in m then Some(m[flow]) else None
  }

  lemma PointerStep(cfg: Config, s: System, e: Event, flow: string)
    ensures At(Step(cfg, s, e).client.pointer, flow)
            == AfterBinding(At(s.client.pointer, flow), PointerBinding(cfg, s, e, flow))
  {
  }

  lemma DraftIdStep(cfg: Config, s: System, e: Event)
    ensures Step(cfg, s, e).client.form.draft.draftId == AfterBinding(s.client.form.draft.draftId, DraftBinding(s, e))
  {
  }

  /**
   * In every run a flow's stored pointer and the form's draft id are what the last event bound them to:
   * a resumed draft or the answer to an autosave binds, a discard, a parked draft and a success unbind.
   */
  lemma {:induction false} BindingsAreLast(cfg: Config, es: seq<Event>, flow: string)
    ensures At(Run(cfg, es).client.pointer, flow) == LastPointer(cfg, es, flow)
    ensures Run(cfg, es).client.form.draft.draftId == LastDraftId(cfg, es)
  {
    if es != [] {
      var front := es[..|es| - 1];
      BindingsAreLast(cfg, front, flow);
      PointerStep(cfg, Run(cfg, front), es[|es| - 1], flow);
      DraftIdStep(cfg, Run(cfg, front), es[|es| - 1]);
    }
  }

  // ---- What a reset and a manual save leave ----

  /** Nothing of a draft is left on the form. */
  predicate Emptied(cfg: Config, f: Form) {
    && f.draft.payload == map[] && f.draft.serviceId == "" && f.draft.draftId.None? && f.draft.step == 1
    && f.draft.flow == cfg.homeFlow && f.draft.consumerId == cfg.ownId
    && f.place.provinceId == "" && f.place.districtId == "" && f.place.cityId == ""
    && f.items == [] && f.uploadError == "" && !f.resumed
  }

  /** The events that run `resetForm`. */
  predicate Resets(s: System, e: Event) {
    && Enabled(s, e)
    && (|| e.UploadsDone? || e.DiscardSettles? || (e.ClicksStartFresh? && s.client.form.draft.flow == "")
        || (TakesId(s, e) && !s.saves.sent[e.save].auto))
  }

  /**
   * The form is reset exactly by a success, a settled discard, a discard without a flow and a parked
   * manual draft; each leaves an empty form, no key and the guard down.
   */
  lemma ResetsExactly(cfg: Config, s: System, e: Event)
    ensures var c, c' := s.client, Step(cfg, s, e).client;
            if Resets(s, e) then
              c'.attempt.resets == c.attempt.resets + 1 && Emptied(cfg, c'.form) && c'.attempt.requestKey.None? && !c'.auto.guard
            else c'.attempt.resets == c.attempt.resets
  {
  }

  /** A manual save's answer ends its handler: a saved draft is parked and the form starts over, else it stays. */
  lemma ManualSaveParksExactly(cfg: Config, es: seq<Event>, i: nat, r: SaveReply)
    requires Enabled(Run(cfg, es), SaveReplyArrives(i, r)) && !Run(cfg, es).saves.sent[i].auto
    ensures var s, s' := Run(cfg, es), Step(cfg, Run(cfg, es), SaveReplyArrives(i, r));
            && !s'.client.loading && s'.activity == Idle
            && (if r.Saved? then Emptied(cfg, s'.client.form) && s.saves.sent[i].draft.flow !in s'.client.pointer
                else s'.client.form == s.client.form && s'.client.pointer == s.client.pointer && s'.client.auto == s.client.auto
                     && s'.client.attempt == s.client.attempt)
  {
  }

  // ---- What changes the form ----

  /** The same form, but perhaps for the id its draft is saved under. */
  predicate SameContent(f: Form, g: Form) {
    && (g.draft.flow, g.draft.consumerId, g.draft.serviceId) == (f.draft.flow, f.draft.consumerId, f.draft.serviceId)
    && g.draft.step == f.draft.step && g.draft.payload == f.draft.payload
    && g.place == f.place && g.items == f.items && g.uploadError == f.uploadError && g.resumed == f.resumed
  }

  /** The user's own changes, and the prefills. */
  predicate Typed(e: Event) {
    e.Edits? || e.Resumes? || e.Prefills? || e.AddsFiles? || e.RemovesFile? || e.CaptionsFile?
  }

  /** The form after such a change; the id of the draft changes with the two kinds of prefill only. */
  function TypedForm(f: Form, e: Event): Form
    requires Typed(e) && (e.CaptionsFile? ==> e.index < |f.items|)
  {
    match e
    case Edits(d, p) => Form(d.(draftId := f.draft.draftId), p, f.items, f.uploadError, f.resumed)
    case Resumes(d, p, id) => Form(d.(draftId := Some(id)), p, f.items, f.uploadError, true)
    case Prefills(d, p) => Form(d.(draftId := None), p, f.items, f.uploadError, f.resumed)
    case AddsFiles(incoming) => AddFiles(f, incoming)
    case RemovesFile(i) => RemoveFileAt(f, i)
    case CaptionsFile(i, caption) => f.(items := f.items[i := Attachment(f.items[i].file, caption)])
  }

  lemma TypingChangesForm(cfg: Config, s: System, e: Event)
    requires Enabled(s, e) && Typed(e)
    ensures Step(cfg, s, e).client.form == TypedForm(s.client.form, e)
  {
  }

  lemma HandsKeepForm(cfg: Config, s: System, e: Event)
    requires Enabled(s, e) && ByHand(e) && !Resets(s, e)
    ensures SameContent(s.client.form, Step(cfg, s, e).client.form)
  {
  }

  lemma OthersKeepForm(cfg: Config, s: System, e: Event)
    requires Enabled(s, e) && !Typed(e) && !ByHand(e) && !Resets(s, e)
    ensures SameContent(s.client.form, Step(cfg, s, e).client.form)
  {
  }

  /**
   * The form is what is typed, resumed or prefilled, with the files added, removed and captioned, until it is
   * reset; no other event changes it, but for the draft id an answer may bind.
   */
  lemma FormChangesExactly(cfg: Config, s: System, e: Event)
    requires Enabled(s, e)
    ensures var f, g := s.client.form, Step(cfg, s, e).client.form;
            if Typed(e) then g == TypedForm(f, e) else if Resets(s, e) then Emptied(cfg, g) else SameContent(f, g)
  {
    if Typed(e) { TypingChangesForm(cfg, s, e); }
    else if Resets(s, e) { ResetsExactly(cfg, s, e); }
    else if ByHand(e) { HandsKeepForm(cfg, s, e); }
    else { OthersKeepForm(cfg, s, e); }
  }

  // ---- The files held ----

  /** An upload carries the file itself and its caption, trimmed. */
  lemma {:induction false} StampsAre(items: seq<Attachment>, i: nat)
    requires i < |items|
    ensures Stamps(items)[i] == (items[i].file, Trim(items[i].caption))
  {
    if i < |items| - 1 { StampsAre(items[..|items| - 1], i); }
  }

  /** All chosen files are appended with empty captions, or, with one over the cap, none and that file is named. */
  lemma AddsAllOrNone(f: Form, incoming: seq<File>)
    ensures var g := AddFiles(f, incoming);
            && g.draft == f.draft && g.place == f.place
            && (if forall x :: x in incoming ==> x.size <= 10485760 then
                  && |g.items| == |f.items| + |incoming| && g.items[..|f.items|] == f.items
                  && (forall i :: 0 <= i < |incoming| ==> g.items[|f.items| + i] == Attachment(incoming[i], ""))
                  && (incoming != [] ==> g.uploadError == "")
                else
                  && g.items == f.items
                  && exists i :: 0 <= i < |incoming| && incoming[i].size > 10485760 && incoming[i].name <= g.uploadError)
  {
    if Oversized(incoming).Some? {
      var big := Oversized(incoming).value;
      var i :| 0 <= i < |incoming| && incoming[i] == big;
      assert big.name <= AddFiles(f, incoming).uploadError;
    }
  }

  /** Removing takes that file with its caption and keeps the others in order; past the end it takes none. */
  lemma RemovesThatFile(f: Form, index: nat)
    ensures var g := RemoveFileAt(f, index);
            if index < |f.items| then
              && |g.items| == |f.items| - 1
              && (forall i :: 0 <= i < index ==> g.items[i] == f.items[i])
              && (forall i :: index <= i < |g.items| ==> g.items[i] == f.items[i + 1])
            else g.items == f.items
  {
  }
}
