/**
 * The courts of the picked city: five loaders share one request counter, and answers
 * arrive in any order. The edit and regenerate prefills write the city and the flags in a
 * React transition: these are queued and shown at a later commit. A write outside a
 * transition shows at once and, being later, also stands over what is queued.
 */
module CourtPanelModel {
  import opened Base

  /** Which code started the fetch: they differ on failure, on cancellation and on when their flags show. */
  datatype Loader = Picker | MultiPicker | Regenerate | EditTicket | ResumeDraft

  /** The state a transition can queue. */
  datatype Flags = Flags(loading: bool, loaded: bool, cityId: string)

  /** `next` is what `shown` becomes when React commits. */
  datatype Panel = Panel(groups: seq<string>, counter: nat, shown: Flags, next: Flags)

  datatype Request = Request(seqNo: nat, city: string, loader: Loader)

  const NONE := Flags(false, false, "")
  const EMPTY := Panel([], 0, NONE, NONE)

  /** A write outside a transition. */
  function Urgent(groups: seq<string>, counter: nat, f: Flags): Panel {
    Panel(groups, counter, f, f)
  }

  /** Only the city is written. */
  function SetCity(p: Panel, city: string): Panel {
    p.(shown := p.shown.(cityId := city), next := p.next.(cityId := city))
  }

  /** `handleCityChange`; a non-empty city is fetched. */
  function PickCity(p: Panel, city: string): Panel {
    Urgent([], p.counter + 1, Flags(city != "", false, city))
  }

  /** The handler compares with the city on screen. */
  predicate MultiFetches(p: Panel, primary: string) { primary != "" && primary != p.shown.cityId }

  /** `onCitiesChange` with `primary == ids[0] ?? ''`; keeps the old list while the new one loads. */
  function PickCities(p: Panel, primary: string): Panel {
    if MultiFetches(p, primary) then Urgent(p.groups, p.counter + 1, Flags(true, false, primary))
    else if primary == "" then Urgent([], p.counter + 1, NONE)
    else SetCity(p, primary)
  }

  predicate InTransition(l: Loader) { l.Regenerate? || l.EditTicket? }

  /** The regenerate, edit and resume prefills; an empty city fetches nothing. */
  function Prefill(p: Panel, city: string, loader: Loader): Panel {
    if city == "" then p
    else if InTransition(loader) then p.(counter := p.counter + 1, next := Flags(true, false, city))
    else Urgent(p.groups, p.counter + 1, Flags(true, false, city))
  }

  /** The future-ticket prefill sets a non-empty city and fetches nothing. */
  function FuturePrefill(p: Panel, city: string): Panel {
    if city == "" then p else SetCity(p, city)
  }

  /** `resetForm`: the list and the city go, the counter and the flags stay. */
  function ResetPanel(p: Panel): Panel {
    SetCity(p, "").(groups := [])
  }

  /** `handleProvinceChange` / `handleDistrictChange` touch only the city. */
  function ClearPlace(p: Panel): Panel {
    SetCity(p, "")
  }

  /** React applies the queued transitions. */
  function Commit(p: Panel): Panel {
    p.(shown := p.next)
  }

  /** `.then`. */
  function Answered(p: Panel, r: Request, cancelled: bool, groups: seq<string>): Panel {
    if r.seqNo == p.counter && !(r.loader.ResumeDraft? && cancelled) then p.(groups := groups) else p
  }

  /** `.catch`: the resume loader ignores the failure and keeps the list. */
  function Failed(p: Panel, r: Request): Panel {
    if r.seqNo == p.counter && !r.loader.ResumeDraft? then p.(groups := []) else p
  }

  predicate Abandoned(r: Request, cancelled: bool) {
    (r.loader.ResumeDraft? || r.loader.EditTicket?) && cancelled
  }

  function Done(f: Flags): Flags {
    f.(loading := false, loaded := true)
  }

  /** `.finally`. */
  function Settled(p: Panel, r: Request, cancelled: bool): Panel {
    if r.seqNo == p.counter && !Abandoned(r, cancelled) then p.(shown := Done(p.shown), next := Done(p.next)) else p
  }

  /** The component's state fields and handlers; the `queued` fields are what React will commit. */
  class CourtPanel {
    var cityCourtGroups: seq<string>
    var cityCourtsLoading: bool
    var cityCourtsLoaded: bool
    var cityCourtsReqRef: nat
    var cityId: string
    var queuedLoading: bool
    var queuedLoaded: bool
    var queuedCityId: string

    function View(): Panel
      reads this
    {
      Panel(cityCourtGroups, cityCourtsReqRef, Flags(cityCourtsLoading, cityCourtsLoaded, cityId),
            Flags(queuedLoading, queuedLoaded, queuedCityId))
    }

    constructor ()
      ensures View() == EMPTY
    {
      cityCourtGroups, cityCourtsReqRef := [], 0;
      cityCourtsLoading, cityCourtsLoaded, cityId := false, false, "";
      queuedLoading, queuedLoaded, queuedCityId := false, false, "";
    }

    method SetCityCourtsLoading(loading: bool)
      modifies this`cityCourtsLoading, this`queuedLoading
      ensures cityCourtsLoading == queuedLoading == loading
    {
      cityCourtsLoading, queuedLoading := loading, loading;
    }

    method SetCityCourtsLoaded(loaded: bool)
      modifies this`cityCourtsLoaded, this`queuedLoaded
      ensures cityCourtsLoaded == queuedLoaded == loaded
    {
      cityCourtsLoaded, queuedLoaded := loaded, loaded;
    }

    method SetCityId(city: string)
      modifies this`cityId, this`queuedCityId
      ensures cityId == queuedCityId == city
    {
      cityId, queuedCityId := city, city;
    }

    method HandleCityChange(city: string) returns (sent: Option<Request>)
      modifies this
      ensures View() == PickCity(old(View()), city)
      ensures sent == if city == "" then None else Some(Request(cityCourtsReqRef, city, Picker))
    {
      SetCityId(city);
      cityCourtGroups := [];
      SetCityCourtsLoaded(false);
      cityCourtsReqRef := cityCourtsReqRef + 1;
      if city == "" {
        SetCityCourtsLoading(false);
        return None;
      }
      SetCityCourtsLoading(true);
      sent := Some(Request(cityCourtsReqRef, city, Picker));
    }

    method OnCitiesChange(ids: seq<string>) returns (sent: Option<Request>)
      modifies this
      ensures var primary := if ids == [] then "" else ids[0];
              && View() == PickCities(old(View()), primary)
              && sent == if MultiFetches(old(View()), primary) then Some(Request(cityCourtsReqRef, primary, MultiPicker)) else None
    {
      var primaryId := if ids == [] then "" else ids[0];
      var previousPrimary := cityId;
      SetCityId(primaryId);
      sent := None;
      if primaryId != "" && primaryId != previousPrimary {
        SetCityCourtsLoading(true);
        SetCityCourtsLoaded(false);
        cityCourtsReqRef := cityCourtsReqRef + 1;
        sent := Some(Request(cityCourtsReqRef, primaryId, MultiPicker));
      } else if primaryId == "" {
        cityCourtGroups := [];
        SetCityCourtsLoaded(false);
        SetCityCourtsLoading(false);
        cityCourtsReqRef := cityCourtsReqRef + 1;
      }
    }

    method PrefillCity(city: string, loader: Loader) returns (sent: Option<Request>)
      modifies this
      ensures View() == Prefill(old(View()), city, loader)
      ensures sent == if city == "" then None else Some(Request(cityCourtsReqRef, city, loader))
    {
      sent := None;
      if city != "" {
        if InTransition(loader) {
          queuedCityId, queuedLoading, queuedLoaded := city, true, false;
        } else {
          SetCityId(city);
          SetCityCourtsLoading(true);
          SetCityCourtsLoaded(false);
        }
        cityCourtsReqRef := cityCourtsReqRef + 1;
        sent := Some(Request(cityCourtsReqRef, city, loader));
      }
    }

    method PrefillFutureCity(city: string)
      modifies this`cityId, this`queuedCityId
      ensures View() == FuturePrefill(old(View()), city)
    {
      if city != "" { SetCityId(city); }
    }

    /** The three continuations of one fetch; `answer` is `None` when it failed. */
    method FetchSettles(r: Request, cancelled: bool, answer: Option<seq<string>>)
      modifies this
      ensures View() == Settled(if answer.Some? then Answered(old(View()), r, cancelled, answer.value) else Failed(old(View()), r),
                                r, cancelled)
    {
      var current := r.seqNo == cityCourtsReqRef;
      if answer.Some? {
        if current && !(r.loader.ResumeDraft? && cancelled) { cityCourtGroups := answer.value; }
      } else if !r.loader.ResumeDraft? {
        if current { cityCourtGroups := []; }
      }
      if !current { return; }
      if !Abandoned(r, cancelled) {
        SetCityCourtsLoading(false);
        SetCityCourtsLoaded(true);
      }
    }
  }
}

module CourtRuns {
  import opened Base
  import opened CourtPanelModel

  datatype Outcome = Waiting | Answer(groups: seq<string>) | Failure

  /** History of the city and the flags on screen, which the panel does not keep. */
  datatype History = History(
    abandoned: set<nat>,         // requests whose effect had been cleaned up when their `.finally` ran
    commits: nat,                // how many requests had been sent when React last committed
    held: Flags,                 // what was on screen when the last queued prefill was sent
    moved: bool,                 // the city on screen was put there beside the latest request
    movesNext: bool)             // and so is the queued one

  datatype System = System(
    panel: Panel,
    sent: seq<Request>,
    outcomes: seq<Outcome>,      // per request: what `.then` or `.catch` saw
    finished: set<nat>,          // requests whose `.finally` ran
    cancelled: set<nat>,         // requests whose effect was cleaned up
    past: History)

  datatype Event =
    | Picks(city: string)
    | PicksMany(primary: string)
    | Prefills(loader: Loader, city: string)
    | FuturePrefills(city: string)
    | Resets
    | ClearsPlace
    | Commits
    | Cancels(request: nat)
    | Answers(request: nat, groups: seq<string>)
    | Fails(request: nat)
    | Settles(request: nat)

  const START := System(EMPTY, [], [], {}, {}, History({}, 0, NONE, false, false))

  /** A fetch goes out. A queued one leaves another city on screen until React commits. */
  function Send(s: System, p: Panel, city: string, loader: Loader): System {
    var h := s.past;
    s.(panel := p,
       sent := s.sent + [Request(p.counter, city, loader)], outcomes := s.outcomes + [Waiting],
       past := if InTransition(loader) then h.(held := s.panel.shown, moved := s.panel.shown.cityId !in {"", city}, movesNext := false)
               else h.(moved := false, movesNext := false))
  }

  /** The city is gone, on screen and in the queue. */
  function Cleared(s: System, p: Panel): System {
    s.(panel := p, past := s.past.(moved := false, movesNext := false))
  }

  /** The future-ticket prefill puts its city beside whatever was fetched last. */
  function PutBeside(s: System, city: string): System {
    var other := s.sent == [] || s.sent[|s.sent| - 1].city != city;
    s.(panel := FuturePrefill(s.panel, city),
       past := if city == "" then s.past else s.past.(moved := other, movesNext := other))
  }

  predicate PrefillLoader(l: Loader) { InTransition(l) || l.ResumeDraft? }

  predicate Enabled(s: System, e: Event) {
    match e
    case Prefills(l, _) => PrefillLoader(l)
    case Cancels(i) => i < |s.sent| && (s.sent[i].loader.EditTicket? || s.sent[i].loader.ResumeDraft?)
    case Answers(i, _) => i < |s.sent| && i < |s.outcomes| && s.outcomes[i].Waiting?
    case Fails(i) => i < |s.sent| && i < |s.outcomes| && s.outcomes[i].Waiting?
    case Settles(i) => i < |s.sent| && i < |s.outcomes| && !s.outcomes[i].Waiting? && i !in s.finished
    case _ => true
  }

  function Step(s: System, e: Event): System {
    if !Enabled(s, e) then s
    else match e
      case Picks(city) =>
        var p := PickCity(s.panel, city);
        if city == "" then Cleared(s, p) else Send(s, p, city, Picker)
      case PicksMany(primary) =>
        var p := PickCities(s.panel, primary);
        if MultiFetches(s.panel, primary) then Send(s, p, primary, MultiPicker)
        else if primary == "" then Cleared(s, p)
        else s.(panel := p, past := s.past.(movesNext := s.past.moved))
      case Prefills(loader, city) =>
        if city == "" then s else Send(s, Prefill(s.panel, city, loader), city, loader)
      case FuturePrefills(city) => PutBeside(s, city)
      case Resets => Cleared(s, ResetPanel(s.panel))
      case ClearsPlace => Cleared(s, ClearPlace(s.panel))
      case Commits => s.(panel := Commit(s.panel), past := s.past.(commits := |s.sent|, moved := s.past.movesNext))
      case Cancels(i) => s.(cancelled := s.cancelled + {i})
      case Answers(i, groups) =>
        s.(panel := Answered(s.panel, s.sent[i], i in s.cancelled, groups), outcomes := s.outcomes[i := Answer(groups)])
      case Fails(i) =>
        s.(panel := Failed(s.panel, s.sent[i]), outcomes := s.outcomes[i := Failure])
      case Settles(i) =>
        s.(panel := Settled(s.panel, s.sent[i], i in s.cancelled), finished := s.finished + {i},
           past := if Abandoned(s.sent[i], i in s.cancelled) then s.past.(abandoned := s.past.abandoned + {i}) else s.past)
  }

  function Run(es: seq<Event>): System {
    if es == [] then START else Step(Run(es[..|es| - 1]), es[|es| - 1])
  }

  /** The latest request is still the current one: the counter has not moved since. */
  predicate Live(s: System) {
    s.sent != [] && s.sent[|s.sent| - 1].seqNo == s.panel.counter
  }

  /** Its `.finally` has run and was not stopped by a cleanup. */
  predicate Finished(s: System) {
    |s.sent| - 1 in s.finished && |s.sent| - 1 !in s.past.abandoned
  }

  /** The latest request is a queued prefill that React has not committed and that has not finished. */
  predicate Queued(s: System) {
    Live(s) && InTransition(s.sent[|s.sent| - 1].loader) && s.past.commits < |s.sent| && !Finished(s)
  }

  predicate IsLatestAnswer(s: System) {
    Live(s) && |s.outcomes| == |s.sent| && s.outcomes[|s.sent| - 1] == Answer(s.panel.groups)
  }

  /** The latest request is a resume fetch that failed and left the old list in place. */
  predicate StaleAfterResume(s: System) {
    && Live(s) && |s.outcomes| == |s.sent|
    && s.sent[|s.sent| - 1].loader.ResumeDraft? && s.outcomes[|s.sent| - 1].Failure? && s.panel.groups != []
  }

  /** The latest request is a queued prefill without an answer, and the list before it is still on screen. */
  predicate StaleUnderQueue(s: System) {
    && Queued(s) && |s.outcomes| == |s.sent|
    && s.outcomes[|s.sent| - 1].Waiting? && s.panel.groups != []
  }

  // ---- The invariant, part by part ----

  /** Sequence numbers grow with the counter. */
  predicate Counted(s: System) {
    var n := |s.sent|;
    && |s.outcomes| == n && s.past.commits <= n
    && (forall i :: 0 <= i < n ==> s.sent[i].seqNo <= s.panel.counter && s.sent[i].city != "")
    && (forall i, j :: 0 <= i < j < n ==> s.sent[i].seqNo < s.sent[j].seqNo)
    && (forall i :: i in s.finished ==> i < n && !s.outcomes[i].Waiting?)
    && (forall i :: i in s.past.abandoned ==>
          i in s.finished && i < n && (s.sent[i].loader.ResumeDraft? || s.sent[i].loader.EditTicket?))
  }

  /** The queued flags are the latest request's; those on screen too, but for a queued prefill. */
  predicate Flagged(s: System) {
    && (s.panel.next.loading <==> Live(s) && !Finished(s))
    && (s.panel.next.loaded <==> Live(s) && Finished(s))
    && (if Queued(s) then (s.panel.shown.loading, s.panel.shown.loaded) == (s.past.held.loading, s.past.held.loaded)
        else (s.panel.shown.loading, s.panel.shown.loaded) == (s.panel.next.loading, s.panel.next.loaded))
  }

  /** What the list can be: nothing without a live request, nor under a picked city until its answer is in. */
  predicate Listed(s: System) {
    var n := |s.sent|;
    if !Live(s) then s.panel.groups == []
    else |s.outcomes| == n ==>
      match s.outcomes[n - 1]
      case Waiting => s.sent[n - 1].loader.Picker? ==> s.panel.groups == []
      case Answer(g) => (Finished(s) || !(s.sent[n - 1].loader.ResumeDraft? && n - 1 in s.cancelled)) ==> s.panel.groups in {g, []}
      case Failure => !s.sent[n - 1].loader.ResumeDraft? ==> s.panel.groups == []
  }

  /** `moved` tells whether a city was put beside the latest request's. */
  predicate Placed(s: System) {
    && (s.panel.shown.cityId != "" && s.sent != [] ==> (s.past.moved <==> s.panel.shown.cityId != s.sent[|s.sent| - 1].city))
    && (s.panel.next.cityId != "" && s.sent != [] ==> (s.past.movesNext <==> s.panel.next.cityId != s.sent[|s.sent| - 1].city))
  }

  predicate Inv(s: System) {
    Counted(s) && Flagged(s) && Listed(s) && Placed(s)
  }

  predicate FromNetwork(e: Event) { e.Cancels? || e.Answers? || e.Fails? || e.Settles? }

  lemma CountedByNetwork(s: System, e: Event)
    requires Counted(s) && FromNetwork(e)
    ensures Counted(Step(s, e))
  {
  }

  lemma CountedByPicker(s: System, e: Event)
    requires Counted(s) && !FromNetwork(e)
    ensures Counted(Step(s, e))
  {
  }

  lemma FlaggedByNetwork(s: System, e: Event)
    requires Counted(s) && Flagged(s) && FromNetwork(e)
    ensures Flagged(Step(s, e))
  {
  }

  lemma FlaggedByPicker(s: System, e: Event)
    requires Counted(s) && Flagged(s) && !FromNetwork(e)
    ensures Flagged(Step(s, e))
  {
  }

  lemma ListedByNetwork(s: System, e: Event)
    requires Counted(s) && Listed(s) && FromNetwork(e)
    ensures Listed(Step(s, e))
  {
  }

  lemma ListedByPicker(s: System, e: Event)
    requires Counted(s) && Listed(s) && !FromNetwork(e)
    ensures Listed(Step(s, e))
  {
  }

  lemma PlacedStep(s: System, e: Event)
    requires Counted(s) && Placed(s)
    ensures Placed(Step(s, e))
  {
  }

  lemma StepKeepsInv(s: System, e: Event)
    requires Inv(s)
    ensures Inv(Step(s, e))
  {
    PlacedStep(s, e);
    if FromNetwork(e) {
      CountedByNetwork(s, e);
      FlaggedByNetwork(s, e);
      ListedByNetwork(s, e);
    } else {
      CountedByPicker(s, e);
      FlaggedByPicker(s, e);
      ListedByPicker(s, e);
    }
  }

  lemma {:induction false} RunInv(es: seq<Event>)
    ensures Inv(Run(es))
  {
    if es != [] {
      RunInv(es[..|es| - 1]);
      StepKeepsInv(Run(es[..|es| - 1]), es[|es| - 1]);
    }
  }

  /**
   * In every run: while the screen shows courts as loaded, the list is empty or the answer to the most
   * recently issued request, exactly when that request is neither a resume fetch that failed over an old
   * list nor a queued prefill still waiting under one.
   */
  lemma LoadedListIsLatest(es: seq<Event>)
    ensures var s := Run(es);
            s.panel.shown.loaded ==>
              Live(s) && (s.panel.groups == [] || IsLatestAnswer(s) <==> !StaleAfterResume(s) && !StaleUnderQueue(s))
  {
    RunInv(es);
  }

  /**
   * In every run: while the screen shows courts as loaded, the latest request was for the city on screen
   * exactly when there is one and none was put beside that request's: by the future-ticket prefill, or
   * by leaving the old one up while a prefill is queued.
   */
  lemma LoadedListIsForTheCity(es: seq<Event>)
    ensures var s := Run(es);
            s.panel.shown.loaded ==>
              Live(s) && (s.sent[|s.sent| - 1].city == s.panel.shown.cityId <==> s.panel.shown.cityId != "" && !s.past.moved)
  {
    RunInv(es);
  }

  /**
   * In every run: `loading` shows exactly while the latest request is live and not finished, and `loaded`
   * exactly when it is live and finished, but for a queued prefill that was sent over other flags: these
   * stay on screen until React commits or it finishes.
   */
  lemma LoadingIsOutstanding(es: seq<Event>)
    ensures var s := Run(es);
            && ((s.panel.shown.loading <==> Live(s) && !Finished(s)) <==> !(Queued(s) && !s.past.held.loading))
            && ((s.panel.shown.loaded <==> Live(s) && Finished(s)) <==> !(Queued(s) && s.past.held.loaded))
            && (forall i :: i in s.past.abandoned ==> i < |s.sent| && (s.sent[i].loader.ResumeDraft? || s.sent[i].loader.EditTicket?))
  {
    RunInv(es);
  }

  /** An answer, a failure or a settlement of any but the latest live request changes nothing on screen. */
  lemma StaleRepliesAreIgnored(es: seq<Event>, e: Event, i: nat)
    requires e == Fails(i) || e == Settles(i) || (e.Answers? && e.request == i)
    requires var s := Run(es); i < |s.sent| && (i < |s.sent| - 1 || !Live(s))
    ensures Step(Run(es), e).panel == Run(es).panel
  {
    RunInv(es);
    var s := Run(es);
    assert s.sent[i].seqNo <= s.sent[|s.sent| - 1].seqNo <= s.panel.counter;
  }

  predicate IsCurrent(s: System, i: nat) {
    Live(s) && i == |s.sent| - 1
  }

  lemma CurrentByNumber(s: System, i: nat)
    requires Counted(s) && i < |s.sent|
    ensures s.sent[i].seqNo == s.panel.counter <==> IsCurrent(s, i)
  {
    if i < |s.sent| - 1 { assert s.sent[i].seqNo < s.sent[|s.sent| - 1].seqNo <= s.panel.counter; }
  }

  /** The answer, or none, that `e` puts on screen in place of the list. */
  function ListFrom(s: System, e: Event): Option<seq<string>>
    requires Enabled(s, e)
  {
    if e.Picks? || e.Resets? || e == PicksMany("") then Some([])
    else if e.Answers? && IsCurrent(s, e.request) && !(s.sent[e.request].loader.ResumeDraft? && e.request in s.cancelled)
    then Some(e.groups)
    else if e.Fails? && IsCurrent(s, e.request) && !s.sent[e.request].loader.ResumeDraft? then Some([])
    else None
  }

  lemma ListByNetwork(s: System, e: Event)
    requires Counted(s) && Enabled(s, e) && FromNetwork(e)
    ensures Step(s, e).panel.groups == ListFrom(s, e).GetOr(s.panel.groups)
  {
    if !e.Cancels? { CurrentByNumber(s, e.request); }
  }

  lemma ListByPicker(s: System, e: Event)
    requires Enabled(s, e) && !FromNetwork(e)
    ensures Step(s, e).panel.groups == ListFrom(s, e).GetOr(s.panel.groups)
  {
  }

  /**
   * In every run the list is emptied by a pick, by the last city going and by a reset; it becomes the answer to
   * the latest live request, unless that is a cancelled resume fetch, and empty when that request fails, unless
   * it is a resume fetch. Nothing else changes it.
   */
  lemma ListChangesExactly(es: seq<Event>, e: Event)
    requires Enabled(Run(es), e)
    ensures Step(Run(es), e).panel.groups == ListFrom(Run(es), e).GetOr(Run(es).panel.groups)
  {
    RunInv(es);
    if FromNetwork(e) { ListByNetwork(Run(es), e); } else { ListByPicker(Run(es), e); }
  }

  /** In every run there is no list without a live request, nor under a picked city until its answer is in. */
  lemma NoListWhilePicking(es: seq<Event>)
    ensures var s := Run(es);
            !Live(s) || (s.sent[|s.sent| - 1].loader.Picker? && |s.outcomes| == |s.sent| && s.outcomes[|s.sent| - 1].Waiting?)
            ==> s.panel.groups == []
  {
    RunInv(es);
  }

  /** The city last picked, prefilled or cleared. */
  function LastCity(es: seq<Event>): string {
    if es == [] then ""
    else
      var before := LastCity(es[..|es| - 1]);
      match es[|es| - 1]
      case Picks(city) => city
      case PicksMany(primary) => primary
      case Prefills(loader, city) => if city != "" && PrefillLoader(loader) then city else before
      case FuturePrefills(city) => if city != "" then city else before
      case Resets => ""
      case ClearsPlace => ""
      case _ => before
  }

  /** The same, where a prefill in a transition waits for the next commit. */
  function ShownCity(es: seq<Event>): string {
    if es == [] then ""
    else
      var front := es[..|es| - 1];
      match es[|es| - 1]
      case Commits => LastCity(front)
      case Prefills(loader, city) => if city != "" && loader.ResumeDraft? then city else ShownCity(front)
      case FuturePrefills(city) => if city != "" then city else ShownCity(front)
      case Picks(city) => city
      case PicksMany(primary) => primary
      case Resets => ""
      case ClearsPlace => ""
      case _ => ShownCity(front)
  }

  lemma CitiesStep(s: System, e: Event)
    ensures var p, p' := s.panel, Step(s, e).panel;
            if e.Picks? then p'.shown.cityId == p'.next.cityId == e.city
            else if e.PicksMany? then p'.shown.cityId == p'.next.cityId == e.primary
            else if e.FuturePrefills? && e.city != "" then p'.shown.cityId == p'.next.cityId == e.city
            else if e.Resets? || e.ClearsPlace? then p'.shown.cityId == p'.next.cityId == ""
            else if e.Prefills? && e.city != "" && PrefillLoader(e.loader) then
              p'.next.cityId == e.city && p'.shown.cityId == if e.loader.ResumeDraft? then e.city else p.shown.cityId
            else p'.next.cityId == p.next.cityId && p'.shown.cityId == if e.Commits? then p.next.cityId else p.shown.cityId
  {
  }

  /** In every run the city on screen and the queued one are these. */
  lemma {:induction false} CityIsTheLast(es: seq<Event>)
    ensures Run(es).panel.next.cityId == LastCity(es) && Run(es).panel.shown.cityId == ShownCity(es)
  {
    if es != [] {
      CityIsTheLast(es[..|es| - 1]);
      CitiesStep(Run(es[..|es| - 1]), es[|es| - 1]);
    }
  }

  /** In every run a fetch goes out for each city picked or prefilled, and for a first city other than the one on screen. */
  lemma FetchesExactly(es: seq<Event>, e: Event)
    requires Enabled(Run(es), e)
    ensures var s, s' := Run(es), Step(Run(es), e);
            if e.Picks? && e.city != "" then s'.sent == s.sent + [Request(s'.panel.counter, e.city, Picker)]
            else if e.PicksMany? && e.primary != "" && e.primary != ShownCity(es)
            then s'.sent == s.sent + [Request(s'.panel.counter, e.primary, MultiPicker)]
            else if e.Prefills? && e.city != "" then s'.sent == s.sent + [Request(s'.panel.counter, e.city, e.loader)]
            else s'.sent == s.sent
  {
    CityIsTheLast(es);
  }

  // ---- Where it stops: concrete runs ----

  lemma Then(es: seq<Event>, e: Event) returns (es': seq<Event>)
    ensures Run(es') == Step(Run(es), e)
  {
    es' := es + [e];
    assert es'[..|es|] == es;
  }

  /** A city is picked and its courts are shown. */
  lemma PickAndLoad(a: string, groups: seq<string>) returns (es: seq<Event>)
    requires a != ""
    ensures var s := Run(es);
            && s.panel == Urgent(groups, 1, Flags(false, true, a)) && s.sent == [Request(1, a, Picker)]
            && s.outcomes == [Answer(groups)] && s.finished == {0} && s.cancelled == {}
            && s.past == History({}, 0, NONE, false, false)
  {
    es := Then([], Picks(a));
    es := Then(es, Answers(0, groups));
    es := Then(es, Settles(0));
  }

  /** A failed resume fetch shows the previous city's list as this city's. */
  lemma ResumeFailureKeepsOldList(a: string, b: string, groups: seq<string>) returns (es: seq<Event>)
    requires a != "" && b != "" && groups != []
    ensures var s := Run(es); s.panel == Urgent(groups, 2, Flags(false, true, b)) && StaleAfterResume(s)
  {
    es := PickAndLoad(a, groups);
    es := Then(es, Prefills(ResumeDraft, b));
    es := Then(es, Fails(1));
    es := Then(es, Settles(1));
  }

  /** The future-ticket prefill fetches nothing: the previous city's list stays, as this city's. */
  lemma FutureCityKeepsOldList(a: string, b: string, groups: seq<string>) returns (es: seq<Event>)
    requires a != "" && b != "" && a != b
    ensures var s := Run(es);
            && s.panel == Urgent(groups, 1, Flags(false, true, b)) && IsLatestAnswer(s)
            && s.sent == [Request(1, a, Picker)] && s.past.moved
  {
    es := PickAndLoad(a, groups);
    es := Then(es, FuturePrefills(b));
  }

  /** Until React commits, the old city's list shows as loaded while the regenerate fetch is out. */
  lemma QueuedPrefillShowsOldList(a: string, b: string, groups: seq<string>) returns (es: seq<Event>)
    requires a != "" && b != "" && a != b && groups != []
    ensures var s := Run(es);
            && s.panel == Panel(groups, 2, Flags(false, true, a), Flags(true, false, b)) && StaleUnderQueue(s)
            && s.sent == [Request(1, a, Picker), Request(2, b, Regenerate)] && s.outcomes == [Answer(groups), Waiting]
            && s.finished == {0} && s.cancelled == {}
  {
    es := PickAndLoad(a, groups);
    es := Then(es, Prefills(Regenerate, b));
  }

  /** Adding a second city in that window puts the old city back, and the new city's courts end up under it. */
  lemma SecondCityUndoesQueuedCity(a: string, b: string, forA: seq<string>, forB: seq<string>) returns (es: seq<Event>)
    requires a != "" && b != "" && a != b && forA != []
    ensures var s := Run(es);
            && s.panel == Urgent(forB, 2, Flags(false, true, a)) && IsLatestAnswer(s)
            && s.sent == [Request(1, a, Picker), Request(2, b, Regenerate)]
  {
    es := QueuedPrefillShowsOldList(a, b, forA);
    es := Then(es, PicksMany(a));
    assert Run(es).panel.next == Flags(true, false, a);
    es := Then(es, Commits);
    assert Run(es).panel == Urgent(forA, 2, Flags(true, false, a));
    es := Then(es, Answers(1, forB));
    es := Then(es, Settles(1));
  }

  /** `resetForm` does not bump the counter: an answer that lands after it fills the blank form. */
  lemma AnswerAfterResetIsShown(a: string, groups: seq<string>) returns (es: seq<Event>)
    requires a != ""
    ensures Run(es).panel == Urgent(groups, 1, Flags(false, true, ""))
  {
    es := Then([], Picks(a));
    es := Then(es, Resets);
    es := Then(es, Answers(0, groups));
    es := Then(es, Settles(0));
  }

  /** A resume fetch whose effect was cleaned up leaves the spinner on after it settled. */
  lemma CancelledResumeKeepsSpinning(a: string) returns (es: seq<Event>)
    requires a != ""
    ensures var s := Run(es); s.panel.shown.loading && s.finished == {0} && |s.sent| == 1
  {
    es := Then([], Prefills(ResumeDraft, a));
    es := Then(es, Cancels(0));
    es := Then(es, Fails(0));
    es := Then(es, Settles(0));
  }
}
