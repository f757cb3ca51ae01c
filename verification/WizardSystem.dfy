/**
 * The wizard beside its server. Replies arrive in any order or never; a request that is
 * on the wire may be handled at any later time, and more than once.
 */
module WizardSystem {
  import opened Base
  import opened Text
  import opened WizardClient

  datatype SaveMsg = SaveMsg(draft: Draft, auto: bool)
  datatype SubmitMsg = SubmitMsg(key: Option<nat>, draft: Draft, items: seq<Attachment>, resets: nat)

  /** History: one raise of the guard, and how many resets and failed submits there had been before it. */
  datatype Mark = Mark(number: nat, resets: nat, failures: nat)

  /** History: the failed submits so far and the last raise of the guard. */
  datatype GuardLog = GuardLog(failures: nat, last: Option<Mark>)

  datatype SaveWire = SaveWire(
    sent: seq<SaveMsg>,              // every draft save ever sent
    replies: set<(nat, SaveReply)>,
    settled: set<nat>,               // saves whose promise has settled at the client
    raisedAt: nat)                   // history: how many had been sent when the guard last went up

  datatype SubmitWire = SubmitWire(
    sent: seq<SubmitMsg>,            // every ticket POST ever sent
    replies: set<(nat, nat)>,        // (submit, ticket)
    landed: map<nat, nat>)           // history: ticket -> submit whose reply the client took

  /** The DELETE carries a flow alone. History: the raise that its click made and the draft it discards. */
  datatype Discard = Discard(flow: string, mark: Mark, draft: Draft)
  datatype DiscardWire = DiscardWire(sent: seq<Discard>, settled: set<nat>)

  datatype Ticket = Ticket(key: Option<nat>, submit: nat, resetsAtBirth: nat)
  datatype DraftRow = DraftRow(id: nat, draft: Draft)
  datatype Server = Server(tickets: seq<Ticket>, drafts: map<(string, string), DraftRow>, nextDraft: nat)
  datatype Upload = Upload(ticket: nat, file: File, caption: string, ok: bool)

  /** Where the one async handler that holds `loading` is suspended. */
  datatype Activity =
    | Idle
    | Saving(save: nat)
    | Posting(submit: nat)
    | Uploading(submit: nat, ticket: nat, done: nat)

  datatype System = System(
    client: Client,
    activity: Activity,
    server: Server,
    saves: SaveWire,
    submits: SubmitWire,
    discards: DiscardWire,
    uploads: seq<Upload>,            // every upload attempt, in order
    guardLog: GuardLog)

  datatype Event =
    | Edits(draft: Draft, place: Place)
    | AddsFiles(incoming: seq<File>)
    | RemovesFile(index: nat)
    | CaptionsFile(index: nat, caption: string)
    | Resumes(draft: Draft, place: Place, id: nat)
    | Prefills(draft: Draft, place: Place)
    | RunsEffect
    | TimerFires(timer: nat)
    | ClicksSave
    | ClicksSubmit
    | ClicksStartFresh
    | ServerSaves(save: nat, suppress: bool)
    | SaveReplyArrives(save: nat, reply: SaveReply)
    | SaveIsLost(save: nat)
    | ServerTakesSubmit(submit: nat)
    | SubmitReplyArrives(ticket: nat)
    | SubmitIsLost
    | UploadSettles(ok: bool)
    | UploadsDone
    | ServerDiscards(discard: nat)
    | DiscardSettles(discard: nat)

  function Start(cfg: Config): System {
    System(Mounted(cfg), Idle, Server([], map[], 0),
           SaveWire([], {}, {}, 0), SubmitWire([], {}, map[]), DiscardWire([], {}), [], GuardLog(0, None))
  }

  // ---- Client events that send ----

  function SendSave(w: SaveWire, draft: Draft, auto: bool): SaveWire {
    w.(sent := w.sent + [SaveMsg(draft, auto)])
  }

  /** The timer callback: `saveDraft('auto')` over the captured draft. */
  function FireTimer(s: System, t: nat): System
    requires t in s.client.auto.timers
  {
    var a := s.client.auto;
    s.(client := s.client.(auto := a.(timers := a.timers - {t})),
       saves := if a.guard then s.saves else SendSave(s.saves, a.timers[t], true))
  }

  function ClickSave(s: System): System {
    s.(client := s.client.(loading := true), activity := Saving(|s.saves.sent|),
       saves := SendSave(s.saves, s.client.form.draft, false))
  }

  function Raised(w: SaveWire): SaveWire {
    w.(raisedAt := |w.sent|)
  }

  function NextMark(s: System): Mark {
    Mark(if s.guardLog.last.Some? then s.guardLog.last.value.number + 1 else 0,
         s.client.attempt.resets, s.guardLog.failures)
  }

  /** What the POST carries: the key, and the draft and the files held at the click. */
  function Posted(c: Client): SubmitMsg {
    SubmitMsg(c.attempt.requestKey, c.form.draft, c.form.items, c.attempt.resets)
  }

  function ClickSubmit(cfg: Config, s: System): System {
    var c := BeginSubmit(cfg, s.client);
    s.(client := c, activity := Posting(|s.submits.sent|), saves := Raised(s.saves),
       guardLog := s.guardLog.(last := Some(NextMark(s))),
       submits := s.submits.(sent := s.submits.sent + [Posted(c)]))
  }

  function ClickStartFresh(cfg: Config, s: System): System {
    var c, d := BeginDiscard(s.client), s.client.form.draft;
    var log := s.guardLog.(last := Some(NextMark(s)));
    if d.flow == "" then s.(client := ResetForm(cfg, c), saves := Raised(s.saves), guardLog := log)
    else s.(client := c, saves := Raised(s.saves), guardLog := log,
            discards := s.discards.(sent := s.discards.sent + [Discard(d.flow, NextMark(s), d)]))
  }

  // ---- Server events ----

  /** `saveIntakeDraft`: suppressed, or one row upserted per (consumer, flow). */
  function ServerSave(s: System, i: nat, suppress: bool): System
    requires i < |s.saves.sent|
  {
    var d, sv := s.saves.sent[i].draft, s.server;
    var at := (d.consumerId, d.flow);
    var id := if at in sv.drafts then sv.drafts[at].id else sv.nextDraft;
    if suppress then s.(saves := s.saves.(replies := s.saves.replies + {(i, Suppressed)}))
    else s.(server := sv.(drafts := sv.drafts[at := DraftRow(id, d)],
                          nextDraft := if at in sv.drafts then sv.nextDraft else sv.nextDraft + 1),
            saves := s.saves.(replies := s.saves.replies + {(i, Saved(id))}))
  }

  /** The existing ticket for a key, if there is one. */
  function TicketFor(tickets: seq<Ticket>, key: Option<nat>): (r: Option<nat>)
    ensures r.Some? ==> r.value < |tickets| && key.Some? && tickets[r.value].key == key
    ensures r.None? && key.Some? ==> forall i :: 0 <= i < |tickets| ==> tickets[i].key != key
  {
    if key.None? || tickets == [] then None
    else if tickets[|tickets| - 1].key == key then Some(|tickets| - 1)
    else TicketFor(tickets[..|tickets| - 1], key)
  }

  /** The ticket was made for the consumer that this submit names. */
  predicate SameConsumer(s: System, t: nat, m: SubmitMsg) {
    && t < |s.server.tickets| && s.server.tickets[t].submit < |s.submits.sent|
    && s.submits.sent[s.server.tickets[t].submit].draft.consumerId == m.draft.consumerId
  }

  /**
   * `createIntakeTicket`: the ticket a repeated key already has, if it is the same consumer's, and no
   * answer but an error otherwise; for a new key a new ticket, and no draft of the flow posted to.
   */
  function ServerSubmit(s: System, i: nat): System
    requires i < |s.submits.sent|
  {
    var m, sv := s.submits.sent[i], s.server;
    match TicketFor(sv.tickets, m.key)
    case Some(t) =>
      if SameConsumer(s, t, m) then s.(submits := s.submits.(replies := s.submits.replies + {(i, t)})) else s
    case None =>
      s.(server := sv.(tickets := sv.tickets + [Ticket(m.key, i, s.client.attempt.resets)],
                       drafts := sv.drafts - {(m.draft.consumerId, SubmitFlow(m.draft))}),
         submits := s.submits.(replies := s.submits.replies + {(i, |sv.tickets|)}))
  }

  /** `deleteActiveDraft`: the signed-in user's draft of the flow, whoever the discarded one was for. */
  function ServerDiscard(cfg: Config, s: System, i: nat): System
    requires i < |s.discards.sent|
  {
    s.(server := s.server.(drafts := s.server.drafts - {(cfg.actorId, s.discards.sent[i].flow)}))
  }

  // ---- Client events that a settled promise resumes ----

  function SettleSave(cfg: Config, s: System, i: nat, reply: Option<SaveReply>): System
    requires i < |s.saves.sent|
  {
    var m := s.saves.sent[i];
    var settled := s.saves.(settled := s.saves.settled + {i});
    if m.auto then
      s.(client := if reply.Some? then AutoReplied(s.client, m.draft.flow, reply.value) else s.client, saves := settled)
    else
      s.(client := if reply.Some? then ManualReplied(cfg, s.client, m.draft.flow, reply.value)
                   else s.client.(loading := false),
         saves := settled, activity := Idle)
  }

  function LoseSubmit(s: System): System {
    s.(client := SubmitFailed(s.client), activity := Idle, guardLog := s.guardLog.(failures := s.guardLog.failures + 1))
  }

  function TakeSubmitReply(s: System, t: nat): System
    requires s.activity.Posting?
  {
    s.(activity := Uploading(s.activity.submit, t, 0),
       submits := s.submits.(landed := s.submits.landed[t := s.activity.submit]))
  }

  /** One pass of the upload loop: a failed upload is counted, never retried. */
  function UploadNext(s: System, ok: bool): System
    requires s.activity.Uploading? && s.activity.submit < |s.submits.sent|
    requires s.activity.done < |s.submits.sent[s.activity.submit].items|
  {
    var a := s.activity;
    var it := s.submits.sent[a.submit].items[a.done];
    s.(uploads := s.uploads + [Upload(a.ticket, it.file, Trim(it.caption), ok)],
       activity := a.(done := a.done + 1))
  }

  function EndUploads(cfg: Config, s: System): System
    requires s.activity.Uploading? && s.activity.submit < |s.submits.sent|
  {
    s.(client := FinishSubmit(cfg, s.client, s.submits.sent[s.activity.submit].draft.flow), activity := Idle)
  }

  predicate SaveAwaited(s: System, i: nat) {
    i < |s.saves.sent| && i !in s.saves.settled && (s.saves.sent[i].auto || s.activity == Saving(i))
  }

  predicate Enabled(s: System, e: Event) {
    match e
    case Edits(_, _) => true
    case AddsFiles(_) => true
    case RemovesFile(_) => true
    case CaptionsFile(i, _) => i < |s.client.form.items|
    case Resumes(_, _, _) => true
    case Prefills(_, _) => true
    case RunsEffect => s.client.auto.due
    case TimerFires(t) => t in s.client.auto.timers
    case ClicksSave => !s.client.loading
    case ClicksSubmit => !s.client.loading
    case ClicksStartFresh => !s.client.loading || s.client.form.resumed
    case ServerSaves(i, _) => i < |s.saves.sent|
    case SaveReplyArrives(i, r) => (i, r) in s.saves.replies && SaveAwaited(s, i)
    case SaveIsLost(i) => SaveAwaited(s, i)
    case ServerTakesSubmit(i) => i < |s.submits.sent|
    case SubmitReplyArrives(t) => s.activity.Posting? && (s.activity.submit, t) in s.submits.replies
    case SubmitIsLost => s.activity.Posting?
    case UploadSettles(_) =>
      s.activity.Uploading? && s.activity.submit < |s.submits.sent| && s.activity.done < |s.submits.sent[s.activity.submit].items|
    case UploadsDone =>
      s.activity.Uploading? && s.activity.submit < |s.submits.sent| && s.activity.done == |s.submits.sent[s.activity.submit].items|
    case ServerDiscards(i) => i < |s.discards.sent|
    case DiscardSettles(i) => i < |s.discards.sent| && i !in s.discards.settled
  }

  /** One event; an event that cannot happen leaves the system as it is. */
  function Step(cfg: Config, s: System, e: Event): System {
    if !Enabled(s, e) then s
    else match e
      case Edits(d, p) => s.(client := Edit(s.client, d, p))
      case AddsFiles(incoming) => s.(client := s.client.(form := AddFiles(s.client.form, incoming)))
      case RemovesFile(i) => s.(client := s.client.(form := RemoveFileAt(s.client.form, i)))
      case CaptionsFile(i, caption) => s.(client := s.client.(form := SetFileCaption(s.client.form, i, caption)))
      case Resumes(d, p, id) => s.(client := Resume(cfg, s.client, d, p, id))
      case Prefills(d, p) => s.(client := Prefill(s.client, d, p))
      case RunsEffect =>
        s.(client := s.client.(auto := RunEffect(s.client.auto, s.client.form.draft, s.client.form.place)))
      case TimerFires(t) => FireTimer(s, t)
      case ClicksSave => ClickSave(s)
      case ClicksSubmit => ClickSubmit(cfg, s)
      case ClicksStartFresh => ClickStartFresh(cfg, s)
      case ServerSaves(i, suppress) => ServerSave(s, i, suppress)
      case SaveReplyArrives(i, r) => SettleSave(cfg, s, i, Some(r))
      case SaveIsLost(i) => SettleSave(cfg, s, i, None)
      case ServerTakesSubmit(i) => ServerSubmit(s, i)
      case SubmitReplyArrives(t) => TakeSubmitReply(s, t)
      case SubmitIsLost => LoseSubmit(s)
      case UploadSettles(ok) => UploadNext(s, ok)
      case UploadsDone => EndUploads(cfg, s)
      case ServerDiscards(i) => ServerDiscard(cfg, s, i)
      case DiscardSettles(i) =>
        s.(client := ResetForm(cfg, s.client), discards := s.discards.(settled := s.discards.settled + {i}))
  }

  /** The state after a list of events. */
  function Run(cfg: Config, es: seq<Event>): System {
    if es == [] then Start(cfg) else Step(cfg, Run(cfg, es[..|es| - 1]), es[|es| - 1])
  }
}
