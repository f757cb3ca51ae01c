/** What holds in every run of the wizard: one ticket per draft, a quiet guard, uploads once. */
module WizardSafety {
  import opened Base
  import opened Text
  import opened WizardClient
  import opened WizardSystem

  // ---- The invariant, part by part ----

  /** At most one browser timer is live, it is the one the ref names, and none is live under the guard. */
  ghost predicate TimersQuiet(a: Autosave) {
    && (forall t :: t in a.timers ==> a.timerRef == Some(t) && t < a.nextTimer && WorthSaving(a.timers[t]))
    && (a.timerRef.Some? ==> a.timerRef.value < a.nextTimer)
    && (!a.armed ==> a.timers == map[])
    && (a.guard ==> a.timers == map[])
  }

  /** Since the guard last went up no autosave has been sent; autosaves carry drafts worth saving. */
  ghost predicate SavesQuiet(w: SaveWire, guard: bool) {
    && w.raisedAt <= |w.sent|
    && (guard ==> forall i :: w.raisedAt <= i < |w.sent| ==> !w.sent[i].auto)
    && (forall i :: 0 <= i < |w.sent| && w.sent[i].auto ==> WorthSaving(w.sent[i].draft))
  }

  /** `loading` is a mutex, and a submit of the draft at hand keeps the guard up. */
  ghost predicate OneHandler(s: System) {
    && (s.client.loading <==> !s.activity.Idle?)
    && (s.activity.Saving? ==> s.activity.save < |s.saves.sent| && !s.saves.sent[s.activity.save].auto)
    && (s.activity.Posting? || s.activity.Uploading? ==>
          && s.activity.submit == |s.submits.sent| - 1
          && (s.submits.sent[s.activity.submit].resets == s.client.attempt.resets ==> s.client.auto.guard))
  }

  /** Submits of one draft share one key and no two drafts do. */
  ghost predicate KeysStable(cfg: Config, a: Attempt, sent: seq<SubmitMsg>) {
    && (forall i :: 0 <= i < |sent| ==> sent[i].resets <= a.resets)
    && (forall i, j :: 0 <= i <= j < |sent| ==> sent[i].resets <= sent[j].resets)
    && (!cfg.hasCrypto ==> a.requestKey.None? && forall i :: 0 <= i < |sent| ==> sent[i].key.None?)
    && (a.requestKey.Some? ==> a.requestKey.value < a.minted)
    && (cfg.hasCrypto ==>
          && (forall i :: 0 <= i < |sent| ==> sent[i].key.Some? && sent[i].key.value < a.minted)
          && (forall i :: 0 <= i < |sent| ==> (sent[i].resets == a.resets <==> a.requestKey == sent[i].key))
          && (forall i, j :: 0 <= i < |sent| && 0 <= j < |sent| ==>
                (sent[i].resets == sent[j].resets <==> sent[i].key == sent[j].key)))
  }

  /** A key names one ticket, and a reply names a ticket with its submit's key and consumer. */
  ghost predicate TicketsKeyed(tickets: seq<Ticket>, w: SubmitWire) {
    && (forall i, j :: 0 <= i < j < |tickets| && tickets[i].key.Some? ==> tickets[i].key != tickets[j].key)
    && (forall t :: 0 <= t < |tickets| ==>
          tickets[t].submit < |w.sent| && tickets[t].key == w.sent[tickets[t].submit].key)
    && (forall r :: r in w.replies ==>
          && r.0 < |w.sent| && r.1 < |tickets| && tickets[r.1].key == w.sent[r.0].key
          && (w.sent[r.0].key.None? ==> tickets[r.1].submit == r.0)
          && tickets[r.1].submit < |w.sent| && w.sent[tickets[r.1].submit].draft.consumerId == w.sent[r.0].draft.consumerId)
  }

  function UploadsOf(log: seq<Upload>, ticket: nat): seq<(File, string)> {
    if log == [] then []
    else
      var rest, last := UploadsOf(log[..|log| - 1], ticket), log[|log| - 1];
      if last.ticket == ticket then rest + [(last.file, last.caption)] else rest
  }

  /** What an upload of each attachment carries: the file and its trimmed caption, in order. */
  function Stamps(items: seq<Attachment>): (r: seq<(File, string)>)
    ensures |r| == |items|
  {
    if items == [] then []
    else
      var last := items[|items| - 1];
      Stamps(items[..|items| - 1]) + [(last.file, Trim(last.caption))]
  }

  predicate UploadingNow(a: Activity, t: nat) {
    a.Uploading? && a.ticket == t
  }

  /**
   * A ticket whose reply the client took has received the attachments of that submit, each
   * once and in order (so far, while its loop runs); no other ticket has received any.
   */
  ghost predicate UploadsOnce(a: Activity, w: SubmitWire, log: seq<Upload>) {
    && (a.Uploading? ==>
          && a.ticket in w.landed && w.landed[a.ticket] == a.submit
          && a.submit < |w.sent| && a.done <= |w.sent[a.submit].items|)
    && (forall t: nat :: t !in w.landed ==> UploadsOf(log, t) == [])
    && (forall t :: t in w.landed ==> w.landed[t] < |w.sent| && (w.landed[t], t) in w.replies)
    && (forall t :: t in w.landed ==>
          var items := w.sent[w.landed[t]].items;
          UploadsOf(log, t) == Stamps(if UploadingNow(a, t) then items[..a.done] else items))
  }

  /** A landed submit is the last of its draft: every later submit comes after a reset. */
  ghost predicate LandedLast(a: Activity, w: SubmitWire, resets: nat) {
    && (forall t :: t in w.landed ==> w.landed[t] < |w.sent|)
    && (forall t, k :: t in w.landed && w.landed[t] < k < |w.sent| ==> w.sent[w.landed[t]].resets < w.sent[k].resets)
    && (forall t :: t in w.landed && !UploadingNow(a, t) ==> w.sent[w.landed[t]].resets < resets)
    && (a.Posting? ==> forall t :: t in w.landed ==> w.landed[t] < a.submit)
  }

  ghost predicate Small(items: seq<Attachment>) {
    forall a :: a in items ==> a.file.size <= MAX_FILE_SIZE_BYTES
  }

  /** No file over the cap is ever held, submitted or uploaded. */
  ghost predicate WithinCap(items: seq<Attachment>, sent: seq<SubmitMsg>, log: seq<Upload>) {
    && Small(items)
    && (forall i :: 0 <= i < |sent| ==> Small(sent[i].items))
    && (forall u :: u in log ==> u.file.size <= MAX_FILE_SIZE_BYTES)
  }

  /** A raise is no later than the counts at hand. */
  predicate Past(m: Mark, resets: nat, failures: nat) {
    m.resets <= resets && m.failures <= failures
  }

  /** The guard is up exactly when neither a reset nor a failed submit followed its last raise. */
  ghost predicate GuardLogged(guard: bool, log: GuardLog, resets: nat) {
    && (guard <==> log.last.Some? && log.last.value.resets == resets && log.last.value.failures == log.failures)
    && (log.last.Some? ==> Past(log.last.value, resets, log.failures))
  }

  /** A discard's raise is the last one or an earlier one; a settled discard was followed by a reset. */
  ghost predicate DiscardsMarked(w: DiscardWire, log: GuardLog, resets: nat) {
    && (forall i :: 0 <= i < |w.sent| ==>
          && w.sent[i].flow == w.sent[i].draft.flow
          && log.last.Some? && w.sent[i].mark.number <= log.last.value.number
          && (w.sent[i].mark.number == log.last.value.number ==> w.sent[i].mark == log.last.value)
          && Past(w.sent[i].mark, log.last.value.resets, log.last.value.failures))
    && (forall i :: i in w.settled ==> i < |w.sent| && w.sent[i].mark.resets < resets)
  }

  /** A ticket is born no earlier than its draft was submitted, and no later than now. */
  ghost predicate BornAfterDraft(tickets: seq<Ticket>, sent: seq<SubmitMsg>, resets: nat) {
    && (forall i :: 0 <= i < |sent| ==> sent[i].resets <= resets)
    && (forall t :: 0 <= t < |tickets| ==>
          tickets[t].submit < |sent| && sent[tickets[t].submit].resets <= tickets[t].resetsAtBirth <= resets)
  }

  ghost predicate Inv(cfg: Config, s: System) {
    && GuardLogged(s.client.auto.guard, s.guardLog, s.client.attempt.resets)
    && DiscardsMarked(s.discards, s.guardLog, s.client.attempt.resets)
    && BornAfterDraft(s.server.tickets, s.submits.sent, s.client.attempt.resets)
    && TimersQuiet(s.client.auto)
    && SavesQuiet(s.saves, s.client.auto.guard)
    && OneHandler(s)
    && KeysStable(cfg, s.client.attempt, s.submits.sent)
    && TicketsKeyed(s.server.tickets, s.submits)
    && UploadsOnce(s.activity, s.submits, s.uploads)
    && LandedLast(s.activity, s.submits, s.client.attempt.resets)
    && WithinCap(s.client.form.items, s.submits.sent, s.uploads)
  }

  // ---- Every event keeps it ----

  lemma RaiseGuardQuiet(a: Autosave)
    requires TimersQuiet(a)
    ensures TimersQuiet(RaiseGuard(a)) && RaiseGuard(a).timers == map[]
  {
  }

  lemma RunEffectQuiet(a: Autosave, d: Draft, p: Place)
    requires TimersQuiet(a)
    ensures TimersQuiet(RunEffect(a, d, p))
  {
  }

  predicate ByHand(e: Event) {
    e.RunsEffect? || e.TimerFires? || e.ClicksSave? || e.ClicksSubmit? || e.ClicksStartFresh?
  }

  lemma TimersByHand(cfg: Config, s: System, e: Event)
    requires TimersQuiet(s.client.auto) && ByHand(e)
    ensures TimersQuiet(Step(cfg, s, e).client.auto)
  {
    if Enabled(s, e) {
      match e
      case RunsEffect => RunEffectQuiet(s.client.auto, s.client.form.draft, s.client.form.place);
      case ClicksSubmit => RaiseGuardQuiet(s.client.auto);
      case ClicksStartFresh => RaiseGuardQuiet(s.client.auto);
      case _ =>
    }
  }

  /** The browser's timers, the ref and the armed cleanup stay, and the guard does not go up. */
  predicate SameTimers(a: Autosave, a': Autosave) {
    && a'.timers == a.timers && a'.timerRef == a.timerRef && a'.nextTimer == a.nextTimer && a'.armed == a.armed
    && (a'.guard ==> a.guard)
  }

  predicate SaveSettles(e: Event) { e.SaveReplyArrives? || e.SaveIsLost? }

  /** Another settled promise resumes its handler. */
  predicate Settled(e: Event) { e.SubmitIsLost? || e.UploadsDone? || e.DiscardSettles? }

  lemma RepliesKeepTimers(cfg: Config, c: Client, flow: string, reply: SaveReply)
    ensures SameTimers(c.auto, AutoReplied(c, flow, reply).auto)
    ensures SameTimers(c.auto, ManualReplied(cfg, c, flow, reply).auto)
  {
  }

  lemma TimersBySave(cfg: Config, s: System, i: nat, reply: Option<SaveReply>)
    requires i < |s.saves.sent|
    ensures SameTimers(s.client.auto, SettleSave(cfg, s, i, reply).client.auto)
  {
    if reply.Some? { RepliesKeepTimers(cfg, s.client, s.saves.sent[i].draft.flow, reply.value); }
  }

  lemma TimersBySettled(cfg: Config, s: System, e: Event)
    requires Settled(e)
    ensures SameTimers(s.client.auto, Step(cfg, s, e).client.auto)
  {
  }

  lemma TimersByOthers(cfg: Config, s: System, e: Event)
    requires !ByHand(e) && !SaveSettles(e) && !Settled(e)
    ensures SameTimers(s.client.auto, Step(cfg, s, e).client.auto)
  {
  }

  lemma OthersKeepTimers(cfg: Config, s: System, e: Event)
    requires !ByHand(e)
    ensures SameTimers(s.client.auto, Step(cfg, s, e).client.auto)
  {
    if SaveSettles(e) && Enabled(s, e) {
      TimersBySave(cfg, s, e.save, if e.SaveReplyArrives? then Some(e.reply) else None);
    } else if Settled(e) {
      TimersBySettled(cfg, s, e);
    } else if !SaveSettles(e) {
      TimersByOthers(cfg, s, e);
    }
  }

  lemma TimersStep(cfg: Config, s: System, e: Event)
    requires TimersQuiet(s.client.auto)
    ensures TimersQuiet(Step(cfg, s, e).client.auto)
  {
    if ByHand(e) { TimersByHand(cfg, s, e); } else { OthersKeepTimers(cfg, s, e); }
  }

  lemma FireTimerSaves(s: System, t: nat)
    requires TimersQuiet(s.client.auto) && SavesQuiet(s.saves, s.client.auto.guard) && t in s.client.auto.timers
    ensures SavesQuiet(FireTimer(s, t).saves, s.client.auto.guard)
  {
  }

  predicate SavesEvent(e: Event) {
    e.TimerFires? || e.ClicksSave? || e.ClicksSubmit? || e.ClicksStartFresh?
  }

  /** No save goes out, and the guard does not go up. */
  lemma OthersSendNoSave(cfg: Config, s: System, e: Event)
    requires !SavesEvent(e)
    ensures var s' := Step(cfg, s, e);
            && s'.saves.sent == s.saves.sent && s'.saves.raisedAt == s.saves.raisedAt
            && (s'.client.auto.guard ==> s.client.auto.guard)
  {
  }

  lemma RaiseKeepsSaves(cfg: Config, s: System, e: Event)
    requires e.ClicksSubmit? || e.ClicksStartFresh?
    ensures Step(cfg, s, e) == s || Step(cfg, s, e).saves == Raised(s.saves)
  {
  }

  lemma SavesStep(cfg: Config, s: System, e: Event)
    requires TimersQuiet(s.client.auto) && SavesQuiet(s.saves, s.client.auto.guard)
    ensures var s' := Step(cfg, s, e); SavesQuiet(s'.saves, s'.client.auto.guard)
  {
    if !SavesEvent(e) { OthersSendNoSave(cfg, s, e); }
    else if e.ClicksSubmit? || e.ClicksStartFresh? { RaiseKeepsSaves(cfg, s, e); }
    else if e.TimerFires? && Enabled(s, e) { FireTimerSaves(s, e.timer); }
  }

  /** What the events that start, end or move an async handler are. */
  predicate HandlerEvent(e: Event) {
    e.ClicksSave? || e.ClicksSubmit? || AnswersHandler(e)
  }

  predicate AnswersHandler(e: Event) {
    e.SaveReplyArrives? || e.SaveIsLost? || e.SubmitReplyArrives? || e.SubmitIsLost? || e.UploadSettles? || e.UploadsDone?
  }

  /** The handler at work stays, and a guard that goes down does so by a reset. */
  lemma OthersLeaveTheHandler(cfg: Config, s: System, e: Event)
    requires !HandlerEvent(e)
    ensures var s' := Step(cfg, s, e);
            && s'.activity == s.activity && s'.client.loading == s.client.loading
            && s.saves.sent <= s'.saves.sent && s'.submits.sent == s.submits.sent
            && s.client.attempt.resets <= s'.client.attempt.resets
            && (s'.client.attempt.resets == s.client.attempt.resets && s.client.auto.guard ==> s'.client.auto.guard)
  {
  }

  lemma ClicksStartHandler(cfg: Config, s: System, e: Event)
    requires OneHandler(s) && (e.ClicksSave? || e.ClicksSubmit?)
    ensures OneHandler(Step(cfg, s, e))
  {
  }

  lemma AnswersMoveHandler(cfg: Config, s: System, e: Event)
    requires OneHandler(s) && AnswersHandler(e)
    ensures OneHandler(Step(cfg, s, e))
  {
  }

  lemma HandlerStep(cfg: Config, s: System, e: Event)
    requires OneHandler(s) && KeysStable(cfg, s.client.attempt, s.submits.sent)
    ensures OneHandler(Step(cfg, s, e))
  {
    if !HandlerEvent(e) { OthersLeaveTheHandler(cfg, s, e); }
    else if AnswersHandler(e) { AnswersMoveHandler(cfg, s, e); }
    else { ClicksStartHandler(cfg, s, e); }
  }

  function Reset(a: Attempt): Attempt {
    a.(requestKey := None, resets := a.resets + 1)
  }

  lemma StepMovesKeys(cfg: Config, s: System, e: Event)
    ensures var s' := Step(cfg, s, e);
            || s' == ClickSubmit(cfg, s)
            || (s'.submits.sent == s.submits.sent && s'.client.attempt in {s.client.attempt, Reset(s.client.attempt)})
  {
  }

  lemma SubmitKeepsKeys(cfg: Config, a: Attempt, sent: seq<SubmitMsg>, m: SubmitMsg)
    requires KeysStable(cfg, a, sent)
    requires m.key == EnsureKey(cfg, a).requestKey && m.resets == a.resets
    ensures KeysStable(cfg, EnsureKey(cfg, a), sent + [m])
  {
    assert forall i :: 0 <= i < |sent| ==> (sent + [m])[i] == sent[i];
  }

  lemma KeysStep(cfg: Config, s: System, e: Event)
    requires KeysStable(cfg, s.client.attempt, s.submits.sent)
    ensures var s' := Step(cfg, s, e); KeysStable(cfg, s'.client.attempt, s'.submits.sent)
  {
    StepMovesKeys(cfg, s, e);
    SubmitKeepsKeys(cfg, s.client.attempt, s.submits.sent, Posted(BeginSubmit(cfg, s.client)));
  }

  lemma OthersKeepTickets(cfg: Config, s: System, e: Event)
    requires !e.ServerTakesSubmit?
    ensures var s' := Step(cfg, s, e);
            && s'.server.tickets == s.server.tickets && s'.submits.replies == s.submits.replies
            && s.submits.sent <= s'.submits.sent
  {
  }

  lemma TakingKeepsTickets(s: System, i: nat)
    requires i < |s.submits.sent| && TicketsKeyed(s.server.tickets, s.submits)
    ensures var s' := ServerSubmit(s, i); TicketsKeyed(s'.server.tickets, s'.submits)
  {
  }

  lemma TicketsStep(cfg: Config, s: System, e: Event)
    requires TicketsKeyed(s.server.tickets, s.submits)
    ensures var s' := Step(cfg, s, e); TicketsKeyed(s'.server.tickets, s'.submits)
  {
    if !e.ServerTakesSubmit? { OthersKeepTickets(cfg, s, e); }
    else if Enabled(s, e) { TakingKeepsTickets(s, e.submit); }
  }

  predicate LoopEvent(e: Event) {
    e.ClicksSubmit? || e.SubmitReplyArrives? || e.UploadSettles? || e.UploadsDone?
  }

  /** Neither the taken replies nor the uploads move, and no upload loop starts or stops. */
  predicate LoopUntouched(s: System, s': System) {
    && s'.submits.landed == s.submits.landed && s'.submits.sent == s.submits.sent && s'.uploads == s.uploads
    && s.submits.replies <= s'.submits.replies && s.client.attempt.resets <= s'.client.attempt.resets
    && (s'.activity == s.activity || !(s.activity.Uploading? || s'.activity.Uploading? || s'.activity.Posting?))
  }

  lemma OtherEventsLeaveTheLoop(cfg: Config, s: System, e: Event)
    requires OneHandler(s) && !LoopEvent(e)
    ensures LoopUntouched(s, Step(cfg, s, e))
  {
  }

  ghost predicate LoopInv(s: System) {
    && UploadsOnce(s.activity, s.submits, s.uploads)
    && LandedLast(s.activity, s.submits, s.client.attempt.resets)
  }

  lemma UntouchedLoopKeeps(s: System, s': System)
    requires LoopUntouched(s, s') && LoopInv(s)
    ensures LoopInv(s')
  {
    assert forall t :: UploadingNow(s.activity, t) <==> UploadingNow(s'.activity, t);
  }

  lemma SubmitKeepsOnce(w: SubmitWire, log: seq<Upload>, m: SubmitMsg)
    requires UploadsOnce(Idle, w, log)
    ensures UploadsOnce(Posting(|w.sent|), w.(sent := w.sent + [m]), log)
  {
    assert forall t :: t in w.landed ==> (w.sent + [m])[w.landed[t]] == w.sent[w.landed[t]];
  }

  lemma SubmitKeepsLast(w: SubmitWire, resets: nat, m: SubmitMsg)
    requires LandedLast(Idle, w, resets) && m.resets == resets
    ensures LandedLast(Posting(|w.sent|), w.(sent := w.sent + [m]), resets)
  {
    assert forall i :: 0 <= i < |w.sent| ==> (w.sent + [m])[i] == w.sent[i];
  }

  lemma SubmitKeepsLoop(cfg: Config, s: System)
    requires LoopInv(s) && s.activity.Idle?
    ensures LoopInv(ClickSubmit(cfg, s))
  {
    var m := ClickSubmit(cfg, s).submits.sent[|s.submits.sent|];
    SubmitKeepsOnce(s.submits, s.uploads, m);
    SubmitKeepsLast(s.submits, s.client.attempt.resets, m);
  }

  /** A reply the client takes names a ticket it has not taken before. */
  lemma FreshLanding(cfg: Config, s: System, t: nat)
    requires Inv(cfg, s) && s.activity.Posting? && (s.activity.submit, t) in s.submits.replies
    ensures t !in s.submits.landed
  {
  }

  lemma LandingKeepsOnce(w: SubmitWire, log: seq<Upload>, i: nat, t: nat)
    requires UploadsOnce(Posting(i), w, log) && i < |w.sent| && (i, t) in w.replies && t !in w.landed
    ensures UploadsOnce(Uploading(i, t, 0), w.(landed := w.landed[t := i]), log)
  {
    assert w.sent[i].items[..0] == [];
    assert Stamps([]) == [];
  }

  lemma LandingKeepsLast(w: SubmitWire, resets: nat, i: nat, t: nat)
    requires LandedLast(Posting(i), w, resets) && i == |w.sent| - 1 && t !in w.landed
    ensures LandedLast(Uploading(i, t, 0), w.(landed := w.landed[t := i]), resets)
  {
  }

  lemma LandingKeepsLoop(s: System, t: nat)
    requires LoopInv(s) && OneHandler(s)
    requires s.activity.Posting? && (s.activity.submit, t) in s.submits.replies && t !in s.submits.landed
    ensures LoopInv(TakeSubmitReply(s, t))
  {
    LandingKeepsOnce(s.submits, s.uploads, s.activity.submit, t);
    LandingKeepsLast(s.submits, s.client.attempt.resets, s.activity.submit, t);
  }

  lemma UploadsOfStep(log: seq<Upload>, u: Upload, t: nat)
    ensures UploadsOf(log + [u], t) == UploadsOf(log, t) + if u.ticket == t then [(u.file, u.caption)] else []
  {
    assert (log + [u])[..|log|] == log;
  }

  lemma StampsStep(items: seq<Attachment>, d: nat)
    requires d < |items|
    ensures Stamps(items[..d + 1]) == Stamps(items[..d]) + [(items[d].file, Trim(items[d].caption))]
  {
    assert items[..d + 1][..d] == items[..d];
  }

  lemma UploadKeepsOnce(a: Activity, w: SubmitWire, log: seq<Upload>, ok: bool)
    requires UploadsOnce(a, w, log) && a.Uploading? && a.done < |w.sent[a.submit].items|
    ensures var it := w.sent[a.submit].items[a.done];
            UploadsOnce(a.(done := a.done + 1), w, log + [Upload(a.ticket, it.file, Trim(it.caption), ok)])
  {
    var items := w.sent[a.submit].items;
    var u := Upload(a.ticket, items[a.done].file, Trim(items[a.done].caption), ok);
    StampsStep(items, a.done);
    forall t: nat ensures UploadsOf(log + [u], t) == UploadsOf(log, t) + if t == a.ticket then [(u.file, u.caption)] else [] {
      UploadsOfStep(log, u, t);
    }
  }

  lemma UploadKeepsLoop(s: System, ok: bool)
    requires LoopInv(s)
    requires s.activity.Uploading? && s.activity.submit < |s.submits.sent|
    requires s.activity.done < |s.submits.sent[s.activity.submit].items|
    ensures LoopInv(UploadNext(s, ok))
  {
    UploadKeepsOnce(s.activity, s.submits, s.uploads, ok);
    assert forall t :: UploadingNow(s.activity, t) <==> UploadingNow(UploadNext(s, ok).activity, t);
  }

  lemma DoneKeepsLoop(cfg: Config, s: System)
    requires LoopInv(s) && KeysStable(cfg, s.client.attempt, s.submits.sent)
    requires s.activity.Uploading? && s.activity.submit < |s.submits.sent|
    requires s.activity.done == |s.submits.sent[s.activity.submit].items|
    ensures LoopInv(EndUploads(cfg, s))
  {
    var items := s.submits.sent[s.activity.submit].items;
    assert items[..|items|] == items;
  }

  lemma LoopStep(cfg: Config, s: System, e: Event)
    requires Inv(cfg, s)
    ensures LoopInv(Step(cfg, s, e))
  {
    if !LoopEvent(e) {
      OtherEventsLeaveTheLoop(cfg, s, e);
      UntouchedLoopKeeps(s, Step(cfg, s, e));
    } else if Enabled(s, e) {
      match e
      case ClicksSubmit => SubmitKeepsLoop(cfg, s);
      case SubmitReplyArrives(t) => FreshLanding(cfg, s, t); LandingKeepsLoop(s, t);
      case UploadSettles(ok) => UploadKeepsLoop(s, ok);
      case UploadsDone => DoneKeepsLoop(cfg, s);
    }
  }

  lemma GuardByHand(cfg: Config, s: System, e: Event)
    requires ByHand(e) && GuardLogged(s.client.auto.guard, s.guardLog, s.client.attempt.resets)
    ensures var s' := Step(cfg, s, e); GuardLogged(s'.client.auto.guard, s'.guardLog, s'.client.attempt.resets)
  {
  }

  lemma GuardBySave(cfg: Config, s: System, e: Event)
    requires SaveSettles(e) && GuardLogged(s.client.auto.guard, s.guardLog, s.client.attempt.resets)
    ensures var s' := Step(cfg, s, e); GuardLogged(s'.client.auto.guard, s'.guardLog, s'.client.attempt.resets)
  {
  }

  lemma GuardBySettled(cfg: Config, s: System, e: Event)
    requires Settled(e) && GuardLogged(s.client.auto.guard, s.guardLog, s.client.attempt.resets)
    ensures var s' := Step(cfg, s, e); GuardLogged(s'.client.auto.guard, s'.guardLog, s'.client.attempt.resets)
  {
  }

  lemma GuardByOthers(cfg: Config, s: System, e: Event)
    requires !ByHand(e) && !SaveSettles(e) && !Settled(e)
    ensures var s' := Step(cfg, s, e);
            && s'.client.auto.guard == s.client.auto.guard && s'.guardLog == s.guardLog
            && s'.client.attempt.resets == s.client.attempt.resets
  {
  }

  lemma GuardStep(cfg: Config, s: System, e: Event)
    requires GuardLogged(s.client.auto.guard, s.guardLog, s.client.attempt.resets)
    ensures var s' := Step(cfg, s, e); GuardLogged(s'.client.auto.guard, s'.guardLog, s'.client.attempt.resets)
  {
    if ByHand(e) { GuardByHand(cfg, s, e); }
    else if SaveSettles(e) { GuardBySave(cfg, s, e); }
    else if Settled(e) { GuardBySettled(cfg, s, e); }
    else { GuardByOthers(cfg, s, e); }
  }

  predicate DiscardEvent(e: Event) { e.ClicksStartFresh? || e.ClicksSubmit? || e.DiscardSettles? }

  /** Only a raise or a settled discard moves the discard log; resets and failures only grow. */
  lemma OthersKeepDiscards(cfg: Config, s: System, e: Event)
    requires !DiscardEvent(e)
    ensures var s' := Step(cfg, s, e);
            s'.discards == s.discards && s'.guardLog.last == s.guardLog.last && s.client.attempt.resets <= s'.client.attempt.resets
  {
  }

  lemma RaiseKeepsDiscards(cfg: Config, s: System, e: Event)
    requires e.ClicksSubmit? || e.ClicksStartFresh?
    requires GuardLogged(s.client.auto.guard, s.guardLog, s.client.attempt.resets)
    requires DiscardsMarked(s.discards, s.guardLog, s.client.attempt.resets)
    ensures var s' := Step(cfg, s, e); DiscardsMarked(s'.discards, s'.guardLog, s'.client.attempt.resets)
  {
  }

  lemma SettledDiscardKeepsDiscards(cfg: Config, s: System, e: Event)
    requires e.DiscardSettles?
    requires GuardLogged(s.client.auto.guard, s.guardLog, s.client.attempt.resets)
    requires DiscardsMarked(s.discards, s.guardLog, s.client.attempt.resets)
    ensures var s' := Step(cfg, s, e); DiscardsMarked(s'.discards, s'.guardLog, s'.client.attempt.resets)
  {
  }

  lemma DiscardsStep(cfg: Config, s: System, e: Event)
    requires GuardLogged(s.client.auto.guard, s.guardLog, s.client.attempt.resets)
    requires DiscardsMarked(s.discards, s.guardLog, s.client.attempt.resets)
    ensures var s' := Step(cfg, s, e); DiscardsMarked(s'.discards, s'.guardLog, s'.client.attempt.resets)
  {
    if e.DiscardSettles? { SettledDiscardKeepsDiscards(cfg, s, e); }
    else if DiscardEvent(e) { RaiseKeepsDiscards(cfg, s, e); }
    else { OthersKeepDiscards(cfg, s, e); }
  }

  lemma BirthsStep(cfg: Config, s: System, e: Event)
    requires BornAfterDraft(s.server.tickets, s.submits.sent, s.client.attempt.resets)
    ensures var s' := Step(cfg, s, e); BornAfterDraft(s'.server.tickets, s'.submits.sent, s'.client.attempt.resets)
  {
    StepMovesKeys(cfg, s, e);
  }

  lemma AddFilesWithinCap(f: Form, incoming: seq<File>)
    requires Small(f.items)
    ensures Small(AddFiles(f, incoming).items)
  {
    if incoming != [] && Oversized(incoming).None? {
      forall a | a in AddFiles(f, incoming).items && a !in f.items ensures a.file in incoming {}
    }
  }

  lemma UploadWithinCap(s: System, ok: bool)
    requires WithinCap(s.client.form.items, s.submits.sent, s.uploads)
    requires s.activity.Uploading? && s.activity.submit < |s.submits.sent|
    requires s.activity.done < |s.submits.sent[s.activity.submit].items|
    ensures var s' := UploadNext(s, ok); WithinCap(s'.client.form.items, s'.submits.sent, s'.uploads)
  {
    var items := s.submits.sent[s.activity.submit].items;
    assert items[s.activity.done] in items;
  }

  lemma OthersAddNoFile(cfg: Config, s: System, e: Event)
    requires !e.AddsFiles? && Small(s.client.form.items)
    ensures Small(Step(cfg, s, e).client.form.items)
  {
  }

  lemma OthersUploadNothing(cfg: Config, s: System, e: Event)
    requires !e.UploadSettles?
    ensures Step(cfg, s, e).uploads == s.uploads
  {
  }

  lemma SubmitsTakeHeldFiles(cfg: Config, s: System, e: Event)
    requires Small(s.client.form.items) && forall i :: 0 <= i < |s.submits.sent| ==> Small(s.submits.sent[i].items)
    ensures var sent := Step(cfg, s, e).submits.sent; forall i :: 0 <= i < |sent| ==> Small(sent[i].items)
  {
    StepMovesKeys(cfg, s, e);
  }

  lemma CapStep(cfg: Config, s: System, e: Event)
    requires WithinCap(s.client.form.items, s.submits.sent, s.uploads)
    ensures var s' := Step(cfg, s, e); WithinCap(s'.client.form.items, s'.submits.sent, s'.uploads)
  {
    SubmitsTakeHeldFiles(cfg, s, e);
    if e.AddsFiles? { AddFilesWithinCap(s.client.form, e.incoming); } else { OthersAddNoFile(cfg, s, e); }
    if !e.UploadSettles? { OthersUploadNothing(cfg, s, e); }
    else if Enabled(s, e) { UploadWithinCap(s, e.ok); }
  }

  lemma {:induction false} RunInv(cfg: Config, es: seq<Event>)
    ensures Inv(cfg, Run(cfg, es))
  {
    if es != [] {
      var s, e := Run(cfg, es[..|es| - 1]), es[|es| - 1];
      RunInv(cfg, es[..|es| - 1]);
      TimersStep(cfg, s, e);
      SavesStep(cfg, s, e);
      HandlerStep(cfg, s, e);
      KeysStep(cfg, s, e);
      TicketsStep(cfg, s, e);
      LoopStep(cfg, s, e);
      CapStep(cfg, s, e);
      GuardStep(cfg, s, e);
      DiscardsStep(cfg, s, e);
      BirthsStep(cfg, s, e);
    }
  }
}
