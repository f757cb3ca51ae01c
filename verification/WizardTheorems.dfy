/** The promises the wizard's comments make, over every run, and concrete runs where they stop. */
module WizardTheorems {
  import opened Base
  import opened WizardClient
  import opened WizardSystem
  import opened WizardSafety
  import opened WizardOrigins

  /** The draft (counted by resets) that ticket `t` was submitted from. */
  function DraftOf(s: System, t: nat): nat
    requires t < |s.server.tickets| && s.server.tickets[t].submit < |s.submits.sent|
  {
    s.submits.sent[s.server.tickets[t].submit].resets
  }

  /**
   * With `crypto.randomUUID`, every submit and retry of one draft carries one key, no two
   * drafts share a key, and no two tickets ever come from one draft.
   */
  lemma OneTicketPerDraft(cfg: Config, es: seq<Event>)
    requires cfg.hasCrypto
    ensures var s := Run(cfg, es);
            && (forall i, j :: 0 <= i < |s.submits.sent| && 0 <= j < |s.submits.sent| ==>
                  && s.submits.sent[i].key.Some?
                  && (s.submits.sent[i].resets == s.submits.sent[j].resets <==> s.submits.sent[i].key == s.submits.sent[j].key))
            && (forall t :: 0 <= t < |s.server.tickets| ==> s.server.tickets[t].submit < |s.submits.sent|)
            && (forall t, u :: 0 <= t < |s.server.tickets| && 0 <= u < |s.server.tickets| ==>
                  (DraftOf(s, t) == DraftOf(s, u) <==> t == u))
  {
    RunInv(cfg, es);
  }

  /** The ticket's submit was first handled after a reset had already ended its draft. */
  predicate BornLate(s: System, t: nat)
    requires t < |s.server.tickets| && s.server.tickets[t].submit < |s.submits.sent|
  {
    DraftOf(s, t) < s.server.tickets[t].resetsAtBirth
  }

  /**
   * Between two resets at most one ticket is created, save for submits of earlier drafts that
   * the server first handles there: every ticket is born on time or late, and of two tickets
   * born between the same two resets one at least is late, from a draft of its own.
   */
  lemma TicketsBetweenResets(cfg: Config, es: seq<Event>, t: nat, u: nat)
    requires cfg.hasCrypto
    requires var n := |Run(cfg, es).server.tickets|; t < n && u < n
    ensures var s := Run(cfg, es);
            && s.server.tickets[t].submit < |s.submits.sent| && s.server.tickets[u].submit < |s.submits.sent|
            && DraftOf(s, t) <= s.server.tickets[t].resetsAtBirth <= s.client.attempt.resets
            && (s.server.tickets[t].resetsAtBirth == s.server.tickets[u].resetsAtBirth && t != u ==>
                  DraftOf(s, t) != DraftOf(s, u) && (BornLate(s, t) || BornLate(s, u)))
  {
    RunInv(cfg, es);
    OneTicketPerDraft(cfg, es);
  }

  /** The files held on the form when event `k` was clicked. */
  function HeldAt(cfg: Config, es: seq<Event>, k: nat): seq<Attachment>
    requires k <= |es|
  {
    Run(cfg, es[..k]).client.form.items
  }

  /**
   * Unless its upload loop is running, a ticket has received no upload at all or exactly the
   * attachments held on the form at the click whose reply was taken: each once, in order, with its own
   * caption, however many uploads failed. A running loop has sent a prefix of them.
   */
  lemma UploadedExactlyOnce(cfg: Config, es: seq<Event>, t: nat) returns (k: nat)
    ensures var s := Run(cfg, es);
            if t !in s.submits.landed then UploadsOf(s.uploads, t) == []
            else
              var i := s.submits.landed[t];
              && ClickedAt(cfg, es, k, i) && t < |s.server.tickets| && s.server.tickets[t].key == s.submits.sent[i].key
              && var items := HeldAt(cfg, es, k);
                 if UploadingNow(s.activity, t) then s.activity.done <= |items| && UploadsOf(s.uploads, t) == Stamps(items[..s.activity.done])
                 else UploadsOf(s.uploads, t) == Stamps(items)
  {
    RunInv(cfg, es);
    var w := Run(cfg, es).submits;
    k := 0;
    if t in w.landed {
      assert (w.landed[t], t) in w.replies;
      k := SubmitCarriesTheForm(cfg, es, w.landed[t]);
    }
  }

  /** Nothing over the size cap is ever held or uploaded. */
  lemma NothingOverTheCap(cfg: Config, es: seq<Event>)
    ensures var s := Run(cfg, es);
            Small(s.client.form.items) && forall u :: u in s.uploads ==> u.file.size <= MAX_FILE_SIZE_BYTES
  {
    RunInv(cfg, es);
  }

  /**
   * While the submit/discard guard is up: no timer is armed, every autosave the server may
   * still handle was sent before the guard went up, the next event sends none, and an
   * autosave reply changes neither the draft nor the pointer.
   */
  lemma GuardIsQuiet(cfg: Config, es: seq<Event>, e: Event)
    ensures var s := Run(cfg, es);
            var s' := Step(cfg, s, e);
            s.client.auto.guard ==>
              && s.client.auto.timers == map[]
              && (forall i :: 0 <= i < |s.saves.sent| && s.saves.sent[i].auto ==> i < s.saves.raisedAt)
              && (s'.saves.sent == s.saves.sent || s'.saves.sent == s.saves.sent + [SaveMsg(s.client.form.draft, false)])
              && (e.SaveReplyArrives? && e.save < |s.saves.sent| && s.saves.sent[e.save].auto ==>
                    s'.client.form.draft == s.client.form.draft && s'.client.pointer == s.client.pointer)
  {
    RunInv(cfg, es);
  }

  /** Neither a reset nor a failed submit has followed this raise of the guard. */
  predicate QuietSince(s: System, m: Mark) {
    m.resets == s.client.attempt.resets && m.failures == s.guardLog.failures
  }

  /** In every run the guard is up exactly when neither a reset nor a failed submit has followed its last raise. */
  lemma GuardUpExactly(cfg: Config, es: seq<Event>)
    ensures var s := Run(cfg, es);
            s.client.auto.guard <==> s.guardLog.last.Some? && QuietSince(s, s.guardLog.last.value)
  {
    RunInv(cfg, es);
  }

  /** A submit in flight holds `loading`, and holds the guard up with no timer armed until the form is reset. */
  lemma SubmitHoldsGuard(cfg: Config, es: seq<Event>)
    ensures var s := Run(cfg, es);
            (s.activity.Posting? || s.activity.Uploading?) ==>
              && s.client.loading && s.activity.submit < |s.submits.sent|
              && (|| s.submits.sent[s.activity.submit].resets < s.client.attempt.resets
                  || (s.client.auto.guard && s.client.auto.timers == map[]))
  {
    RunInv(cfg, es);
  }

  /**
   * A discard holds the guard up with no timer armed, and its DELETE is still out, as long as neither
   * a reset nor a failed submit has followed its click; when the guard was not raised again since,
   * it is up exactly that long.
   */
  lemma DiscardHoldsGuard(cfg: Config, es: seq<Event>, i: nat)
    requires i < |Run(cfg, es).discards.sent|
    ensures var s := Run(cfg, es);
            var m := s.discards.sent[i].mark;
            && s.guardLog.last.Some?
            && (QuietSince(s, m) ==> s.client.auto.guard && s.client.auto.timers == map[] && i !in s.discards.settled)
            && (m.number == s.guardLog.last.value.number ==> (s.client.auto.guard <==> QuietSince(s, m)))
  {
    RunInv(cfg, es);
  }

  /**
   * A submit's success resets the form. That form is the submit's own exactly when the key ref
   * still holds the submit's key; otherwise a reset came between and another draft is wiped.
   */
  lemma SuccessResetsOwnFormExactly(cfg: Config, es: seq<Event>)
    requires cfg.hasCrypto && Enabled(Run(cfg, es), UploadsDone)
    ensures var s, s' := Run(cfg, es), Step(cfg, Run(cfg, es), UploadsDone);
            var m := s.submits.sent[s.activity.submit];
            && s'.client.form == BlankForm(cfg) && s'.client.attempt.resets == s.client.attempt.resets + 1
            && m.resets <= s.client.attempt.resets
            && (m.resets == s.client.attempt.resets <==> s.client.attempt.requestKey == m.key)
  {
    RunInv(cfg, es);
  }

  /** Every autosave in every run carries a draft that passed the completeness gate, and one timer at most is live. */
  lemma AutosavesAreComplete(cfg: Config, es: seq<Event>)
    ensures var s := Run(cfg, es);
            && (forall i :: 0 <= i < |s.saves.sent| && s.saves.sent[i].auto ==> WorthSaving(s.saves.sent[i].draft))
            && (forall t, u :: t in s.client.auto.timers && u in s.client.auto.timers ==> t == u)
  {
    RunInv(cfg, es);
  }

  /** The client holds this draft id, in the form and in the flow's pointer. */
  predicate Bound(c: Client, flow: string, id: nat) {
    c.form.draft.draftId == Some(id) && flow in c.pointer && c.pointer[flow] == id
  }

  /**
   * In every run: the answer to an autosave binds the form and the pointer exactly when the server
   * did not suppress it and the autosave was not overtaken by a raise of the guard that neither a
   * reset nor a failed submit has followed; otherwise it changes nothing.
   */
  lemma AutosaveReplyTakesEffect(cfg: Config, es: seq<Event>, i: nat, r: SaveReply)
    requires Enabled(Run(cfg, es), SaveReplyArrives(i, r)) && Run(cfg, es).saves.sent[i].auto
    ensures var s := Run(cfg, es);
            var c := Step(cfg, s, SaveReplyArrives(i, r)).client;
            var overtaken := i < s.saves.raisedAt && s.guardLog.last.Some? && QuietSince(s, s.guardLog.last.value);
            if r.Saved? && !overtaken then Bound(c, s.saves.sent[i].draft.flow, r.id) else c == s.client
  {
    RunInv(cfg, es);
  }

  // ---- The server's drafts ----

  /** What the last server event on a (consumer, flow) pair did to its draft row. */
  datatype Touch = Untouched | Wrote(save: nat) | Removed

  /** What one event does to the pair's row: an unsuppressed save, a submit first handled, or a discard. */
  function TouchOf(cfg: Config, s: System, e: Event, consumerId: string, flow: string): Touch {
    if !Enabled(s, e) then Untouched
    else match e
      case ServerSaves(i, suppress) =>
        var d := s.saves.sent[i].draft;
        if !suppress && d.consumerId == consumerId && d.flow == flow then Wrote(i) else Untouched
      case ServerTakesSubmit(i) =>
        var m := s.submits.sent[i];
        if TicketFor(s.server.tickets, m.key).None? && m.draft.consumerId == consumerId && SubmitFlow(m.draft) == flow
        then Removed else Untouched
      case ServerDiscards(i) =>
        if cfg.actorId == consumerId && s.discards.sent[i].flow == flow then Removed else Untouched
      case _ => Untouched
  }

  function LastTouch(cfg: Config, es: seq<Event>, consumerId: string, flow: string): Touch {
    if es == [] then Untouched
    else
      var front := es[..|es| - 1];
      var touch := TouchOf(cfg, Run(cfg, front), es[|es| - 1], consumerId, flow);
      if touch.Untouched? then LastTouch(cfg, front, consumerId, flow) else touch
  }

  lemma SavesOnlyGrow(cfg: Config, s: System, e: Event)
    ensures s.saves.sent <= Step(cfg, s, e).saves.sent
  {
  }

  lemma TouchesDrafts(cfg: Config, s: System, e: Event, consumerId: string, flow: string)
    ensures var at, s', touch := (consumerId, flow), Step(cfg, s, e), TouchOf(cfg, s, e, consumerId, flow);
            && (touch.Untouched? ==>
                  && (at in s'.server.drafts <==> at in s.server.drafts)
                  && (at in s.server.drafts ==> s'.server.drafts[at] == s.server.drafts[at]))
            && (touch.Removed? ==> at !in s'.server.drafts)
            && (touch.Wrote? ==> touch.save < |s'.saves.sent| && at in s'.server.drafts
                                 && s'.server.drafts[at].draft == s'.saves.sent[touch.save].draft)
  {
  }

  /**
   * In every run, for every consumer and flow, a draft row is there exactly when the last server
   * event on the pair is an unsuppressed save, and it then holds that save's draft.
   */
  lemma {:induction false} DraftPresentExactly(cfg: Config, es: seq<Event>, consumerId: string, flow: string)
    ensures var s, touch := Run(cfg, es), LastTouch(cfg, es, consumerId, flow);
            && ((consumerId, flow) in s.server.drafts <==> touch.Wrote?)
            && (touch.Wrote? ==> touch.save < |s.saves.sent|
                                 && s.server.drafts[(consumerId, flow)].draft == s.saves.sent[touch.save].draft)
  {
    if es != [] {
      var front, e := es[..|es| - 1], es[|es| - 1];
      DraftPresentExactly(cfg, front, consumerId, flow);
      TouchesDrafts(cfg, Run(cfg, front), e, consumerId, flow);
      SavesOnlyGrow(cfg, Run(cfg, front), e);
    }
  }

  lemma WritesAreSaves(cfg: Config, s: System, e: Event, consumerId: string, flow: string)
    ensures var touch := TouchOf(cfg, s, e, consumerId, flow);
            touch.Wrote? ==> e == ServerSaves(touch.save, false) && touch.save < |s.saves.sent|
  {
  }

  lemma OldAutosavesOnly(cfg: Config, es: seq<Event>)
    ensures var s := Run(cfg, es);
            s.client.auto.guard ==> forall i :: 0 <= i < |s.saves.sent| && s.saves.sent[i].auto ==> i < s.saves.raisedAt
  {
    RunInv(cfg, es);
  }

  /**
   * A missing draft row comes back exactly when the server handles, unsuppressed, a save of that
   * pair; while the guard is up such a save is a manual one or an autosave sent before the raise.
   */
  lemma DraftComesBackExactly(cfg: Config, es: seq<Event>, e: Event, consumerId: string, flow: string)
    requires (consumerId, flow) !in Run(cfg, es).server.drafts
    ensures var s := Run(cfg, es);
            var touch := TouchOf(cfg, s, e, consumerId, flow);
            && ((consumerId, flow) in Step(cfg, s, e).server.drafts <==> touch.Wrote?)
            && (touch.Wrote? ==> e == ServerSaves(touch.save, false) && touch.save < |s.saves.sent|)
            && (touch.Wrote? && s.client.auto.guard && s.saves.sent[touch.save].auto ==> touch.save < s.saves.raisedAt)
  {
    TouchesDrafts(cfg, Run(cfg, es), e, consumerId, flow);
    WritesAreSaves(cfg, Run(cfg, es), e, consumerId, flow);
    OldAutosavesOnly(cfg, es);
  }

  /** From event `k` on the server leaves the pair alone. */
  ghost predicate Undisturbed(cfg: Config, es: seq<Event>, k: nat, consumerId: string, flow: string) {
    forall j :: k <= j < |es| ==> TouchOf(cfg, Run(cfg, es[..j]), es[j], consumerId, flow).Untouched?
  }

  lemma {:induction false} UndisturbedStays(cfg: Config, es: seq<Event>, k: nat, consumerId: string, flow: string)
    requires k <= |es| && Undisturbed(cfg, es, k, consumerId, flow)
    ensures (consumerId, flow) in Run(cfg, es).server.drafts <==> (consumerId, flow) in Run(cfg, es[..k]).server.drafts
  {
    if k == |es| {
      assert es[..k] == es;
    } else {
      var front, e := es[..|es| - 1], es[|es| - 1];
      assert front[..k] == es[..k];
      forall j | k <= j < |front| ensures TouchOf(cfg, Run(cfg, front[..j]), front[j], consumerId, flow).Untouched? {
        assert front[..j] == es[..j];
      }
      UndisturbedStays(cfg, front, k, consumerId, flow);
      TouchesDrafts(cfg, Run(cfg, front), e, consumerId, flow);
    }
  }

  /** One event, and then nothing that touches the pair. */
  lemma LastTouchStays(cfg: Config, es: seq<Event>, k: nat, consumerId: string, flow: string)
    requires k < |es| && Undisturbed(cfg, es, k + 1, consumerId, flow)
    ensures (consumerId, flow) in Run(cfg, es).server.drafts
            <==> (consumerId, flow) in Step(cfg, Run(cfg, es[..k]), es[k]).server.drafts
  {
    assert es[..k + 1][..k] == es[..k];
    UndisturbedStays(cfg, es, k + 1, consumerId, flow);
  }

  /** A FIR search by CNIC: the draft is posted to another flow's endpoint. */
  predicate Rerouted(d: Draft) {
    d.flow == "non_judicial_copy_of_fir" && "fir_mode" in d.payload && d.payload["fir_mode"] == "search_by_cnic"
  }

  /**
   * In every run, once a submit has made its ticket and until the server touches the pair again, the row
   * of the draft it came from is gone, exactly unless the row was there and the draft was rerouted.
   */
  lemma TicketClearsItsDraftExactly(cfg: Config, es: seq<Event>, k: nat, i: nat)
    requires k < |es| && es[k] == ServerTakesSubmit(i)
    requires var s := Run(cfg, es[..k]);
             && i < |s.submits.sent| && TicketFor(s.server.tickets, s.submits.sent[i].key).None?
             && Undisturbed(cfg, es, k + 1, s.submits.sent[i].draft.consumerId, s.submits.sent[i].draft.flow)
    ensures var s := Run(cfg, es[..k]);
            var d := s.submits.sent[i].draft;
            (d.consumerId, d.flow) in Run(cfg, es).server.drafts <==> (d.consumerId, d.flow) in s.server.drafts && Rerouted(d)
  {
    var d := Run(cfg, es[..k]).submits.sent[i].draft;
    LastTouchStays(cfg, es, k, d.consumerId, d.flow);
  }

  /** In the same run the row of the flow posted to, which a rerouted draft never came from, is gone. */
  lemma TicketClearsTheFlowPostedTo(cfg: Config, es: seq<Event>, k: nat, i: nat)
    requires k < |es| && es[k] == ServerTakesSubmit(i)
    requires var s := Run(cfg, es[..k]);
             i < |s.submits.sent| && TicketFor(s.server.tickets, s.submits.sent[i].key).None?
    ensures var d := Run(cfg, es[..k]).submits.sent[i].draft;
            var flow := if Rerouted(d) then "non_judicial_criminal_record_search" else d.flow;
            Undisturbed(cfg, es, k + 1, d.consumerId, flow) ==> (d.consumerId, flow) !in Run(cfg, es).server.drafts
  {
    var d := Run(cfg, es[..k]).submits.sent[i].draft;
    var flow := if Rerouted(d) then "non_judicial_criminal_record_search" else d.flow;
    if Undisturbed(cfg, es, k + 1, d.consumerId, flow) { LastTouchStays(cfg, es, k, d.consumerId, flow); }
  }

  /** Every row has an id of its own, handed out before. */
  predicate IdsAreUnique(sv: Server) {
    && (forall at :: at in sv.drafts ==> sv.drafts[at].id < sv.nextDraft)
    && (forall at, bt :: at in sv.drafts && bt in sv.drafts && sv.drafts[at].id == sv.drafts[bt].id ==> at == bt)
  }

  /** Each row that is in both servers has one id in both. */
  predicate IdsStay(sv: Server, sv': Server) {
    forall at :: at in sv.drafts && at in sv'.drafts ==> sv'.drafts[at].id == sv.drafts[at].id
  }

  lemma IdsBySave(s: System, i: nat, suppress: bool)
    requires IdsAreUnique(s.server) && i < |s.saves.sent|
    ensures IdsAreUnique(ServerSave(s, i, suppress).server) && IdsStay(s.server, ServerSave(s, i, suppress).server)
  {
  }

  lemma OthersAddNoRow(cfg: Config, s: System, e: Event)
    requires !e.ServerSaves?
    ensures var sv, sv' := s.server, Step(cfg, s, e).server;
            sv'.nextDraft == sv.nextDraft && forall at :: at in sv'.drafts ==> at in sv.drafts && sv'.drafts[at] == sv.drafts[at]
  {
  }

  lemma IdsStep(cfg: Config, s: System, e: Event)
    requires IdsAreUnique(s.server)
    ensures IdsAreUnique(Step(cfg, s, e).server) && IdsStay(s.server, Step(cfg, s, e).server)
  {
    if !e.ServerSaves? { OthersAddNoRow(cfg, s, e); }
    else if Enabled(s, e) { IdsBySave(s, e.save, e.suppress); }
  }

  /**
   * In every run no two rows share an id, a row keeps its id while it is there, and the client is answered the
   * id of the row its save was written to.
   */
  lemma {:induction false} RowsKeepTheirIds(cfg: Config, es: seq<Event>, e: Event)
    ensures var s, s' := Run(cfg, es), Step(cfg, Run(cfg, es), e);
            && IdsAreUnique(s.server) && IdsStay(s.server, s'.server)
            && (e.ServerSaves? && Enabled(s, e) ==>
                  var d := s.saves.sent[e.save].draft;
                  if e.suppress then s'.server == s.server && s'.saves.replies == s.saves.replies + {(e.save, Suppressed)}
                  else (d.consumerId, d.flow) in s'.server.drafts
                       && s'.saves.replies == s.saves.replies + {(e.save, Saved(s'.server.drafts[(d.consumerId, d.flow)].id))})
  {
    if es != [] {
      RowsKeepTheirIds(cfg, es[..|es| - 1], es[|es| - 1]);
      IdsStep(cfg, Run(cfg, es[..|es| - 1]), es[|es| - 1]);
    }
    IdsStep(cfg, Run(cfg, es), e);
  }

  /**
   * In every run, once the server has handled a discard and until it touches the pair again, the row of
   * the discarded draft is gone, exactly unless the row was there and the draft was another user's.
   */
  lemma DiscardClearsItsDraftExactly(cfg: Config, es: seq<Event>, k: nat, i: nat)
    requires k < |es| && es[k] == ServerDiscards(i)
    requires var s := Run(cfg, es[..k]);
             && i < |s.discards.sent|
             && Undisturbed(cfg, es, k + 1, s.discards.sent[i].draft.consumerId, s.discards.sent[i].draft.flow)
    ensures var s := Run(cfg, es[..k]);
            var d := s.discards.sent[i].draft;
            (d.consumerId, d.flow) in Run(cfg, es).server.drafts
            <==> (d.consumerId, d.flow) in s.server.drafts && d.consumerId != cfg.actorId
  {
    RunInv(cfg, es[..k]);
    var d := Run(cfg, es[..k]).discards.sent[i].draft;
    LastTouchStays(cfg, es, k, d.consumerId, d.flow);
  }

  // ---- What a repeated key returns ----

  /** The first submit with this key that the server handled. */
  function FirstHandled(cfg: Config, es: seq<Event>, key: Option<nat>): Option<nat> {
    if es == [] then None
    else
      var front, e := es[..|es| - 1], es[|es| - 1];
      var before, s := FirstHandled(cfg, front, key), Run(cfg, front);
      if before.Some? then before
      else if e.ServerTakesSubmit? && Enabled(s, e) && s.submits.sent[e.submit].key == key then Some(e.submit)
      else None
  }

  predicate HasTicket(tickets: seq<Ticket>, key: Option<nat>) {
    exists t :: 0 <= t < |tickets| && tickets[t].key == key
  }

  /** The tickets of the key were all made by this submit. */
  predicate MadeBy(tickets: seq<Ticket>, key: Option<nat>, submit: Option<nat>) {
    && (HasTicket(tickets, key) <==> submit.Some?)
    && forall t :: 0 <= t < |tickets| && tickets[t].key == key ==> submit == Some(tickets[t].submit)
  }

  lemma TakingKeepsMakers(s: System, i: nat, key: Option<nat>, submit: Option<nat>)
    requires key.Some? && i < |s.submits.sent| && MadeBy(s.server.tickets, key, submit)
    ensures MadeBy(ServerSubmit(s, i).server.tickets, key,
                   if submit.None? && s.submits.sent[i].key == key then Some(i) else submit)
  {
    var before, after := s.server.tickets, ServerSubmit(s, i).server.tickets;
    assert forall t :: 0 <= t < |before| ==> after[t] == before[t];
    if |after| > |before| { assert after[|before|] == Ticket(s.submits.sent[i].key, i, s.client.attempt.resets); }
  }

  lemma OthersMakeNoTicket(cfg: Config, s: System, e: Event)
    requires !e.ServerTakesSubmit?
    ensures Step(cfg, s, e).server.tickets == s.server.tickets
  {
  }

  /** In every run the ticket of a key, if there is one, is the first handled submit's. */
  lemma {:induction false} TicketIsFirstHandled(cfg: Config, es: seq<Event>, key: Option<nat>)
    requires key.Some?
    ensures MadeBy(Run(cfg, es).server.tickets, key, FirstHandled(cfg, es, key))
  {
    if es != [] {
      var front, e := es[..|es| - 1], es[|es| - 1];
      var s := Run(cfg, front);
      TicketIsFirstHandled(cfg, front, key);
      if !e.ServerTakesSubmit? { OthersMakeNoTicket(cfg, s, e); }
      else if Enabled(s, e) { TakingKeepsMakers(s, e.submit, key, FirstHandled(cfg, front, key)); }
    }
  }

  /** The submit whose draft a ticket holds. */
  function Maker(cfg: Config, es: seq<Event>, i: nat): nat
    requires i < |Run(cfg, es).submits.sent|
  {
    var key := Run(cfg, es).submits.sent[i].key;
    if key.None? then i else FirstHandled(cfg, es, key).GetOr(i)
  }

  /**
   * In every run a ticket whose answer the client took is the clicked consumer's, and it carries the clicked
   * draft exactly when the first handled submit of the click's key carried that draft; its files are the
   * click's in any case (`UploadedExactlyOnce`).
   */
  lemma TakenTicketCarriesTheClickExactly(cfg: Config, es: seq<Event>, t: nat)
    requires t in Run(cfg, es).submits.landed
    ensures var s := Run(cfg, es);
            var i := s.submits.landed[t];
            && i < |s.submits.sent| && t < |s.server.tickets| && s.server.tickets[t].submit < |s.submits.sent|
            && Maker(cfg, es, i) < |s.submits.sent|
            && var kept := s.submits.sent[s.server.tickets[t].submit].draft;
               && kept.consumerId == s.submits.sent[i].draft.consumerId
               && (kept == s.submits.sent[i].draft <==> s.submits.sent[Maker(cfg, es, i)].draft == s.submits.sent[i].draft)
  {
    RunInv(cfg, es);
    var w := Run(cfg, es).submits;
    assert (w.landed[t], t) in w.replies;
    var key := w.sent[w.landed[t]].key;
    if key.Some? { TicketIsFirstHandled(cfg, es, key); }
  }

  // ---- What the guard and the key do not give: concrete runs ----

  lemma Then(cfg: Config, es: seq<Event>, e: Event) returns (es': seq<Event>)
    ensures Run(cfg, es') == Step(cfg, Run(cfg, es), e)
  {
    es' := es + [e];
    assert es'[..|es|] == es;
  }

  lemma LoseKeylessAnswer(cfg: Config) returns (es: seq<Event>)
    requires !cfg.hasCrypto
    ensures var s := Run(cfg, es);
            && s.server.tickets == [Ticket(None, 0, 0)] && !s.client.loading && s.client.attempt == Attempt(None, 0, 0)
            && |s.submits.sent| == 1
  {
    es := Then(cfg, [], ClicksSubmit);
    es := Then(cfg, es, ServerTakesSubmit(0));
    assert Run(cfg, es).server.tickets == [Ticket(None, 0, 0)];
    es := Then(cfg, es, SubmitIsLost);
  }

  /** Without `crypto.randomUUID` a retry after a lost response creates a second ticket for one draft. */
  lemma RetryWithoutKeyDuplicates(cfg: Config) returns (es: seq<Event>)
    requires !cfg.hasCrypto
    ensures var s := Run(cfg, es);
            s.server.tickets == [Ticket(None, 0, 0), Ticket(None, 1, 0)] && s.client.attempt.resets == 0
  {
    es := LoseKeylessAnswer(cfg);
    es := Then(cfg, es, ClicksSubmit);
    es := Then(cfg, es, ServerTakesSubmit(1));
  }

  lemma StartFresh(cfg: Config, es: seq<Event>) returns (es': seq<Event>)
    requires var s := Run(cfg, es); !s.client.loading && s.client.form.draft.flow != ""
    ensures var s, s' := Run(cfg, es), Run(cfg, es');
            && s'.client == BeginDiscard(s.client) && s'.activity == s.activity && s'.server == s.server
            && s'.saves == Raised(s.saves) && s'.submits == s.submits
            && |s'.discards.sent| == |s.discards.sent| + 1 && s'.discards.settled == s.discards.settled
  {
    es' := Then(cfg, es, ClicksStartFresh);
  }

  lemma StartFreshAndSettle(cfg: Config, es: seq<Event>) returns (es': seq<Event>)
    requires var s := Run(cfg, es); !s.client.loading && s.client.form.draft.flow != "" && s.discards == DiscardWire([], {})
    ensures var s, s' := Run(cfg, es), Run(cfg, es');
            && s'.client.form == BlankForm(cfg) && !s'.client.auto.guard && !s'.client.loading
            && s'.client.attempt == Reset(s.client.attempt) && s'.activity == s.activity && s'.server == s.server
            && s'.saves == Raised(s.saves) && s'.submits == s.submits
  {
    es' := StartFresh(cfg, es);
    es' := Then(cfg, es', DiscardSettles(0));
  }

  /** Submit, lose the answer, start fresh. */
  lemma LoseThenReset(cfg: Config) returns (es: seq<Event>)
    requires cfg.hasCrypto && cfg.homeFlow != ""
    ensures var s := Run(cfg, es);
            && |s.submits.sent| == 1 && s.submits.sent[0].key == Some(0) && s.server.tickets == []
            && s.client.attempt == Attempt(None, 1, 1) && !s.client.loading
  {
    es := Then(cfg, [], ClicksSubmit);
    es := Then(cfg, es, SubmitIsLost);
    assert Run(cfg, es).client.attempt == Attempt(Some(0), 1, 0);
    es := StartFreshAndSettle(cfg, es);
  }

  /** A second draft's submit goes out while the first one's is still on the wire. */
  lemma LoseThenSubmitAnew(cfg: Config) returns (es: seq<Event>)
    requires cfg.hasCrypto && cfg.homeFlow != ""
    ensures var s := Run(cfg, es);
            && |s.submits.sent| == 2 && s.submits.sent[0].key == Some(0) && s.submits.sent[1].key == Some(1)
            && s.server.tickets == [] && s.client.attempt.resets == 1
  {
    es := LoseThenReset(cfg);
    es := Then(cfg, es, ClicksSubmit);
  }

  /** The server first handles the submit the client gave up on. */
  lemma TakeTheLostSubmit(cfg: Config) returns (es: seq<Event>)
    requires cfg.hasCrypto && cfg.homeFlow != ""
    ensures var s := Run(cfg, es);
            && |s.submits.sent| == 2 && s.submits.sent[1].key == Some(1)
            && s.server.tickets == [Ticket(Some(0), 0, 1)] && s.client.attempt.resets == 1
  {
    es := LoseThenSubmitAnew(cfg);
    es := Then(cfg, es, ServerTakesSubmit(0));
  }

  /** A submit the client gave up on may be handled after a later reset: two tickets between two resets. */
  lemma LateSubmitCrossesReset(cfg: Config) returns (es: seq<Event>)
    requires cfg.hasCrypto && cfg.homeFlow != ""
    ensures var s := Run(cfg, es);
            s.server.tickets == [Ticket(Some(0), 0, 1), Ticket(Some(1), 1, 1)] && s.client.attempt.resets == 1
  {
    es := TakeTheLostSubmit(cfg);
    var s := Run(cfg, es);
    assert TicketFor(s.server.tickets, Some(1)).None?;
    es := Then(cfg, es, ServerTakesSubmit(1));
    assert Run(cfg, es) == ServerSubmit(s, 1);
  }

  const READY := Draft("judicial_case_files", "c1", "s1", 2, map["select_court" := "Civil Court"], None)
  const SOMEWHERE := Place("p", "d", "x")

  /** Mount, fill the form far enough to autosave, and let the timer fire. */
  lemma FirstAutosave(cfg: Config, d: Draft) returns (es: seq<Event>)
    requires WorthSaving(d) && d.draftId.None?
    ensures var s := Run(cfg, es);
            && s.saves == SaveWire([SaveMsg(d, true)], {}, {}, 0) && s.client.form.draft == d
            && !s.client.loading && !s.client.auto.guard && s.client.attempt == Attempt(None, 0, 0)
            && s.activity == Idle && s.discards == DiscardWire([], {}) && s.submits == SubmitWire([], {}, map[])
            && s.server == Server([], map[], 0)
  {
    es := Then(cfg, [], RunsEffect);
    es := Then(cfg, es, Edits(d, SOMEWHERE));
    es := Then(cfg, es, RunsEffect);
    assert Run(cfg, es).client.auto.timers == map[0 := d];
    es := Then(cfg, es, TimerFires(0));
  }

  /** The autosave is handled, and then the user starts fresh. */
  lemma SaveThenStartFresh(cfg: Config) returns (es: seq<Event>)
    ensures var s := Run(cfg, es);
            && s.client.form == BlankForm(cfg) && !s.client.auto.guard && s.client.attempt.resets == 1
            && s.saves.sent == [SaveMsg(READY, true)] && s.saves.replies == {(0, Saved(0))} && s.saves.settled == {}
  {
    es := FirstAutosave(cfg, READY);
    es := Then(cfg, es, ServerSaves(0, false));
    assert Run(cfg, es).saves.replies == {(0, Saved(0))};
    es := StartFreshAndSettle(cfg, es);
  }

  /** An autosave reply that lands after the reset binds the blank form to the discarded draft's id. */
  lemma LateAutosaveBindsBlankForm(cfg: Config) returns (es: seq<Event>)
    ensures var c := Run(cfg, es).client;
            && c.attempt.resets == 1 && c.form.draft == BlankForm(cfg).draft.(draftId := Some(0))
            && READY.flow in c.pointer && c.pointer[READY.flow] == 0
  {
    es := SaveThenStartFresh(cfg);
    es := Then(cfg, es, SaveReplyArrives(0, Saved(0)));
  }

  /** The form is submitted while the first autosave is still on the wire. */
  lemma SubmitOverAutosave(cfg: Config) returns (es: seq<Event>)
    ensures var s := Run(cfg, es);
            && s.saves.sent == [SaveMsg(READY, true)] && s.saves.settled == {} && s.client.auto.guard
            && s.server == Server([], map[], 0) && |s.submits.sent| == 1 && s.submits.sent[0].draft == READY
  {
    es := FirstAutosave(cfg, READY);
    es := Then(cfg, es, ClicksSubmit);
  }

  /** The first autosave is still on the wire when the submit becomes a ticket. */
  lemma TicketOverAutosave(cfg: Config) returns (es: seq<Event>)
    ensures var s := Run(cfg, es);
            && s.saves.sent == [SaveMsg(READY, true)] && s.saves.settled == {} && s.client.auto.guard
            && |s.server.tickets| == 1 && (READY.consumerId, READY.flow) !in s.server.drafts
  {
    es := SubmitOverAutosave(cfg);
    es := Then(cfg, es, ServerTakesSubmit(0));
  }

  /** An autosave already on the wire re-creates the draft the new ticket deleted, exactly when the server does not suppress it. */
  lemma LateAutosaveRecreatesDraft(cfg: Config, suppress: bool) returns (es: seq<Event>)
    ensures var s := Run(cfg, es);
            && |s.server.tickets| == 1 && s.client.auto.guard
            && ((READY.consumerId, READY.flow) in s.server.drafts <==> !suppress)
  {
    es := TicketOverAutosave(cfg);
    es := Then(cfg, es, ServerSaves(0, suppress));
  }

  const CNIC_SEARCH := Draft("non_judicial_copy_of_fir", "c1", "s1", 2, map["fir_mode" := "search_by_cnic"], None)

  /** A FIR draft is saved. */
  lemma SavedCnicSearch(cfg: Config) returns (es: seq<Event>)
    ensures var s := Run(cfg, es);
            && s.client.form.draft == CNIC_SEARCH && !s.client.loading && s.submits.sent == [] && s.server.tickets == []
            && s.server.drafts == map[(CNIC_SEARCH.consumerId, CNIC_SEARCH.flow) := DraftRow(0, CNIC_SEARCH)]
  {
    es := FirstAutosave(cfg, CNIC_SEARCH);
    es := Then(cfg, es, ServerSaves(0, false));
  }

  /** Its search by CNIC becomes a ticket of another flow, and the saved draft is still there. */
  lemma CnicTicketKeepsFirDraft(cfg: Config) returns (es: seq<Event>)
    ensures var s := Run(cfg, es);
            && |s.server.tickets| == 1 && s.client.auto.guard
            && s.server.drafts == map[(CNIC_SEARCH.consumerId, CNIC_SEARCH.flow) := DraftRow(0, CNIC_SEARCH)]
  {
    es := SavedCnicSearch(cfg);
    es := Then(cfg, es, ClicksSubmit);
    assert Run(cfg, es).submits.sent[0].draft == CNIC_SEARCH;
    es := Then(cfg, es, ServerTakesSubmit(0));
  }

  /** Staff regenerate a consumer's ticket, and the copy is saved under that consumer. */
  lemma SavedRegenerate(cfg: Config) returns (es: seq<Event>)
    ensures var s := Run(cfg, es);
            && s.client.form.draft == READY && !s.client.loading && s.discards == DiscardWire([], {})
            && s.server.drafts == map[(READY.consumerId, READY.flow) := DraftRow(0, READY)]
  {
    es := Then(cfg, [], Prefills(READY, SOMEWHERE));
    es := Then(cfg, es, RunsEffect);
    assert Run(cfg, es).client.auto.timers == map[0 := READY];
    es := Then(cfg, es, TimerFires(0));
    es := Then(cfg, es, ServerSaves(0, false));
  }

  /** They discard the copy. */
  lemma DiscardRegenerate(cfg: Config) returns (es: seq<Event>)
    ensures var s := Run(cfg, es);
            && |s.discards.sent| == 1 && s.discards.sent[0].flow == READY.flow && s.discards.settled == {}
            && s.server.drafts == map[(READY.consumerId, READY.flow) := DraftRow(0, READY)]
  {
    es := SavedRegenerate(cfg);
    es := Then(cfg, es, ClicksStartFresh);
  }

  /** Start fresh then deletes the staff user's own draft, and the discarded one is still there. */
  lemma DiscardKeepsForeignDraft(cfg: Config) returns (es: seq<Event>)
    requires cfg.actorId != READY.consumerId
    ensures var s := Run(cfg, es);
            && s.client.form == BlankForm(cfg) && s.discards.settled == {0} && |s.discards.sent| == 1
            && s.server.drafts == map[(READY.consumerId, READY.flow) := DraftRow(0, READY)]
  {
    es := DiscardRegenerate(cfg);
    es := Then(cfg, es, ServerDiscards(0));
    es := Then(cfg, es, DiscardSettles(0));
  }

  /** A submit becomes a ticket, and its answer is lost. */
  lemma LoseTheAnswer(cfg: Config) returns (es: seq<Event>)
    requires cfg.hasCrypto
    ensures var s := Run(cfg, es);
            && s.server.tickets == [Ticket(Some(0), 0, 0)] && !s.client.loading && s.client.attempt == Attempt(Some(0), 1, 0)
            && s.client.form.draft == BlankForm(cfg).draft && s.activity == Idle && s.submits.landed == map[] && |s.submits.sent| == 1
            && s.submits.sent[0].draft == BlankForm(cfg).draft && s.submits.sent[0].key == Some(0)
  {
    es := Then(cfg, [], ClicksSubmit);
    es := Then(cfg, es, ServerTakesSubmit(0));
    assert Run(cfg, es).server.tickets == [Ticket(Some(0), 0, 0)];
    es := Then(cfg, es, SubmitIsLost);
  }

  /** The draft is edited and submitted again, under the kept key. */
  lemma EditAndRetry(cfg: Config, service: string) returns (es: seq<Event>)
    requires cfg.hasCrypto
    ensures var s := Run(cfg, es);
            && s.server.tickets == [Ticket(Some(0), 0, 0)] && s.activity == Posting(1) && s.submits.landed == map[]
            && |s.submits.sent| == 2 && s.submits.sent[0].draft == BlankForm(cfg).draft
            && s.submits.sent[1].draft == BlankForm(cfg).draft.(serviceId := service) && s.submits.sent[1].key == Some(0)
  {
    es := LoseTheAnswer(cfg);
    es := Then(cfg, es, Edits(BlankForm(cfg).draft.(serviceId := service), SOMEWHERE));
    assert Run(cfg, es).client.form.draft == BlankForm(cfg).draft.(serviceId := service);
    es := Then(cfg, es, ClicksSubmit);
  }

  /** The retry's answer is the first ticket, which keeps the older draft. */
  lemma EditedRetryTakesOldTicket(cfg: Config, service: string) returns (es: seq<Event>)
    requires cfg.hasCrypto && service != BlankForm(cfg).draft.serviceId
    ensures var s := Run(cfg, es);
            && s.server.tickets == [Ticket(Some(0), 0, 0)] && s.submits.landed == map[0 := 1] && |s.submits.sent| == 2
            && s.submits.sent[0].draft != s.submits.sent[1].draft
  {
    es := EditAndRetry(cfg, service);
    es := Then(cfg, es, ServerTakesSubmit(1));
    assert (1, 0) in Run(cfg, es).submits.replies;
    es := Then(cfg, es, SubmitReplyArrives(0));
  }

  /** Start fresh twice: the first answer lowers the guard while the second DELETE is still out. */
  lemma SecondDiscardOutlivesGuard(cfg: Config) returns (es: seq<Event>)
    requires cfg.homeFlow != ""
    ensures var s := Run(cfg, es);
            !s.client.auto.guard && |s.discards.sent| == 2 && 1 !in s.discards.settled
  {
    assert Run(cfg, []) == Start(cfg);
    es := StartFresh(cfg, []);
    es := StartFresh(cfg, es);
    assert |Run(cfg, es).discards.sent| == 2;
    es := Then(cfg, es, DiscardSettles(0));
  }

  lemma DiscardThenSubmit(cfg: Config) returns (es: seq<Event>)
    requires cfg.homeFlow != ""
    ensures var s := Run(cfg, es);
            && s.activity == Posting(0) && |s.discards.sent| == 1 && s.discards.settled == {} && s.client.attempt.resets == 0
  {
    assert Run(cfg, []) == Start(cfg);
    es := StartFresh(cfg, []);
    es := Then(cfg, es, ClicksSubmit);
  }

  /** Start fresh, submit, fail: one discard is still out and the guard is down. */
  lemma FailedSubmitLowersDiscardGuard(cfg: Config) returns (es: seq<Event>)
    requires cfg.homeFlow != ""
    ensures var s := Run(cfg, es);
            !s.client.auto.guard && |s.discards.sent| == 1 && s.discards.settled == {} && s.client.attempt.resets == 0
  {
    es := DiscardThenSubmit(cfg);
    es := Then(cfg, es, SubmitIsLost);
  }

  /** A submit from a resumed draft, under its banner. */
  lemma SubmitUnderBanner(cfg: Config) returns (es: seq<Event>)
    requires cfg.hasCrypto && cfg.homeFlow != ""
    ensures var s := Run(cfg, es);
            && s.activity == Posting(0) && s.client.loading && s.client.form.resumed && s.client.form.draft.flow != ""
            && s.client.attempt == Attempt(Some(0), 1, 0) && s.server.tickets == [] && s.discards == DiscardWire([], {})
            && |s.submits.sent| == 1 && s.submits.sent[0].items == [] && s.submits.sent[0].key == Some(0)
            && s.submits.replies == {} && s.submits.landed == map[]
  {
    es := Then(cfg, [], Resumes(READY.(flow := cfg.homeFlow), SOMEWHERE, 0));
    assert Run(cfg, es).client.form.resumed && Run(cfg, es).client.form.draft.flow == cfg.homeFlow;
    es := Then(cfg, es, ClicksSubmit);
  }

  /** Start fresh from the banner during the submit: when it settles the key is gone and the guard is down. */
  lemma BannerDiscardUnderSubmit(cfg: Config) returns (es: seq<Event>)
    requires cfg.hasCrypto && cfg.homeFlow != ""
    ensures var s := Run(cfg, es);
            && s.activity == Posting(0) && s.client.loading && !s.client.auto.guard && s.client.form == BlankForm(cfg)
            && s.client.attempt == Attempt(None, 1, 1) && s.server.tickets == []
            && |s.submits.sent| == 1 && s.submits.sent[0].items == [] && s.submits.sent[0].key == Some(0)
            && s.submits.replies == {} && s.submits.landed == map[]
  {
    es := SubmitUnderBanner(cfg);
    es := Then(cfg, es, ClicksStartFresh);
    es := Then(cfg, es, DiscardSettles(0));
  }

  /** The next draft is typed, and then the submit's ticket is made. */
  lemma TypeThenTicket(cfg: Config, typed: Draft) returns (es: seq<Event>)
    requires cfg.hasCrypto && cfg.homeFlow != ""
    ensures var s := Run(cfg, es);
            && s.activity == Posting(0) && s.client.form.draft == typed.(draftId := None) && s.client.attempt.resets == 1
            && |s.server.tickets| == 1 && |s.submits.sent| == 1 && s.submits.sent[0].items == [] && s.submits.replies == {(0, 0)}
  {
    es := BannerDiscardUnderSubmit(cfg);
    es := Then(cfg, es, Edits(typed, SOMEWHERE));
    assert Run(cfg, es).client.form.draft == typed.(draftId := None);
    es := Then(cfg, es, ServerTakesSubmit(0));
  }

  /** The submit's success then wipes the draft typed since, which nothing ever submitted. */
  lemma SuccessWipesAnotherDraft(cfg: Config, typed: Draft) returns (before: seq<Event>, es: seq<Event>)
    requires cfg.hasCrypto && cfg.homeFlow != ""
    ensures Run(cfg, before).client.form.draft == typed.(draftId := None) && |Run(cfg, before).submits.sent| == 1
    ensures Run(cfg, es) == Step(cfg, Run(cfg, before), UploadsDone) && Run(cfg, es).client.form == BlankForm(cfg)
    ensures |Run(cfg, es).server.tickets| == 1 && Run(cfg, es).client.attempt.resets == 2
  {
    before := TypeThenTicket(cfg, typed);
    before := Then(cfg, before, SubmitReplyArrives(0));
    es := Then(cfg, before, UploadsDone);
  }
}
