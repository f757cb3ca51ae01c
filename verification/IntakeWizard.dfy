/** The wizard component itself: refs and state fields, set step by step by its handlers. */
module IntakeWizardComponent {
  import opened Base
  import opened Text
  import opened WizardClient
  import opened WizardSystem
  import opened WizardSafety

  /** The two parallel arrays hold this one list of attachments. */
  ghost predicate Pairs(items: seq<Attachment>, files: seq<File>, captions: seq<string>) {
    |files| == |captions| == |items| && forall i :: 0 <= i < |items| ==> items[i] == Attachment(files[i], captions[i])
  }

  /** `captions[i] ?? ''`. */
  function CaptionAt(captions: seq<string>, i: nat): string {
    if i < |captions| then captions[i] else ""
  }

  function Failures(outcomes: seq<bool>): nat {
    if outcomes == [] then 0
    else Failures(outcomes[..|outcomes| - 1]) + if outcomes[|outcomes| - 1] then 0 else 1
  }

  class IntakeWizard {
    const cfg: Config
    var draft: Draft
    var place: Place
    var files: seq<File>
    var fileCaptions: seq<string>
    var uploadError: string
    var resumedBanner: bool
    var didHydrate: bool
    var effectDue: bool
    var effectArmed: bool
    var submitting: bool
    var timerRef: Option<nat>
    var timers: map<nat, Draft>
    var nextTimer: nat
    var requestKey: Option<nat>
    var minted: nat
    var loading: bool
    var pointer: map<string, nat>
    ghost var resets: nat
    ghost var items: seq<Attachment>

    ghost predicate Valid()
      reads this`items, this`files, this`fileCaptions
    {
      Pairs(items, files, fileCaptions)
    }

    ghost function FormView(): Form
      reads this`draft, this`place, this`items, this`uploadError, this`resumedBanner
    {
      Form(draft, place, items, uploadError, resumedBanner)
    }

    ghost function AutoView(): Autosave
      reads this`didHydrate, this`effectDue, this`effectArmed, this`submitting, this`timerRef, this`timers, this`nextTimer
    {
      Autosave(didHydrate, effectDue, effectArmed, submitting, timerRef, timers, nextTimer)
    }

    ghost function AttemptView(): Attempt
      reads this`requestKey, this`minted, this`resets
    {
      Attempt(requestKey, minted, resets)
    }

    /** The fields as one value. */
    ghost function View(): Client
      reads this
    {
      Client(FormView(), AutoView(), AttemptView(), loading, pointer)
    }

    constructor (cfg: Config)
      ensures this.cfg == cfg && Valid() && View() == Mounted(cfg)
    {
      this.cfg := cfg;
      draft, place := BlankForm(cfg).draft, NOWHERE;
      files, fileCaptions, uploadError, resumedBanner := [], [], "", false;
      didHydrate, effectDue, effectArmed, submitting := false, true, false, false;
      timerRef, timers, nextTimer := None, map[], 0;
      requestKey, minted, loading, pointer := None, 0, false, map[];
      resets, items := 0, [];
    }

    // ---- Files ----

    method AddFiles(incoming: seq<File>)
      requires Valid()
      modifies this`files, this`fileCaptions, this`items, this`uploadError
      ensures Valid() && FormView() == WizardClient.AddFiles(old(FormView()), incoming)
    {
      if incoming == [] {
        return;
      }
      var oversized := Oversized(incoming);
      if oversized.Some? {
        uploadError := oversized.value.name + " exceeds the 10 MB limit.";
        return;
      }
      uploadError := "";
      files := files + incoming;
      fileCaptions := fileCaptions + seq(|incoming|, _ => "");
      items := items + Uncaptioned(incoming);
    }

    method RemoveFileAt(index: nat)
      requires Valid()
      modifies this`files, this`fileCaptions, this`items
      ensures Valid() && FormView() == WizardClient.RemoveFileAt(old(FormView()), index)
    {
      files := WithoutIndex(files, index);
      fileCaptions := WithoutIndex(fileCaptions, index);
      items := WithoutIndex(items, index);
    }

    /** Keeps the arrays parallel exactly when the index names a file; the backfill loop breaks them otherwise. */
    method SetFileCaption(index: nat, caption: string)
      requires Valid()
      modifies this`fileCaptions, this`items
      ensures Valid() <==> index < |files|
      ensures index < |files| ==> FormView() == WizardClient.SetFileCaption(old(FormView()), index, caption)
      ensures index >= |files| ==>
        fileCaptions == old(fileCaptions) + seq(index - |files|, _ => "") + [caption]
    {
      var next := fileCaptions;
      while |next| <= index
        invariant if index < |files| then next == fileCaptions
                  else |next| <= index + 1 && next == fileCaptions + seq(|next| - |files|, _ => "") && |next| >= |files|
        decreases index + 1 - |next|
      {
        next := next + [""];
      }
      next := next[index := caption];
      fileCaptions := next;
      if index < |files| {
        items := items[index := items[index].(caption := caption)];
      }
    }

    // ---- Resume ----

    /** Hydration from the server's active draft. */
    method ResumeDraft(saved: Draft, where: Place, id: nat)
      modifies this`draft, this`place, this`resumedBanner, this`didHydrate, this`effectDue, this`pointer
      ensures var c := Resume(cfg, old(View()), saved, where, id);
              FormView() == c.form && AutoView() == c.auto && pointer == c.pointer
    {
      draft := saved.(draftId := Some(id));
      place := where;
      resumedBanner := true;
      pointer := pointer[cfg.homeFlow := id];
      didHydrate := true;
      effectDue := true;
    }

    /** Hydration from the ticket to regenerate or to follow up. */
    method PrefillDraft(copied: Draft, where: Place)
      modifies this`draft, this`place, this`didHydrate, this`effectDue
      ensures View() == Prefill(old(View()), copied, where)
    {
      draft := copied.(draftId := None);
      place := where;
      didHydrate := true;
      effectDue := true;
    }

    // ---- Autosave ----

    method RunAutosaveEffect()
      modifies this`didHydrate, this`effectDue, this`effectArmed, this`timerRef, this`timers, this`nextTimer
      ensures AutoView() == RunEffect(old(AutoView()), draft, place)
    {
      effectDue := false;
      if effectArmed && timerRef.Some? {
        timers := timers - {timerRef.value};
      }
      effectArmed := false;
      if !didHydrate {
        didHydrate := true;
        return;
      }
      if !CanAutosave(submitting, draft, place) {
        return;
      }
      if timerRef.Some? {
        timers := timers - {timerRef.value};
      }
      timerRef, timers, nextTimer := Some(nextTimer), timers[nextTimer := draft], nextTimer + 1;
      effectArmed := true;
    }

    /** The timer callback; what it returns is POSTed. */
    method TimerFires(t: nat) returns (sent: Option<SaveMsg>)
      requires t in timers
      modifies this`timers
      ensures AutoView() == old(AutoView()).(timers := old(timers) - {t})
      ensures sent == if submitting then None else Some(SaveMsg(old(timers)[t], true))
    {
      var captured := timers[t];
      timers := timers - {t};
      if submitting {
        return None;
      }
      sent := Some(SaveMsg(captured, true));
    }

    /** `saveDraft('auto')` after its POST answered; `flow` is the captured draft's. */
    method AutosaveReplied(flow: string, reply: SaveReply)
      modifies this`draft, this`effectDue, this`pointer
      ensures View() == AutoReplied(old(View()), flow, reply)
    {
      var staleAutosave := submitting;
      if !staleAutosave && reply.Saved? {
        if draft.draftId != Some(reply.id) {
          draft := draft.(draftId := Some(reply.id));
          effectDue := true;
        }
        pointer := pointer[flow := reply.id];
      }
    }

    /** `saveDraft('manual')` after its POST answered. */
    method ManualSaveReplied(flow: string, reply: SaveReply)
      requires Valid()
      modifies this
      ensures Valid() && View() == ManualReplied(cfg, old(View()), flow, reply)
    {
      if reply.Saved? {
        draft := draft.(draftId := Some(reply.id));
        pointer := pointer[flow := reply.id];
        pointer := pointer - {flow};
        ResetForm();
      }
      loading := false;
    }

    // ---- Submit, discard, reset ----

    /** The guard goes up before any await, and the armed timer goes. */
    method RaiseGuardAndClearTimer()
      modifies this`submitting, this`timerRef, this`timers
      ensures AutoView() == RaiseGuard(old(AutoView()))
    {
      submitting := true;
      if timerRef.Some? {
        timers := timers - {timerRef.value};
        timerRef := None;
      }
    }

    /** `submitTicket` up to the POST: the key it carries and the draft and files its closure holds. */
    method BeginSubmit() returns (key: Option<nat>, body: Draft, sentFiles: seq<File>, sentCaptions: seq<string>)
      requires Valid()
      modifies this`submitting, this`timerRef, this`timers, this`requestKey, this`minted, this`loading
      ensures loading && AutoView() == RaiseGuard(old(AutoView())) && AttemptView() == EnsureKey(cfg, old(AttemptView()))
      ensures var m := Posted(WizardClient.BeginSubmit(cfg, old(View())));
              key == m.key && body == m.draft && Pairs(m.items, sentFiles, sentCaptions)
    {
      RaiseGuardAndClearTimer();
      if requestKey.None? && cfg.hasCrypto {
        requestKey, minted := Some(minted), minted + 1;
      }
      loading := true;
      key, body, sentFiles, sentCaptions := requestKey, draft, files, fileCaptions;
    }

    method SubmitFailed()
      modifies this`submitting, this`loading
      ensures View() == WizardClient.SubmitFailed(old(View()))
    {
      submitting := false;
      loading := false;
    }

    method FinishSubmit(flow: string)
      requires Valid()
      modifies this
      ensures Valid() && View() == WizardClient.FinishSubmit(cfg, old(View()), flow)
    {
      pointer := pointer - {flow};
      ResetForm();
      loading := false;
    }

    /** `startFresh` up to the DELETE it returns; with no flow there is none and the form resets at once. */
    method BeginDiscard() returns (flow: Option<string>)
      requires Valid()
      modifies this
      ensures Valid() && pointer == old(pointer) - {old(draft).flow} && loading == old(loading)
      ensures flow == if old(draft).flow == "" then None else Some(old(draft).flow)
      ensures flow.Some? ==>
                FormView() == old(FormView()) && AttemptView() == old(AttemptView()) && AutoView() == RaiseGuard(old(AutoView()))
      ensures flow.None? ==>
                && FormView() == BlankForm(cfg) && AttemptView() == Reset(old(AttemptView()))
                && AutoView() == RaiseGuard(old(AutoView())).(guard := false, due := true)
    {
      RaiseGuardAndClearTimer();
      pointer := pointer - {draft.flow};
      if draft.flow == "" {
        ResetForm();
        return None;
      }
      flow := Some(draft.flow);
    }

    /** `resetForm`: the guard, the key, then every form field. */
    method ResetForm()
      modifies this`draft, this`place, this`files, this`fileCaptions, this`items, this`uploadError,
               this`resumedBanner, this`submitting, this`requestKey, this`effectDue, this`resets
      ensures Valid() && FormView() == BlankForm(cfg)
      ensures AutoView() == old(AutoView()).(guard := false, due := true)
      ensures AttemptView() == Reset(old(AttemptView()))
    {
      submitting := false;
      requestKey := None;
      effectDue := true;
      resets := resets + 1;
      BlankFields();
    }

    method BlankFields()
      modifies this`draft, this`place, this`files, this`fileCaptions, this`items, this`uploadError, this`resumedBanner
      ensures Valid() && FormView() == BlankForm(cfg)
    {
      draft := BlankForm(cfg).draft;
      files := [];
      fileCaptions := [];
      items := [];
      place := NOWHERE;
      uploadError := "";
      resumedBanner := false;
    }
  }

  /** The log so far: one upload of this ticket per file, each with its outcome. */
  ghost predicate LogsOutcomes(log: seq<Upload>, ticket: nat, outcomes: seq<bool>) {
    |log| <= |outcomes| && forall k :: 0 <= k < |log| ==> log[k].ticket == ticket && log[k].ok == outcomes[k]
  }

  lemma LogOneMore(log: seq<Upload>, ticket: nat, outcomes: seq<bool>, u: Upload)
    requires LogsOutcomes(log, ticket, outcomes) && |log| < |outcomes| && u.ticket == ticket && u.ok == outcomes[|log|]
    ensures LogsOutcomes(log + [u], ticket, outcomes)
  {
  }

  /**
   * The upload loop of `submitTicket` over the captured arrays, with the network's answers
   * given: one upload a file, in order, whatever fails, and the failures counted.
   */
  method UploadAll(ticket: nat, files: seq<File>, captions: seq<string>, outcomes: seq<bool>, ghost items: seq<Attachment>)
    returns (log: seq<Upload>, uploadFailures: nat)
    requires |files| == |outcomes| && Pairs(items, files, captions)
    ensures UploadsOf(log, ticket) == Stamps(items)
    ensures |log| == |files| && LogsOutcomes(log, ticket, outcomes)
    ensures uploadFailures == Failures(outcomes)
  {
    log, uploadFailures := [], 0;
    for i := 0 to |files|
      invariant |log| == i && UploadsOf(log, ticket) == Stamps(items[..i])
      invariant LogsOutcomes(log, ticket, outcomes)
      invariant uploadFailures == Failures(outcomes[..i])
    {
      var upload := Upload(ticket, files[i], Trim(CaptionAt(captions, i)), outcomes[i]);
      LogOneMore(log, ticket, outcomes, upload);
      UploadsOfStep(log, upload, ticket);
      StampsStep(items, i);
      assert outcomes[..i + 1][..i] == outcomes[..i];
      log := log + [upload];
      if !outcomes[i] {
        uploadFailures := uploadFailures + 1;
      }
    }
    assert outcomes[..|files|] == outcomes && items[..|files|] == items;
  }
}
