/**
 * The intake wizard's client state and its handlers, as functions on values.
 * `IntakeWizard` (IntakeWizard.dfy) runs the same handlers step by step on mutable
 * fields; `WizardSystem` puts them beside a server and an unreliable network.
 */
module WizardClient {
  import opened Base

  const FIR_FLOWS := {"non_judicial_copy_of_fir", "non_judicial_criminal_record_search"}
  const MAX_FILE_SIZE_BYTES := 10 * 1024 * 1024

  /**
   * What the mount fixes: the route's first flow, the consumer it files for, the signed-in user, whether
   * `crypto.randomUUID` exists.
   */
  datatype Config = Config(homeFlow: string, ownId: string, actorId: string, hasCrypto: bool)

  datatype Draft = Draft(
    flow: string, consumerId: string, serviceId: string, step: nat,
    payload: map<string, string>, draftId: Option<nat>)

  datatype Place = Place(provinceId: string, districtId: string, cityId: string)

  datatype File = File(name: string, size: nat)

  /** A chosen file with its own caption; the component keeps two parallel arrays of these. */
  datatype Attachment = Attachment(file: File, caption: string)

  /** `resumed` shows the banner with its own Start fresh button. */
  datatype Form = Form(draft: Draft, place: Place, items: seq<Attachment>, uploadError: string, resumed: bool)

  /** The autosave effect and the submit/discard guard. */
  datatype Autosave = Autosave(
    didHydrate: bool,
    due: bool,                  // the effect's dependencies changed since it last ran
    armed: bool,                // its last run returned a cleanup
    guard: bool,                // submittingRef
    timerRef: Option<nat>,      // autosaveTimerRef
    timers: map<nat, Draft>,    // live browser timers, each with the draft its closure captured
    nextTimer: nat)

  /** The idempotency key of the draft at hand, and which draft that is. */
  datatype Attempt = Attempt(
    requestKey: Option<nat>,    // submitRequestIdRef
    minted: nat,                // keys handed out so far: minting is fresh
    resets: nat)                // history: how often resetForm ran

  datatype Client = Client(
    form: Form,
    auto: Autosave,
    attempt: Attempt,
    loading: bool,
    pointer: map<string, nat>)  // localStorage draft pointer, per flow

  datatype SaveReply = Suppressed | Saved(id: nat)

  const NOWHERE := Place("", "", "")

  function BlankForm(cfg: Config): Form {
    Form(Draft(cfg.homeFlow, cfg.ownId, "", 1, map[], None), NOWHERE, [], "", false)
  }

  function Mounted(cfg: Config): Client {
    Client(BlankForm(cfg), Autosave(false, true, false, false, None, map[], 0), Attempt(None, 0, 0), false, map[])
  }

  // ---- Editing ----

  /** Any `setDraft`/`setGeoIds` the fields make; none of them touches `draftId`. */
  function Edit(c: Client, draft: Draft, place: Place): Client {
    c.(form := c.form.(draft := draft.(draftId := c.form.draft.draftId), place := place), auto := c.auto.(due := true))
  }

  /** Hydration from the server's active draft (the resume effect). */
  function Resume(cfg: Config, c: Client, draft: Draft, place: Place, id: nat): Client {
    c.(form := c.form.(draft := draft.(draftId := Some(id)), place := place, resumed := true),
       auto := c.auto.(didHydrate := true, due := true),
       pointer := c.pointer[cfg.homeFlow := id])
  }

  /** Hydration from another ticket (the regenerate and future-ticket prefills): no saved draft is adopted. */
  function Prefill(c: Client, draft: Draft, place: Place): Client {
    c.(form := c.form.(draft := draft.(draftId := None), place := place), auto := c.auto.(didHydrate := true, due := true))
  }

  // ---- Files and captions ----

  /** The first file over the cap, which `find` reports. */
  function Oversized(files: seq<File>): (r: Option<File>)
    ensures r.None? <==> forall f :: f in files ==> f.size <= MAX_FILE_SIZE_BYTES
    ensures r.Some? ==> r.value in files && r.value.size > MAX_FILE_SIZE_BYTES
  {
    if files == [] then None
    else if files[0].size > MAX_FILE_SIZE_BYTES then Some(files[0])
    else Oversized(files[1..])
  }

  /** The chosen files, each with an empty caption. */
  function Uncaptioned(files: seq<File>): (r: seq<Attachment>)
    ensures |r| == |files| && forall i :: 0 <= i < |r| ==> r[i] == Attachment(files[i], "")
  {
    if files == [] then [] else [Attachment(files[0], "")] + Uncaptioned(files[1..])
  }

  /** `addFiles`: all of them with empty captions, or none when one is over the cap. */
  function AddFiles(f: Form, incoming: seq<File>): Form {
    if incoming == [] then f
    else match Oversized(incoming)
      case Some(big) => f.(uploadError := big.name + " exceeds the 10 MB limit.")
      case None => f.(uploadError := "", items := f.items + Uncaptioned(incoming))
  }

  function WithoutIndex<T>(s: seq<T>, index: nat): seq<T> {
    if index < |s| then s[..index] + s[index + 1..] else s
  }

  /** `removeFileAt`. */
  function RemoveFileAt(f: Form, index: nat): Form {
    f.(items := WithoutIndex(f.items, index))
  }

  /** `setFileCaption` on a file that is there. */
  function SetFileCaption(f: Form, index: nat, caption: string): Form
    requires index < |f.items|
  {
    f.(items := f.items[index := f.items[index].(caption := caption)])
  }

  // ---- The autosave effect ----

  function PayloadAt(d: Draft, key: string): string {
    if key in d.payload then d.payload[key] else ""
  }

  /** What `canAutosaveDraft` asks of the draft itself. */
  predicate WorthSaving(d: Draft) {
    d.flow != "" && d.consumerId != "" && d.serviceId != "" &&
    ("non_judicial" <= d.flow || PayloadAt(d, "select_court") != "")
  }

  /** `canAutosaveDraft`, outside edit mode. */
  predicate CanAutosave(guard: bool, d: Draft, p: Place) {
    !guard && WorthSaving(d) && (if d.flow in FIR_FLOWS then p.districtId else p.cityId) != ""
  }

  /** One run of the autosave effect: the previous run's cleanup, then the body. */
  function RunEffect(a: Autosave, d: Draft, p: Place): Autosave {
    var cleaned := if a.armed && a.timerRef.Some? then a.timers - {a.timerRef.value} else a.timers;
    if !a.didHydrate then
      a.(timers := cleaned, didHydrate := true, armed := false, due := false)
    else if !CanAutosave(a.guard, d, p) then
      a.(timers := cleaned, armed := false, due := false)
    else
      var cleared := if a.timerRef.Some? then cleaned - {a.timerRef.value} else cleaned;
      a.(timers := cleared[a.nextTimer := d], timerRef := Some(a.nextTimer),
         nextTimer := a.nextTimer + 1, armed := true, due := false)
  }

  /** Raise the guard and clear the armed timer: the first steps of `submitTicket` and `startFresh`. */
  function RaiseGuard(a: Autosave): Autosave {
    match a.timerRef
    case Some(t) => a.(guard := true, timers := a.timers - {t}, timerRef := None)
    case None => a.(guard := true)
  }

  // ---- Reset, submit, discard, save ----

  /** `resetForm`. */
  function ResetForm(cfg: Config, c: Client): Client {
    c.(form := BlankForm(cfg),
       auto := c.auto.(guard := false, due := true),
       attempt := c.attempt.(requestKey := None, resets := c.attempt.resets + 1))
  }

  function EnsureKey(cfg: Config, a: Attempt): Attempt {
    if a.requestKey.None? && cfg.hasCrypto then a.(requestKey := Some(a.minted), minted := a.minted + 1) else a
  }

  /** The flow of the endpoint a draft is posted to: a FIR search by CNIC goes to the criminal-record search. */
  function SubmitFlow(d: Draft): string {
    if d.flow == "non_judicial_copy_of_fir" && PayloadAt(d, "fir_mode") == "search_by_cnic"
    then "non_judicial_criminal_record_search" else d.flow
  }

  /** `submitTicket` up to the POST. */
  function BeginSubmit(cfg: Config, c: Client): Client {
    c.(auto := RaiseGuard(c.auto), attempt := EnsureKey(cfg, c.attempt), loading := true)
  }

  /** `submitTicket`'s catch. */
  function SubmitFailed(c: Client): Client {
    c.(auto := c.auto.(guard := false), loading := false)
  }

  /** `submitTicket` after the upload loop. */
  function FinishSubmit(cfg: Config, c: Client, flow: string): Client {
    ResetForm(cfg, c).(pointer := c.pointer - {flow}, loading := false)
  }

  /** `startFresh` up to the awaited DELETE. */
  function BeginDiscard(c: Client): Client {
    c.(auto := RaiseGuard(c.auto), pointer := c.pointer - {c.form.draft.flow})
  }

  /** `savedForReal`: not a stale autosave and not suppressed by the server. */
  predicate SavedForReal(guard: bool, auto: bool, reply: SaveReply) {
    !(auto && guard) && reply.Saved?
  }

  function Adopt(c: Client, flow: string, id: nat): Client {
    c.(form := c.form.(draft := c.form.draft.(draftId := Some(id))),
       auto := if c.form.draft.draftId == Some(id) then c.auto else c.auto.(due := true),
       pointer := c.pointer[flow := id])
  }

  /** An autosave's response; `flow` is the captured draft's flow. */
  function AutoReplied(c: Client, flow: string, reply: SaveReply): Client {
    if SavedForReal(c.auto.guard, true, reply) then Adopt(c, flow, reply.id) else c
  }

  /** A manual save's response: the saved draft is parked and the form starts over. */
  function ManualReplied(cfg: Config, c: Client, flow: string, reply: SaveReply): Client {
    if SavedForReal(c.auto.guard, false, reply)
    then ResetForm(cfg, c).(pointer := c.pointer - {flow}, loading := false)
    else c.(loading := false)
  }
}
