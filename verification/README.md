# Wusuq: a verified model of the intake wizard and the seed scripts

This project models, in Dafny, the parts of the Wusuq repository whose correctness depends on
state, order or arithmetic, and proves what those parts promise.

* **Intake wizard** (`WizardClient`, `WizardSystem`, `WizardSafety`, `WizardOrigins`,
  `WizardTheorems`, `IntakeWizard`): a transition system of the browser client, its server and a network that
  reorders, repeats and loses messages. `IntakeWizard` runs the same handlers as a class with the
  component's refs and arrays as fields; each method's contract is the matching step of the system.
* **City courts** and **promo codes** (`Courts`, `Promo`): two small protocols of the same component,
  each a class of state fields and a module of runs over it.
* **Validation** (`Validation`): the per-step loop, the whole-form gate, the future-ticket landing scan.
* **Checkout quote** (`Quote`): the server's resolver and the checkout's instant patch, over `real`.
* **Stored phone numbers** (`Phone`): two longest-prefix algorithms and the compose function;
  numbers have the structure of section 6 of ITU-T E.164.
* **Pricing seed** (`PricingSheet`, `PricingParser`, `LastWriteWins`, `PricingRules`, `PricingRows`,
  `PricingSeed`, `PricingReseed`): grid parsing, de-duping, the clerk overlay, the guards, the atomic
  replace, and the two partial reseeds.
* **Court seats** (`GeoLookup`, `GeoWalk`, `GeoSeats`), **case types** (`CaseTypes`) and **clearing
  ticket data** (`Wipe`): the remaining seed and maintenance scripts with real logic.
* `Base` and `Text` hold Option, Result, `trim` and separator-joined keys.

`dafny verify dfyconfig.toml` checks the whole project.

## Assumptions

* The server returns the existing ticket for a repeated request key of the same consumer and rejects
  the key for another one (`apps/api/src/tickets/tickets.service.ts` lines 1075-1097); minted keys are
  fresh.
* A React transition's writes show at a later commit, all together; a write outside a transition shows
  at once and stands over what is queued before it.
* Submit, Save draft and the footer's Start fresh are disabled while the loading flag is up; the
  Start fresh of the resumed-draft banner is not, and the model lets it run at any time.
* A message on the wire may be handled any number of times, at any later time, or never.
* The server may match another rule for another year, or none; how it matches is not modelled.
  Client and server read one calendar year.
* A blank value is never a complete address or a named bench, and every `case_type_other` field is
  shown only for the case type "Other", as all five flows declare it
  (`apps/web/lib/intake-flows.ts` lines 574, 803, 1041, 1231 and 1364).
* Upper and lower casing, `Number`, the regular expressions, the address and bench value parsers and
  the label classifier of the district courts are parameters; results hold for every choice of them.
* City ids are never empty, province names are unique in the database, and a transaction applies
  all of its statements or none.

## Where the code and its comments disagree

The model follows the code.

* The guard "blocks the autosave during and after the submit", but an answer landing after the reset
  has lowered the guard still binds the blank form (`LateAutosaveBindsBlankForm`) and a request
  already on the wire can re-create the draft (`LateAutosaveRecreatesDraft`).
* The guard is meant to stay up until a discard's reset, but another discard's reset
  (`SecondDiscardOutlivesGuard`) or a failed submit (`FailedSubmitLowersDiscardGuard`) lowers it.
* A discard from the resumed-draft banner during a submit drops that submit's key and guard
  (`BannerDiscardUnderSubmit`), and the submit's success then wipes the next draft
  (`SuccessWipesAnotherDraft`).
* "Once a ticket is created from that draft the draft is stale" and deleted, but a FIR draft searched
  by CNIC is posted to another flow and stays (`CnicTicketKeepsFirDraft`); Start fresh "deletes the
  server-side draft", but only the signed-in user's, so a discarded regenerate for a consumer stays
  (`DiscardKeepsForeignDraft`).
* A re-click after a lost response gets the original ticket, which holds the draft as it was then, even
  if it was edited since (`EditedRetryTakesOldTicket`).
* One key per attempt prevents duplicates only where `crypto.randomUUID` exists
  (`RetryWithoutKeyDuplicates`).
* The courts counter is meant to close a stale-answer race, but `resetForm` does not advance it
  (`AnswerAfterResetIsShown`), the resume loader keeps the old list on failure
  (`ResumeFailureKeepsOldList`), the future-ticket prefill sets a city without a fetch
  (`FutureCityKeepsOldList`), and a queued prefill leaves the old list loaded until React commits
  (`QueuedPrefillShowsOldList`, `SecondCityUndoesQueuedCity`).
* The promo counter does not stop a second request sent before React commits a queued discount
  (`EnterBeforeCommit`), and the code can be retyped while its request is out (`DiscountForAnotherCode`).
* The instant estimate and the server's value "always agree on the year-driven portion" for patched
  flows only; a decided case in another flow is not patched (`UnpatchedFlow`), `base` goes stale
  (`BaseIsStale`), and a year in another band leaves the old band's price (`BandChangeIsMissed`).
* Requested and stored year bands are meant to agree, but a year after 2025 and before the current one
  is asked as `current`, whose stored years start at the current one (`DerivedBandHoldsTheYear`).
* "Other" rows are said to be appended for every cohort represented; a cohort with a `|` in a field
  gets none (`OneOtherPerCohort`).
* The wipe prints that personal files are kept untouched; their link to a wiped ticket is cleared
  (`AttachedFileIsChanged`).

## Model

| member | source | states |
|---|---|---|
| `WizardTheorems.OneTicketPerDraft` | apps/web/components/intake-wizard.tsx:389-393 | In every run, with lost, repeated and reordered messages and discards under a submit: all submits of one draft carry one key, two drafts never share a key, and no two tickets come from one draft. |
| `WizardTheorems.TicketsBetweenResets` | apps/web/components/intake-wizard.tsx:389-393 | In every run a ticket is born no earlier than its draft, and of two tickets created between the same two resets at least one comes from an earlier draft whose submit the server first handled late: otherwise at most one is created there. |
| `WizardTheorems.UploadedExactlyOnce` | apps/web/components/intake-wizard.tsx:2293-2312 | In every run each ticket whose answer the client took receives the files held on the form at the click that sent its submit, exactly once, in order, each with its own trimmed caption, whatever uploads fail; other tickets receive none. |
| `WizardOrigins.SubmitCarriesTheForm` | apps/web/components/intake-wizard.tsx:2200-2272 | In every run each submit was sent by one click, and carries the draft and the files that the form held at that click. |
| `WizardOrigins.StampsAre` | apps/web/components/intake-wizard.tsx:2299-2312 | What is uploaded for a held file is the file itself and its own caption, trimmed. |
| `WizardOrigins.SaveCarriesTheForm` | apps/web/components/intake-wizard.tsx:1652-1688 | In every run a manual save carries the form at its click, and an autosave the form at an effect run at which the guard was down and flow, consumer, service, court and place were filled as the gate asks. |
| `WizardOrigins.EffectArmsExactly` | apps/web/components/intake-wizard.tsx:1673-1688 | In every run the next effect run leaves one timer, holding the draft on the form, exactly when that gate passes, and no timer otherwise. |
| `WizardOrigins.FormChangesExactly` | apps/web/components/intake-wizard.tsx:1953-1982 | The form is what is typed, resumed or prefilled, with the files added, removed and captioned, until it is reset; no other event changes it but for the draft id an answer binds. |
| `WizardOrigins.BindingsAreLast` | apps/web/components/intake-wizard.tsx:1889-1914 | In every run the stored pointer of each flow and the draft id of the form are what the last binding event made them: a resume or an autosave answer taken with the guard down binds, a discard, a parked manual save and a success unbind. |
| `WizardOrigins.ResetsExactly` | apps/web/components/intake-wizard.tsx:1953-1982 | The form is reset exactly by a success, a settled discard, a discard without a flow and a parked manual save; nothing of the draft, the place or the files is left, the key is gone and the guard is down. |
| `WizardOrigins.ManualSaveParksExactly` | apps/web/components/intake-wizard.tsx:1901-1914 | In every run the answer to a manual save ends its handler; a saved draft loses its pointer and the form is emptied, an unsaved one leaves form, pointer, timers and key as they were. |
| `WizardOrigins.AddsAllOrNone` | apps/web/components/intake-wizard.tsx:1538-1549 | All chosen files are appended in order with empty captions, or, when one is over 10 MB, none, and a file over the cap is named in the error. |
| `WizardOrigins.RemovesThatFile` | apps/web/components/intake-wizard.tsx:1551-1554 | Removing takes the file at the index with its caption and keeps the others in order; past the end it takes none. |
| `WizardTheorems.NothingOverTheCap` | apps/web/components/intake-wizard.tsx:1538-1549 | No file over 10 MB is ever held or uploaded, in any run. |
| `WizardTheorems.GuardIsQuiet` | apps/web/components/intake-wizard.tsx:381-388 | In every run, while the submit/discard guard is up no timer is armed, no autosave has been sent since it went up and none is sent next, and an autosave answer changes neither the draft nor the pointer. |
| `WizardTheorems.GuardUpExactly` | apps/web/components/intake-wizard.tsx:2329-2334 | In every run the guard is up exactly when neither a reset nor a failed submit has followed its last raise. |
| `WizardTheorems.SubmitHoldsGuard` | apps/web/components/intake-wizard.tsx:2197-2212 | In every run a submit in flight holds the loading flag, and keeps the guard up with no timer armed until the form is reset. |
| `WizardTheorems.DiscardHoldsGuard` | apps/web/components/intake-wizard.tsx:1922-1951 | In every run a discard keeps the guard up, with no timer armed and its DELETE still out, as long as neither a reset nor a failed submit followed its click, and exactly that long when the guard was not raised again. |
| `WizardTheorems.SuccessResetsOwnFormExactly` | apps/web/components/intake-wizard.tsx:2324-2334 | In every run a submit's success resets the form, which is the submit's own draft exactly when the key ref still holds the submit's key. |
| `WizardTheorems.AutosavesAreComplete` | apps/web/components/intake-wizard.tsx:1652-1688 | Every autosave sent in any run carries a draft that passed the completeness gate, and at most one timer is live. |
| `WizardTheorems.AutosaveReplyTakesEffect` | apps/web/components/intake-wizard.tsx:1889-1900 | In every run an autosave answer binds the draft id and the pointer exactly when the server did not suppress it and no raise of the guard, unfollowed by a reset or a failed submit, has overtaken it; otherwise the client is unchanged. |
| `WizardTheorems.DraftPresentExactly` | apps/web/components/intake-wizard.tsx:381-388 | In every run and for every consumer and flow, the server holds a draft exactly when its last event on the pair is an unsuppressed save, and then it holds that save's draft; the other events are a first handled submit posted to the flow and the signed-in user's discard of the flow. |
| `WizardTheorems.DraftComesBackExactly` | apps/web/components/intake-wizard.tsx:381-388 | In every run a missing draft comes back exactly when the server handles an unsuppressed save of the pair; under the guard that is a manual save or an autosave sent before the raise. |
| `WizardTheorems.TicketClearsItsDraftExactly` | apps/api/src/tickets/tickets.service.ts:1117-1127 | In every run, once a submit has made its ticket and until the server touches the pair again, the row of the draft it came from is there exactly when it was there before and the draft was rerouted to another flow. |
| `WizardTheorems.TicketClearsTheFlowPostedTo` | apps/web/components/intake-wizard.tsx:2239-2254 | In the same run the draft row of the flow posted to, the criminal-record search for a FIR search by CNIC and else the draft's own, is gone until the server touches it again. |
| `WizardTheorems.RowsKeepTheirIds` | apps/api/src/tickets/tickets.service.ts:1204-1234 | In every run no two draft rows share an id, a row keeps its id while it is there, and an unsuppressed save answers the id of the row it wrote. |
| `WizardTheorems.CnicTicketKeepsFirDraft` | apps/web/components/intake-wizard.tsx:2239-2254 | The rerouted case happens: a FIR draft searched by CNIC becomes a ticket of the other flow and is still there. |
| `WizardTheorems.DiscardClearsItsDraftExactly` | apps/api/src/tickets/tickets.controller.ts:336-352 | In every run, once the server has handled a discard and until it touches the pair again, the discarded draft's row is there exactly when it was there before and the draft was for another consumer than the signed-in user. |
| `WizardTheorems.DiscardKeepsForeignDraft` | apps/web/components/intake-wizard.tsx:1938-1940 | That case happens: staff regenerate a consumer's ticket, the copy is saved, and Start fresh leaves it on the server. |
| `WizardTheorems.TicketIsFirstHandled` | apps/api/src/tickets/tickets.service.ts:1075-1097 | In every run a key has a ticket exactly when the server has handled a submit of it, and that ticket is the first handled one's. |
| `WizardTheorems.TakenTicketCarriesTheClickExactly` | apps/api/src/tickets/tickets.service.ts:1087-1095 | In every run a ticket whose answer the client took is for the clicked consumer, and carries the clicked draft exactly when the first handled submit of the click's key carried that draft. |
| `WizardTheorems.EditedRetryTakesOldTicket` | apps/web/components/intake-wizard.tsx:389-393 | The other case happens: the answer is lost, the draft is edited and submitted again, and the taken ticket holds the older draft. |
| `WizardTheorems.RetryWithoutKeyDuplicates` | apps/web/components/intake-wizard.tsx:2205-2211 | Without `crypto.randomUUID` there is a run in which a retry after a lost answer makes a second ticket for one draft. |
| `WizardTheorems.LateSubmitCrossesReset` | apps/web/components/intake-wizard.tsx:2257-2261 | The late ticket of `TicketsBetweenResets` happens: a submit given up on is handled after a reset, and two tickets are created between two resets. |
| `WizardTheorems.LateAutosaveBindsBlankForm` | apps/web/components/intake-wizard.tsx:1893-1900 | An autosave answer landing after the reset lowered the guard binds the blank form to the discarded draft. |
| `WizardTheorems.LateAutosaveRecreatesDraft` | apps/web/components/intake-wizard.tsx:381-388 | The case `DraftComesBackExactly` leaves under the guard happens: an autosave on the wire re-creates the draft a ticket deleted, exactly when the server does not suppress it. |
| `WizardTheorems.SecondDiscardOutlivesGuard` | apps/web/components/intake-wizard.tsx:1922-1951 | Discarding twice: the first answer's reset lowers the guard while the second DELETE is out. |
| `WizardTheorems.FailedSubmitLowersDiscardGuard` | apps/web/components/intake-wizard.tsx:2329-2334 | One discard and a submit that fails: the guard is down while the DELETE is out and before any reset. |
| `WizardTheorems.BannerDiscardUnderSubmit` | apps/web/components/intake-wizard.tsx:2453-2459 | The banner's Start fresh during a submit: when the discard settles the POST is still out, the key is gone and the guard is down. |
| `WizardTheorems.SuccessWipesAnotherDraft` | apps/web/components/intake-wizard.tsx:2324-2324 | That submit's success then blanks the draft typed meanwhile, which no submit ever carried. |
| `WizardSafety.RunInv` | apps/web/components/intake-wizard.tsx:1871-1982 | The inductive invariant (timers, saves, mutex, keys, tickets, uploads, file cap) holds after every list of events. |
| `IntakeWizardComponent.IntakeWizard.AddFiles` | apps/web/components/intake-wizard.tsx:1538-1549 | The two parallel arrays stay in step with one list of (file, caption) pairs; all chosen files are added with empty captions, or none and an error. |
| `IntakeWizardComponent.IntakeWizard.RemoveFileAt` | apps/web/components/intake-wizard.tsx:1551-1554 | Removing a file removes its own caption and no other, in range or not. |
| `IntakeWizardComponent.IntakeWizard.SetFileCaption` | apps/web/components/intake-wizard.tsx:1556-1564 | The arrays stay parallel exactly when the index names a file; then only that file's caption changes, and past the end the backfill adds empty captions. |
| `IntakeWizardComponent.IntakeWizard.ResumeDraft` | apps/web/components/intake-wizard.tsx:1331-1375 | Hydration from the server's draft sets the draft, the banner and the pointer, marks the form hydrated, and is the protocol's resume step. |
| `IntakeWizardComponent.IntakeWizard.PrefillDraft` | apps/web/components/intake-wizard.tsx:1091-1147 | Hydration from another ticket drops the draft id, copies the draft and marks the form hydrated, and is the protocol's prefill step. |
| `IntakeWizardComponent.IntakeWizard.RunAutosaveEffect` | apps/web/components/intake-wizard.tsx:1673-1688 | One run of the effect with the previous run's cleanup is the protocol's effect step. |
| `IntakeWizardComponent.IntakeWizard.AutosaveReplied` | apps/web/components/intake-wizard.tsx:1889-1900 | The answer handler is the protocol's autosave-answer step, whose effect `AutosaveReplyTakesEffect` states. |
| `IntakeWizardComponent.IntakeWizard.ManualSaveReplied` | apps/web/components/intake-wizard.tsx:1901-1914 | A saved manual draft is parked and the form starts over; an unsaved one only lowers the loading flag. |
| `IntakeWizardComponent.IntakeWizard.BeginSubmit` | apps/web/components/intake-wizard.tsx:2200-2212 | The guard goes up and the timer goes before the POST; the key is minted only when there is none, and the draft and the file pairs returned for the POST are those the protocol's submit message carries. |
| `IntakeWizardComponent.IntakeWizard.BeginDiscard` | apps/web/components/intake-wizard.tsx:1922-1951 | The guard goes up and the pointer goes before the DELETE, which carries the flow alone; with no flow the form resets at once. |
| `IntakeWizardComponent.IntakeWizard.ResetForm` | apps/web/components/intake-wizard.tsx:1953-1982 | The guard, the key and every form field are blanked; timers and the pointer are not touched. |
| `IntakeWizardComponent.UploadAll` | apps/web/components/intake-wizard.tsx:2299-2312 | The loop makes one upload per file in order with its trimmed caption, never stops on a failure, and counts the failures. |
| `CourtRuns.LoadedListIsLatest` | apps/web/components/intake-wizard.tsx:370-376 | In every run, while the screen shows courts as loaded, the list is empty or the answer to the latest request, exactly when that request is neither a resume fetch that failed over an older list nor a queued prefill waiting under one. |
| `CourtRuns.LoadedListIsForTheCity` | apps/web/components/intake-wizard.tsx:1474-1499 | In every run, while the screen shows courts as loaded, the latest request was for the city on screen exactly when there is one and none was put beside that request's: by the future-ticket prefill, or by a queued prefill leaving the old one up. |
| `CourtRuns.LoadingIsOutstanding` | apps/web/components/intake-wizard.tsx:1494-1499 | In every run loading shows exactly while the latest request is live and unfinished, and loaded exactly when it is live and finished, unless it is a queued prefill sent over other flags, which stay until React commits or it finishes. |
| `CourtRuns.StaleRepliesAreIgnored` | apps/web/components/intake-wizard.tsx:371-376 | An answer, failure or settlement of any request but the latest live one changes nothing on screen. |
| `CourtRuns.ListChangesExactly` | apps/web/components/intake-wizard.tsx:1474-1499 | In every run the list is emptied by a pick, by the last city going and by a reset, becomes the answer of the latest live request unless that is a cancelled resume fetch, is emptied by its failure unless it is a resume fetch, and changes in no other way. |
| `CourtRuns.NoListWhilePicking` | apps/web/components/intake-wizard.tsx:1479-1487 | In every run nothing of an old list is shown under a picked city before its answer is in, nor without a live request. |
| `CourtRuns.CityIsTheLast` | apps/web/components/intake-wizard.tsx:1199-1204 | In every run the city queued is the last one picked, prefilled or cleared, and the one on screen the same but for prefills in a transition, which show at the next commit. |
| `CourtRuns.FetchesExactly` | apps/web/components/intake-wizard.tsx:2540-2564 | In every run a fetch goes out, under the advanced counter, exactly for a non-empty picked or prefilled city and for a non-empty first city other than the one on screen. |
| `CourtRuns.ResumeFailureKeepsOldList` | apps/web/components/intake-wizard.tsx:1343-1377 | A failed resume fetch leaves the previous city's list shown as loaded for the new city. |
| `CourtRuns.FutureCityKeepsOldList` | apps/web/components/intake-wizard.tsx:1297-1301 | The future-ticket prefill sets a city and fetches nothing: the previous city's list stays loaded under it. |
| `CourtRuns.QueuedPrefillShowsOldList` | apps/web/components/intake-wizard.tsx:1199-1204 | Until React commits the queued flags, the previous city's list shows as loaded while the prefill's fetch is out. |
| `CourtRuns.SecondCityUndoesQueuedCity` | apps/web/components/intake-wizard.tsx:2506-2541 | Adding a city in that window restores the old primary city without a fetch, and the new city's courts end up loaded under it. |
| `CourtRuns.AnswerAfterResetIsShown` | apps/web/components/intake-wizard.tsx:1970-1971 | Because the reset does not advance the counter, an answer landing after it fills the blank form. |
| `CourtRuns.CancelledResumeKeepsSpinning` | apps/web/components/intake-wizard.tsx:1354-1377 | A resume fetch whose effect was cleaned up leaves loading on after it settled. |
| `CourtPanelModel.CourtPanel.HandleCityChange` | apps/web/components/intake-wizard.tsx:1479-1487 | Picking a city clears the list, advances the counter and asks for that city's courts, or asks nothing for an empty city. |
| `CourtPanelModel.CourtPanel.OnCitiesChange` | apps/web/components/intake-wizard.tsx:2540-2564 | Only a non-empty primary city other than the one on screen is fetched, keeping the old list meanwhile; an empty one clears everything. |
| `CourtPanelModel.CourtPanel.PrefillCity` | apps/web/components/intake-wizard.tsx:1129-1132 | The edit and regenerate prefills queue the city and the flags and the resume one writes them at once; all advance the counter at once. |
| `CourtPanelModel.CourtPanel.FetchSettles` | apps/web/components/intake-wizard.tsx:1133-1145 | The three continuations of a fetch apply only while it is the latest, and the resume loader ignores failures. |
| `PromoRuns.StaleAnswerIsIgnored` | apps/web/components/intake-wizard.tsx:377-380 | An answer to a request issued before a later request or a reset never changes the promo state. |
| `PromoRuns.AnswerShowsExactly` | apps/web/components/intake-wizard.tsx:590-606 | In every run the next commit shows an answer's discount, or none, exactly when its request is live; Apply is enabled exactly for a non-blank code with no discount on screen and no live request. |
| `PromoRuns.DiscountWasGranted` | apps/web/components/intake-wizard.tsx:590-598 | A settled positive discount is one the server granted to some request, in every run. |
| `PromoRuns.PositiveDiscountMeansQuiet` | apps/web/components/intake-wizard.tsx:3127-3160 | While a positive discount shows no live request is out, unless it was sent while the discount was queued and not yet shown; the loading flag is up exactly while a request is live. |
| `PromoRuns.SendBreaksQuietExactly` | apps/web/components/intake-wizard.tsx:3132-3153 | In every run, sending by Enter or Apply and then committing shows a positive discount over a live request exactly when a positive discount was queued and not yet shown at the click. |
| `PromoRuns.EnterBeforeCommit` | apps/web/components/intake-wizard.tsx:3132-3132 | A run in which Enter is pressed again before the commit: the discount shows with the second request live. |
| `PromoRuns.DiscountIsForTheBoxExactly` | apps/web/components/intake-wizard.tsx:3127-3135 | In every run a settled positive discount was granted to its request's code, the box takes nothing after it shows, and that code is the one in the box exactly when the box took nothing between the send and the commit or took that code back. |
| `PromoRuns.DiscountForAnotherCode` | apps/web/components/intake-wizard.tsx:3131-3131 | The failing case of `DiscountIsForTheBoxExactly` happens: the code is retyped while its request is out, and the discount shows for a code no longer in the box. |
| `PromoModel.PromoBox.ValidatePromo` | apps/web/components/intake-wizard.tsx:576-580 | A blank code asks nothing; any other advances the counter and goes out under it. |
| `PromoModel.PromoBox.ValidationSettles` | apps/web/components/intake-wizard.tsx:590-606 | Only the latest request's answer queues a discount or lowers the loading flag. |
| `ValidationModel.StepFieldErrors` | apps/web/components/intake-wizard.tsx:1745-1822 | The loop fills exactly the errors, touched flags and first invalid key that the declarative per-field rule prescribes. |
| `ValidationModel.AskedExactly` | apps/web/components/intake-wizard.tsx:1750-1785 | A field is asked for exactly when it is shown, the pickers do not answer for it, and it is required for the court tier, or is `case_type_other` under the case type "Other". |
| `ValidationModel.FailsExactly` | apps/web/components/intake-wizard.tsx:1750-1818 | Kind by kind, when a field fails: station, city type, "Other" case type, address, bench, and plain fields by blankness and pattern, with the tier override and the show rule spelled out. |
| `ValidationModel.FailureSays` | apps/web/components/intake-wizard.tsx:1765-1811 | A failing filled field gets its pattern's message, an address its own, and any other that it is required. |
| `ValidationModel.TouchedExactly` | apps/web/components/intake-wizard.tsx:1745-1822 | Exactly the keys of the fields asked for are marked touched. |
| `ValidationModel.FirstInvalidExactly` | apps/web/components/intake-wizard.tsx:1745-1822 | With no empty key, the focused key is the first failing field's, and there is none exactly when no field fails. |
| `ValidationModel.ErrorsAreLastFailures` | apps/web/components/intake-wizard.tsx:1745-1822 | A key has an error exactly when some field with it fails, and the message is the last such field's. |
| `ValidationModel.PassesExactly` | apps/web/components/intake-wizard.tsx:1835-1841 | A step passes exactly when every failure that stays has an empty message. |
| `ValidationModel.PassesIffRulesMet` | apps/web/components/intake-wizard.tsx:1855-1866 | With no empty pattern message, a step passes exactly when every field asked for meets its rule. |
| `ValidationModel.EmptyMessageLetsThrough` | apps/web/components/intake-wizard.tsx:1835-1841 | For a field definition the repository does not contain: a failing pattern with an empty message lets the step pass, so `PassesIffRulesMet` needs its hypothesis. |
| `ValidationModel.Gate.ValidateAllSteps` | apps/web/components/intake-wizard.tsx:1849-1869 | True exactly when location, service and every step pass; otherwise the draft moves to the first failing step with that step's errors merged in. |
| `ValidationModel.FirstStepExactly` | apps/web/components/intake-wizard.tsx:1614-1650 | The first step passes exactly with a consumer, a court, a province and a district for a FIR and a city otherwise, and for a judicial flow a service. |
| `ValidationModel.LandingStep` | apps/web/components/intake-wizard.tsx:1272-1286 | The scan lands on the first step after the first with an incomplete required field, else on the last step. |
| `ValidationModel.IncompleteExactly` | apps/web/components/intake-wizard.tsx:1276-1281 | The scan counts a field exactly when it is required for the tier, shown, outside the pickers' keys and blank. |
| `ValidationModel.RejectedNotAfterLanding` | apps/web/components/intake-wizard.tsx:1269-1286 | For every list of steps whose `case_type_other` fields are declared as every flow declares them, the gate's first rejection is never later than the step the scan lands on, and a scan that stops at an incomplete step means the gate rejects. |
| `ValidationModel.PassingFormLandsLast` | apps/web/components/intake-wizard.tsx:1272-1286 | When the gate lets everything through, the scan has landed on the last step. |
| `QuoteModel.PatchIsResolve` | apps/web/components/intake-wizard.tsx:2013-2046 | With any rule matched for each year, the instant patch shows and bills what the server quotes for the new year, whatever number of cities the request asks for (`CitiesMultiply`), exactly when the two rules bill the request alike (its base, PDF and delivery amounts) and the flow is patched, the order is USD, or the surcharge does not differ. |
| `QuoteModel.BaseIsStale` | apps/web/components/intake-wizard.tsx:2020-2035 | The patched quote equals the server's in every field exactly when, besides, the year does not move a Case Search base: `base` is never patched. |
| `QuoteModel.BandChangeIsMissed` | apps/api/src/pricing/pricing.service.ts:377-399 | A decided Case Files year in another band: the checkout's total misses exactly the difference of the two banded base prices. |
| `QuoteModel.UnpatchedFlow` | apps/web/components/intake-wizard.tsx:2036-2046 | A decided Case Information quote is not patched and stays Rs 2,000 under the server's for a 12-year-old case. |
| `QuoteModel.LastYearWins` | apps/web/components/intake-wizard.tsx:2020-2046 | Patching for one year and then another is patching for the last alone, for every answer the server may have sent, with one exact exception that leaves an explicit zero. |
| `QuoteModel.PatchTwiceIsOnce` | apps/web/components/intake-wizard.tsx:2013-2046 | Patching twice for a year is patching once. |
| `QuoteModel.TypingFollowsTheServer` | apps/web/components/intake-wizard.tsx:2013-2046 | Whatever rule the server matches for each year, if any, the checkout after any run of typed years bills the server's answer for the last one exactly when the first and the last year's rules bill alike and the year's part can be followed. |
| `QuoteModel.TypingKeepsLines` | apps/web/components/intake-wizard.tsx:2013-2046 | After any run of typed years the lines add up and the later part of a split payment is the first answer's. |
| `QuoteModel.BilledLinesAddUp` | apps/api/src/pricing/pricing.service.ts:656-695 | The quote's lines times its city count plus the static delivery charge is its total, and digital flows bill all of it at intake; `CitiesMultiply`, `LowCountBillsOne` and `OtherFlowsBillOne` say which count that is. |
| `QuoteModel.CitiesMultiply` | apps/api/src/pricing/pricing.service.ts:654-693 | A PKR Case Search for n cities, n at least 1, quotes n as its count and bills n times what it bills for one; no other line changes. |
| `QuoteModel.LowCountBillsOne` | apps/api/src/pricing/pricing.service.ts:654-654 | A missing count, or one below 1, quotes and bills as one city. |
| `QuoteModel.OtherFlowsBillOne` | apps/api/src/pricing/pricing.service.ts:654-654 | In every other flow, and in USD, the count sent changes nothing and the quote says one. |
| `QuoteModel.SearchBill` | apps/api/src/pricing/pricing.service.ts:567-692 | Every line and the total of a one-city Case Search: Rs 2,000 a year of age and at least that, Rs 1,000 for a State case, Rs 1,000 for both searches, the rule's PDF amount. |
| `QuoteModel.OtherBill` | apps/api/src/pricing/pricing.service.ts:567-697 | Every line and the two totals of any other PKR order: the bundle's or the rule's base, Rs 1,000 a year beyond ten for a decided case, its extras, and for the four flows with papers the delivery amounts, which are not billed at intake. |
| `QuoteModel.UsdBill` | apps/api/src/pricing/pricing.service.ts:525-555 | A USD order bills the rule's price and nothing else. |
| `QuoteModel.PatchKeepsLines` | apps/web/components/intake-wizard.tsx:2035-2043 | One patch keeps the lines adding up and keeps total less intake amount. |
| `Phone.ByDialDescSorts` | apps/web/components/representatives-board.tsx:50-50 | The sorted list is a permutation, longest dial first, in the original order among equal lengths. |
| `Phone.SortedFindIsBest` | apps/web/components/representatives-board.tsx:59-59 | For every list and digit string, the first match after sorting is the first country with the longest matching dial, or none matches. |
| `Phone.DecomposeIsBest` | apps/web/components/representatives-board.tsx:55-62 | The split of a non-blank value is that reference split, with PK and all digits as the fallback. |
| `Phone.SplitByKnownDial` | apps/web/components/consumer-profile-board.tsx:40-51 | The single scan with strict longer-than gives the same reference split, with an empty code as the fallback. |
| `Phone.ComposedExactly` | apps/web/components/representatives-board.tsx:68-74 | For every typed text: after separators, one plus and the leading zeros the digits are stored behind the dial, or as they are when they start with it. |
| `Phone.DropZerosExactly` | apps/web/components/representatives-board.tsx:71-71 | Exactly the leading zeros go, however many. |
| `Phone.DropSeparatorsExactly` | apps/web/components/representatives-board.tsx:71-71 | White space, hyphens and parentheses go and every other character stays in its place. |
| `Phone.ComposedShape` | apps/web/components/representatives-board.tsx:68-74 | A composed number is a plus, then the dial code, and holds nothing the next compose would strip. |
| `Phone.ComposeIsIdempotent` | apps/web/components/representatives-board.tsx:68-74 | Composing a composed number changes nothing, whatever was typed first. |
| `Phone.ComposeUndoesSplit` | apps/web/components/consumer-profile-board.tsx:194-200 | Composing the parts gives dial plus local back exactly when the local part is non-empty, does not start with 0 and does not start with the dial again. |
| `Phone.DecomposeComposeRoundTrip` | apps/web/components/representatives-board.tsx:55-74 | For every country list and matching digit string, decompose then either compose gives the stored number back under exactly those conditions. |
| `PricingSheet.TiersExactly` | apps/api/scripts/seed-pricing.ts:223-229 | A block's tiers are exactly the recognised header columns in range, each once, left to right. |
| `PricingSheet.LinesExactly` | apps/api/scripts/seed-pricing.ts:230-237 | A block's lines are exactly the listed rows that exist and whose label is recognised. |
| `PricingSheet.SlotsPerBlock` | apps/api/scripts/seed-pricing.ts:241-253 | Case Record never becomes a flow of its own: its headline is Case Files' current year, a Case Files headline is the pending rate, and every other block prices one flow. |
| `PricingSheet.SlotExactly` | apps/api/scripts/seed-pricing.ts:232-253 | Block by block, which label cell decides a row's flow and band, and when a row is recognised at all. |
| `PricingSheet.BlockReadsExactly` | apps/api/scripts/seed-pricing.ts:214-237 | A block is read from its header row's recognised columns, both ends included and left to right, and from those of its listed rows that exist and have a slot. |
| `PricingSheet.HeaderCourtExactly` | apps/api/scripts/seed-pricing.ts:52-62 | A header names a court exactly when its trimmed, upper-cased text starts with one of that court's words. |
| `PricingSheet.RowServiceExactly` | apps/api/scripts/seed-pricing.ts:65-75 | A row label names a service exactly when it starts with that service's words. |
| `PricingSheet.RowBandExactly` | apps/api/scripts/seed-pricing.ts:78-97 | A band label is pending wherever it says so, else current, else the band of the year it starts with. |
| `PricingSheet.ParsedExactly` | apps/api/scripts/seed-pricing.ts:114-131 | A cell is no amount, unavailable, a number or an error, and exactly when its trimmed text says so. |
| `PricingSheet.BlockAt` | apps/api/scripts/seed-pricing.ts:254-259 | A block that parses yields exactly rows x tiers drafts (x 3 in the set-type matrix) in row-then-tier order, each field from its stated column offset or default. |
| `PricingSheet.BlockParses` | apps/api/scripts/seed-pricing.ts:110-131 | A block parses exactly when every cell of every recognised row and tier is blank, "Can't Get" or a number. |
| `PricingParser.Parser.ParseBlock` | apps/api/scripts/seed-pricing.ts:214-399 | The nested loops push exactly the drafts the block says, or stop with the first unparseable cell. |
| `PricingParser.Parser.ParseClerkBlock` | apps/api/scripts/seed-pricing.ts:413-441 | The clerk loops fill the rate map as the block says, cell by cell, or stop with the first unparseable cell. |
| `PricingParser.SheetRatesExactly` | apps/api/scripts/seed-pricing.ts:413-441 | Sheet 5 is read exactly when every clerk cell of every recognised row and tier parses; a key then has a rate exactly when some such cell, six columns right of its tier's header, holds an amount for it, and the rate is the last such cell's. |
| `PricingParser.Parser.ExpectContribution` | apps/api/scripts/seed-pricing.ts:448-460 | A block that adds no draft stops the seed. |
| `LastWriteWins.FileByKey` | apps/api/scripts/seed-pricing.ts:559-571 | The loop's map holds the last value of each key and iterates in first-occurrence order. |
| `LastWriteWins.KeptInFirstOrder` | apps/api/scripts/seed-pricing.ts:571-584 | Kept values stand in the order in which their keys first occurred. |
| `PricingRules.KeyIsDimensions` | apps/api/scripts/seed-pricing.ts:561-561 | Two drafts share the printed key exactly when they agree on region, court, flow, band and set type. |
| `PricingRules.StoredCourtReadsBack` | apps/api/scripts/seed-pricing.ts:42-62 | The name stored for each court, read as a sheet header, is that court again. |
| `PricingRules.HeadlineNeverCollides` | apps/api/scripts/seed-pricing.ts:198-209 | A headline draft never shares a key with a set-type draft. |
| `PricingRules.UniqueIsLastPerDimensions` | apps/api/scripts/seed-pricing.ts:555-571 | Each kept draft is the last of its dimensions, every draft's dimensions are kept, and no two kept drafts share all five. |
| `PricingRules.OverlayInPlace` | apps/api/scripts/seed-pricing.ts:573-582 | The loop assigns each unique draft's clerk cost in place and changes nothing else. |
| `PricingRules.OverlayCommutes` | apps/api/scripts/seed-pricing.ts:576-582 | Laying the clerk rates on before de-duping gives the same drafts as after. |
| `PricingRows.BuildUsdRows` | apps/api/data/usd-pricing.ts:60-94 | The loops push exactly 72 rows: region by region, line by line, court by court. |
| `PricingRows.UsdListCovers` | apps/api/data/usd-pricing.ts:60-94 | Every region, line and court has its row in the list, at the owner's price in dollars, with its six dimensions, no extra amounts and the stated priority. |
| `PricingRows.BackwardBandsPartition` | apps/api/scripts/seed-pricing.ts:99-107 | The five backward year bands split the years up to 2025 without gap or overlap. |
| `PricingRows.DerivedBandHoldsTheYear` | packages/shared/src/index.ts:800-814 | The band asked for a year is a stored band, and its stored years hold that year exactly unless the year lies after 2025 and before the current one. |
| `PricingSeed.BuildJudicialRows` | apps/api/scripts/seed-pricing.ts:481-623 | The build is the pure form: eight contributing blocks, Sheet 5 or its waiver, de-dupe, overlay, floor of 350, rows. |
| `PricingSeed.Seed` | apps/api/scripts/seed-pricing.ts:645-701 | The seed succeeds exactly when every guard passes; the table then holds exactly judicial, non-judicial and USD rows, and otherwise it is untouched. |
| `PricingSeed.SucceedsExactly` | apps/api/scripts/seed-pricing.ts:448-460 | The build and the clerk-rate guard pass exactly when both sheets exist, every block contributes, Sheet 5 parses or is waived, 350 unique drafts remain and no rate lies strictly between 0 and 50 unless waived. |
| `PricingSeed.ContributesExactly` | apps/api/scripts/seed-pricing.ts:448-460 | A block contributes exactly when it has a recognised row and a recognised tier column and every cell of theirs parses. |
| `PricingSeed.SheetsDecide` | apps/api/scripts/seed-pricing.ts:490-552 | Drafts can be gathered exactly when both sheets exist and all eight blocks are filled, and rates exactly when Sheet 5 parses or its absence is waived: cells and flags alone decide. |
| `PricingSeed.RebuiltRows` | apps/api/scripts/seed-pricing.ts:555-641 | Every judicial row of a successful seed comes from the last draft of its dimensions, which some block, line and tier of the sheets say column by column; it carries that draft's base, PDF and delivery amounts each in its own column, its band's years and its priority, and as clerk cost the last Sheet 5 amount for its key, or the draft's own without one. Every draft has a row; there are at least 350, and no clerk rate lies strictly between 0 and 50 unless waived. |
| `PricingSeed.GatherAt` | apps/api/scripts/seed-pricing.ts:490-545 | Each draft of each block stands in the buffer behind the drafts of the blocks before it, in its own order, and no other draft is there. |
| `PricingSeed.RebuiltIsDistinct` | apps/api/prisma/schema.prisma:668-668 | No two rows of the rebuilt table share their six dimensions, so the insert never meets the unique constraint. |
| `PricingReseed.SeedUsd` | apps/api/scripts/seed-usd-pricing.ts:19-34 | The USD script replaces only USD rows, never clashes, and leaves the table alone on a fault. |
| `PricingReseed.SeedNonJudicial` | apps/api/scripts/seed-non-judicial-pricing.ts:28-47 | The non-judicial script replaces only its three flows, never clashes, and leaves the table alone on a fault. |
| `PricingReseed.RowsAfterUsd` | apps/api/scripts/seed-usd-pricing.ts:28-31 | After the USD script the table holds exactly the other currencies' rows of before and the new list. |
| `PricingReseed.RowsAfterNonJudicial` | apps/api/scripts/seed-non-judicial-pricing.ts:14-41 | After the non-judicial script the table holds exactly the other flows' rows of before and one flat PKR row for each of the three flows, at its price. |
| `PricingReseed.UsdReseed` | apps/api/scripts/seed-usd-pricing.ts:28-31 | The USD reseed keeps all PKR rows in order and is idempotent. |
| `PricingReseed.NonJudicialReseed` | apps/api/scripts/seed-non-judicial-pricing.ts:38-41 | The non-judicial reseed keeps all other flows in order and is idempotent. |
| `PricingReseed.ReseedsCommute` | apps/api/scripts/seed-non-judicial-pricing.ts:38-41 | Either order of the two reseeds leaves the same rows. |
| `PricingReseed.ReseedsKeepSeededTable` | apps/api/scripts/seed-pricing.ts:684-695 | Each reseed is the identity on the rows a full seed left. |
| `GeoLookup.LastCityWins` | apps/api/scripts/seed-geo.ts:145-151 | Inside a province the last city of a lower-cased name is the one looked up. |
| `GeoLookup.FirstProvinceWins` | apps/api/scripts/seed-geo.ts:152-155 | Across provinces the first province that has the name is the one looked up. |
| `GeoLookup.BuildMaps` | apps/api/scripts/seed-geo.ts:141-155 | The loops build exactly those two maps. |
| `GeoLookup.ResolveEntry` | apps/api/scripts/seed-geo.ts:180-198 | The loop resolves an entry to the city ids whose meaning in the database's records `EntryCitiesExactly` gives. |
| `GeoLookup.EntryCitiesExactly` | apps/api/scripts/seed-geo.ts:180-198 | In terms of the province and city records: a fan-out name sits in the cities of its names, each in the entry's province before the country; any other name sits in one city at most, the province's last city written so, else the province's last city of the alias, else that of the first province that has the alias. |
| `GeoLookup.FanOutInOrder` | apps/api/scripts/seed-geo.ts:184-191 | A fan-out list is resolved name by name, in order, each to one city at most. |
| `GeoLookup.DistrictExactly` | apps/api/src/geo/court-alias.ts:300-321 | A district's seat is the first province's city of its name, else, when it has one, of its alias. |
| `GeoLookup.ResolveSpecialSeats` | apps/api/src/geo/court-alias.ts:300-321 | The seat cities are exactly those some district resolves to, each once, and the unresolved list exactly the districts that resolve to none. |
| `GeoWalk.SeatBuilder.GetOrCreateCourt` | apps/api/scripts/seed-geo.ts:160-169 | The memo stays one-to-one: a key gets one court id, created at its first use. |
| `GeoWalk.SeatBuilder.WalkCourts` | apps/api/scripts/seed-geo.ts:171-225 | The four nested loops write the fold over all entries in walk order. |
| `GeoWalk.SeatBuilder.WalkSpecials` | apps/api/scripts/seed-geo.ts:250-255 | Every special court is created and seated on every seat city, or created with no seat. |
| `GeoSeats.CourtKeyIsPair` | apps/api/scripts/seed-geo.ts:161-162 | With a type free of `|` the memo key names one (type, name) pair. |
| `GeoSeats.PipeMergesCourts` | apps/api/scripts/seed-geo.ts:162-162 | With a `|` in a type two different courts can share a key. |
| `GeoSeats.BuiltFlag` | apps/api/scripts/seed-geo.ts:171-255 | For every court key and city, the first flag written is the first entry's that asks for it, else false from the tehsil or special pass, else none. |
| `GeoSeats.BuiltIsDeclared` | apps/api/scripts/seed-geo.ts:206-221 | For every court list: a seat under a court's key is built exactly when some court with that key is declared in the city; when no type holds a `|` that is the court itself, and the flag is its first entry's. |
| `GeoSeats.PlacesAreListed` | apps/api/scripts/seed-geo.ts:171-178 | The walk visits exactly the entries of the court list, each under its type, sub-court and province. |
| `GeoSeats.PlacesInOrder` | apps/api/scripts/seed-geo.ts:171-178 | It visits the court types in list order, and within one the sub-courts, provinces and entries likewise. |
| `GeoSeats.DeclaredExactly` | apps/api/scripts/seed-geo.ts:171-255 | A seat is declared exactly when, in the database's records, a listed entry of that type sits in the city and asks for the court, a listed tehsil does for a lower court, or a district's seat does for a special court. |
| `GeoSeats.BuiltCourts` | apps/api/scripts/seed-geo.ts:160-169 | A court key is created exactly when some seat is built for it or it is a listed special court's. |
| `GeoSeats.DedupeSeats` | apps/api/scripts/seed-geo.ts:257-265 | The filter with its seen set keeps the first row of each (court, city). |
| `GeoSeats.KeptRows` | apps/api/scripts/seed-geo.ts:258-265 | No (court, city) repeats, none is lost, and each keeps the first flag written for it. |
| `GeoSeats.UnresolvedExactly` | apps/api/scripts/seed-geo.ts:199-204 | The unresolved map names exactly the (province, city) of entries that resolve nowhere, Special Court entries included. |
| `GeoSeats.SeedGeo` | apps/api/scripts/seed-geo.ts:55-301 | The script commits exactly when every entry and every district sits in some city of the records or gaps are allowed; when no type holds a `|` the court table then holds each court with a declared seat and each listed special court, once and no other, and the seat table each seat declared by the records once, with the flag of the first entry in walk order that asks for it (by key otherwise); if it does not commit all tables are as before. |
| `CaseTypes.ExpandDsjBySubCourt` | apps/api/scripts/seed-case-types.ts:61-82 | The loop's output is the expansion function, whose properties follow. |
| `CaseTypes.ExpansionKeepsRows` | apps/api/scripts/seed-case-types.ts:61-82 | Output rows stand in input order, differ from their own input only in `subCourt`, and every input row has one. |
| `CaseTypes.ExpansionLength` | apps/api/scripts/seed-case-types.ts:69-76 | The output has one row per row, and one per inferred sub-court for rows that expand. |
| `CaseTypes.ExpansionIsIdempotent` | apps/api/scripts/seed-case-types.ts:61-82 | Expanding twice is expanding once exactly when no expandable label is given an empty sub-court beside others. |
| `CaseTypes.KeyRoundTrip` | apps/api/scripts/seed-case-types.ts:129-140 | Printing a cohort and splitting the key gives the cohort back (null and empty identified) exactly when no field holds a `|`. |
| `CaseTypes.LoadSources` | apps/api/scripts/seed-case-types.ts:86-99 | Loading refuses exactly when some file has fewer rows than its floor, and otherwise returns the rows whose places `AllRowsAt` gives. |
| `CaseTypes.AllRowsAt` | apps/api/scripts/seed-case-types.ts:86-99 | Row k of source j stands behind all rows of the sources before it, plus k, and the length is the sum of all sources'. |
| `CaseTypes.ExpandedExactly` | apps/api/scripts/seed-case-types.ts:61-82 | The expanded rows are exactly those the given ones stand for: one per inferred sub-court for a district-court row without one, else the row itself. |
| `CaseTypes.CohortKeys` | apps/api/scripts/seed-case-types.ts:114-133 | The set loops collect exactly the cohort keys, in first-occurrence order. |
| `CaseTypes.CohortsAreTheUnion` | apps/api/scripts/seed-case-types.ts:111-128 | A cohort is represented exactly when a scraped row has it or a hardcoded row of it prints a key no scraped row prints; for a cohort without a `|` that is when a scraped or hardcoded row has it, whatever the other rows hold. |
| `CaseTypes.FallbacksAreUncovered` | apps/api/scripts/seed-case-types.ts:119-123 | A snapshot row is kept exactly when no scraped row prints its key; without a `|` in its cohort, when no scraped row shares the cohort. |
| `CaseTypes.OneOtherPerCohort` | apps/api/scripts/seed-case-types.ts:134-152 | A represented cohort has a generated "Other" row exactly when its fields hold no `|`; when none does anywhere, each has exactly one and no other cohort has any. |
| `CaseTypes.OthersAreBlank` | apps/api/scripts/seed-case-types.ts:134-152 | A generated row has no district, code and label "Other", priority -1, and null for every empty field. |
| `CaseTypes.SkippingLosesNothing` | apps/api/scripts/seed-case-types.ts:160-173 | Skipping duplicates on insert loses no cohort and never a row without a district. |
| `CaseTypes.InsertedExactly` | apps/api/scripts/seed-case-types.ts:160-173 | The insert keeps every row, its missing priority taken as 0, but those equal in six filled columns to a kept one, and adds none. |
| `CaseTypes.SeedCaseTypes` | apps/api/scripts/seed-case-types.ts:84-179 | The seed succeeds exactly when connected and no source is under its floor; the table is then exactly the rows `SeededTable`, `SnapshotFillsGaps` and `TableRowsAre` describe, and is untouched otherwise. |
| `CaseTypes.SeededTable` | apps/api/scripts/seed-case-types.ts:86-173 | After the seed, for every source: each row that one of its rows stands for is in the table or one equal in the six columns is, so each of its cohorts is there; and every scraped or snapshot cohort without a `|` is there with a generated "Other" row, whatever the other rows hold. |
| `CaseTypes.CohortSeeded` | apps/api/scripts/seed-case-types.ts:126-152 | A represented cohort has a generated row in the table exactly when its fields hold no `|`. |
| `CaseTypes.SnapshotFillsGaps` | apps/api/scripts/seed-case-types.ts:111-123 | A snapshot row whose cohort has no `|` and no row of any source is kept, marked as a fallback. |
| `CaseTypes.TableRowsAre` | apps/api/scripts/seed-case-types.ts:111-173 | The table holds nothing else: rows some source stands for, snapshot rows of cohorts no source has, and generated rows of cohorts without a `|`. |
| `Wipe.Database.Clear` | apps/api/scripts/clear-ticket-data.ts:101-163 | Refused exactly when unsafe, a dry run changes nothing, anything but success leaves the database as it was, and success is exactly all steps, the wallet reset and the commit without a fault, reporting their counts. |
| `Wipe.WalletsZeroed` | apps/api/scripts/clear-ticket-data.ts:133-139 | The reset empties every user's wallet and changes nothing else of any row; it reports the users whose balance was not 0. |
| `Wipe.ChildFirstWipes` | apps/api/scripts/clear-ticket-data.ts:34-59 | For every child-first order and every database the wipe meets no foreign-key error, empties exactly the listed tables, reports the initial counts, and leaves other rows with only their set-null references cleared. |
| `Wipe.SurvivorsExactly` | apps/api/scripts/clear-ticket-data.ts:9-12 | What is left is exactly each row of another table without its set-null references to rows of the listed tables, and otherwise as it was. |
| `Wipe.DeletesExactly` | apps/api/prisma/schema.prisma:903-903 | One `deleteMany` fails exactly when a row that stays restricts one that goes; otherwise every other row stays without its references to rows that went. |
| `Wipe.DoomedIsLeast` | apps/api/prisma/schema.prisma:359-359 | What goes is the least set that holds the table's rows and is closed under cascades. |
| `Wipe.NoOrphans` | apps/api/scripts/clear-ticket-data.ts:9-12 | The wipe leaves no dangling reference. |
| `Wipe.UntouchedExactly` | apps/api/scripts/clear-ticket-data.ts:119-119 | The other tables are untouched exactly when none of their rows points at a wiped one through a set-null column. |
| `Wipe.AttachedFileIsChanged` | apps/api/prisma/schema.prisma:903-903 | A personal file attached to a ticket makes the kept rows differ: its attachment is set to null. |
| `Wipe.RealSchemaIsChildFirst` | apps/api/scripts/clear-ticket-data.ts:39-59 | The script's order is child-first for the schema's relations. |
| `Wipe.RealWipe` | apps/api/scripts/clear-ticket-data.ts:126-140 | So with this schema the wipe always succeeds short of a fault, with the plan's counts. |
| `Wipe.TicketsAloneAreBlocked` | apps/api/scripts/clear-ticket-data.ts:9-12 | Deleting tickets on their own fails in every database where one has status history. |

## Left out

- The edit-ticket path of the wizard protocol, which saves no draft and reprices an existing ticket, and the case linkage of a new one.
- The time between a prefill and React's commit of its draft in the wizard protocol: the prefill event is the commit (the courts' flags and city are modelled with it).
- The 5-second delay of the autosave timer: an armed timer may fire at any time.
- `validateAllSteps` before a submit in the protocol: a submit may start from any form, which only adds runs.
- The captured-closure identity of React callbacks: a timer holds the draft it was armed with, a submit the files it started with.
- A save answer without an id that is not suppressed: it acts like a suppressed one.
- IntakeWizardComponent.IntakeWizard.SetFileCaption: does not keep the arrays parallel past the last file, because the backfill loop does not either; the contract says exactly when.
- Focus, toasts, tours, routing and all rendering; only state fields are modelled.
- `validateField` on blur, and the choice between flow steps and display steps: `RejectedNotAfterLanding` compares the scan and the gate over one list of steps and one payload.
- How a pricing rule is matched (bands, fallbacks, priority) and the clerk-report override of per-page rates, which the consumer's total does not include.
- Taxes, wallet credit and the promo discount in the checkout total: linear in the quote.
- PricingParser.Parser.ParseBlock: one method for the four block parsers, which differ only in the tier columns and in what counts as a recognised row; drafts are values, so sharing of draft objects between the buffer and the map is not modelled (only the buffer's length is read afterwards).
- Which cell is unparseable inside one workbook matters only through its text; line numbers are not reported by the source either.
- The concrete price, USD and country tables, and the alias and court lists: data.
- The decimal columns of the rule table hold `real` values exactly.
- Police stations and the id generation of provinces, districts and cities in the geo seed: plain copies.
- The order of `findMany` results is a parameter, so nothing depends on it.
- Which of two courts merged under one memo key keeps its name (a court type holding a `|`): `SeedGeo` then speaks of keys, and the committed court list has no such type.
- `inferDsjSubCourts` itself: a table of label patterns.
- In the wipe, a RESTRICT key whose child is also cascaded by the same statement counts as not blocking, and a null audit trail or soft link without a foreign key is not a reference.
- The finer text of messages and the printed plan.
- Boards that only fetch and filter, authentication, throttling, `backfill-user-currency.ts` and navigation counts: thin or easy.
