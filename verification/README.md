# Verified model of the issuer-lib certificate issuance protocol

Two controllers cooperate to issue certificates. The issuer controller checks an issuer and stamps its
Ready condition with the generation it checked. The request controller waits until a request is approved
and its issuer is ready, calls `Sign`, and turns the answer into a status patch and a decision about
requeueing; a `Sign` error that blames the issuer is handed back to the issuer controller through an event
store. Watch predicates and an index decide which object changes wake which reconciler.

This project models that protocol in Dafny: CertificateRequests (CR) and Kubernetes
CertificateSigningRequests (CSR), the two reconcilers, the event store, the four update predicates, the
index, and the condition upserts. It proves what holds over whole runs and interleavings.

## Layout

| files | content |
|---|---|
| `Conditions`, `Transitions`, `ServerSideApply` | condition lists as maps, transition times, forced apply |
| `SignerErrors`, `ErrorPaths`, `ErrorOutcomes`, `Reports` | nested errors, what the search in them finds, and what they lead to on both sides |
| `Requirements` | what a reconcile must do, said about the objects and errors themselves |
| `Requests`, `IssuerTypes`, `Watch` | the objects, issuer lookup, signer names, the index and its fan-out |
| `Patches`, `PatchHelpers` | the status patches: what they are, and the classes that build them in place |
| `EventStore`, `ReportProtocol` | the event store, and all interleavings of reporters and issuer workers |
| `Predicates`, `SkippedRequeue`, `Resting` | what a filtered event, and a chain of them, leaves unchanged |
| `RequestController`, `IssuerController`, `ControllerRuntime` | the reconcilers as classes, refining the pure functions `Plan` |
| `Lifecycle`, `RequestRuns`, `IssuerRuns` | one lifecycle for both kinds, runs of a request, runs of an issuer |
| `SignAfterCheck` | both controllers interleaved around one issuer |
| `Wakeups`, `IssuerWakeups` | all that can wake a request, and all that can wake an issuer |
| `ReportedSleep` | a request, the report protocol and the issuer's reconciles in one system |
| `RunBuilding`, `StaleReads`, `StrandedRuns`, `StrandedIssuers` | runs that end badly, one for each exception of the wake-up theorems |

Code that the source writes as a loop or as updates of fields is a method or a class here, proved against
a function (`Plan`, `Upsert`, `InitialPatch`, ...). The theorems are about these functions and the step
systems built from them.

## What is assumed of the environment

- A forced apply is a merge keyed by condition type. Types in the patch are overwritten or appended; types
  owned only by this field manager and left out of the patch are dropped. Ownership is not tracked, so
  results hold for an arbitrary set of dropped types.
- The work queue keeps a waiting list, a dirty set and a processing set, and never hands out a key that is
  being processed; its order is not used. controller-runtime repeats a reconcile that asks for a requeue or returns an error,
  except an error that contains a terminal error, also inside an aggregate.
- Stored condition lists have unique types. Generations never decrease. Users do not write the Ready
  condition of an issuer. In runs of a request, others leave alone the fields in which the controller keeps
  the lifecycle (`RequestRuns.Respects`), and the request is not deleted.
- Clock, reads, hooks, `Check`, `Sign`, lost patches and edits are arbitrary inputs; errors of `Check` and `Sign`
  may be nested and joined in any way and may contain a terminal error of controller-runtime, those of the API
  client may not. One reconcile uses one
  clock reading. Names of real objects hold no slash.
- `Wakeups` and `IssuerWakeups` let the cache lag behind the stored versions, this controller's own patches included, and run
  ahead of the handled events; in `Wakeups` a list call may fail. `SignAfterCheck` lets every read return any older version.
- In both, every stored version gives one watch event. A relist after a broken watch can merge several
  updates into one; a custom condition that the patch sets and somebody resets in between is then never seen.
- An issuer error always wraps an error; the source would panic on a nil one
  (internal/kubeutil/source_channel.go:62).

## Where the code does less than one might expect

- **Stale reads.** Reads go through a cache, and the status patch is a forced apply that is not tied to the
  version read. A reconcile that read a version from before this controller's own last patch can change a
  finished CR again, and nothing but such a read can; `Wakeups.FinishedIsChangedExactly` says from the inputs
  when it does, and to which phase. So an issued CR can be signed a second time with its certificate replaced,
  failed, or opened again (`StaleReads.StaleReadsCanOverwrite`), and a request can be left asleep although it
  could go on (`StaleReads.StaleReadsCanStrand`), for every approved and initialised CR with a ready issuer.
- **Failed list call.** An issuer event whose list call fails wakes nobody
  (internal/kubeutil/watch.go:122-125), so a request that waits for the issuer can be left asleep
  (`StrandedRuns.FailedListCanStrand`).
- **Lost patch with a terminal error.** When the status patch fails and the reconcile itself returned a
  terminal error, both are put into one aggregate (controllers/request_controller.go:116 and 128). The
  comment says it is requeued, but a terminal error inside an aggregate is still terminal.
  `ErrorOutcomes.LostPatchIsRetriedExactly`: the lost patch is not retried if and only if Sign was called and
  its error is neither the issuer's fault nor pending, and it is permanent, past the deadline, asks for a
  condition that changes, or contains a terminal error. `StrandedRuns.LostPatchStrands` is a run for each such
  error. The issuer's controller does the same (controllers/issuer_controller.go:97-117):
  `IssuerWakeups.LostPatchIsRetriedExactly`, `StrandedIssuers.LostPatchStrands`.
- **Terminal error inside an error to retry.** An error of `Sign` or `Check` that is to be retried is returned as
  it is (controllers/request_controller.go:348, controllers/issuer_controller.go:243). If it contains a terminal
  error of controller-runtime, it is not retried: `StrandedRuns.TerminalErrorStrands`,
  `StrandedIssuers.TerminalErrorStrands`.
- **Consumed report.** A report is deleted before the issuer is read (controllers/issuer_controller.go:136-143).
  It decides the status if and only if the issuer is found with Ready=True and no hook holds the reconcile
  back (`Reports.ReportDecidesExactly`). Otherwise it is gone, and a later successful check makes an update
  that wakes nobody (`Reports.ConsumedReportWakesExactly`).
- **Report about an older generation.** A report is used whenever Ready is True, even if it is stamped with
  an older generation (controllers/issuer_controller.go:204). Every issuer can so be failed permanently at a
  generation that was never checked (`SignAfterCheck.OldReportFailsUncheckedGeneration`), and this is the only
  way (`SignAfterCheck.DecidesUnaskedExactly`).
- **Stale reads of an issuer.** A reconcile that reads a version from before a permanent failure can undo it at the
  same generation (`IssuerRuns.StaleReadUndoesFailure`); a failure stays if and only if every reconcile reads a
  failed version or is held back by a hook (`IssuerRuns.PermanentFailureIsFrozen`). One that reads an older Ready
  condition can give the new one the wrong date (`IssuerRuns.StaleReadMisdates`), exactly if the older one gives
  another date (`IssuerRuns.DatedWellExactly`). And an issuer can be left asleep with an error that is to be
  retried (`StrandedIssuers.StaleReadsCanStrand`).
- **Custom condition of type Ready.** Skipping the requeue is safe for every other type
  (`SkippedRequeue.SkippingIsSafe`). For Ready on an initialised CR the update passes if and only if the apply
  happens to drop another condition (`SkippedRequeue.SkippingOnReadyPassesExactly`,
  `StrandedRuns.CustomReadyStrands`).
- **Empty chain on a CSR.** `Sign` may succeed with an empty chain; the CSR then stays open and is not
  repeated, and its update passes if and only if the apply happens to drop a condition
  (`SkippedRequeue.EmptyChainPassesExactly`, `StrandedRuns.EmptyChainStrands`).
- **Custom condition Failed or Denied with status True on a CSR.** It ends the request although the controller
  reports it as pending or retryable; `Lifecycle.ReconcileRefinesLifecycle` says that this is the only
  deviation from the common lifecycle.
- **Denied without Approved.** The repository's own README.md (lines 87-95) has a denied CR marked as denied.
  The code ignores it unless it is approved too: `Requirements.DenialNeedsApproval`.
- **Ready replaced by another type.** The CR predicate misses this one change outside Ready, and no other
  (`Predicates.CertificateRequestUpdateExact`); the controller's own patches never make it
  (`SkippedRequeue.OwnWritesKeepReady`).

## Model

| member | source | states |
|---|---|---|
| `Wakeups.NoLostWakeup` | controllers/request_controller.go:149-351 | In every interleaving of edits, cache updates, watch events, failed list calls, reconciles with reads of any age and retries, a request that sleeps with no wake-up under way has nothing to do (foreign, unapproved, finished, or initialised and waiting for an issuer that is still not ready), or it is the issuer's move, unless its last reconcile is one of the six listed exceptions |
| `Wakeups.InvStep` | controllers/request_controller.go:149-351 | Each of the twelve kinds of steps keeps the wake-up invariant: since the worker read request and issuer, no passing event was handled without marking the request dirty or a failed list call, and the patch of a reconcile that read no stale version follows others' edits only |
| `Wakeups.SleepIsExplained` | controllers/request_controller.go:149-351 | If a sleeping request's last reconcile read no stale version, it was followed only by filtered updates; if it waited, the issuer of today still is not ready; if it reported, the Ready condition of the issuer still is the one it saw; a failed list call aside |
| `Wakeups.UsedReportEndsSleep` | controllers/request_controller.go:280-294 | In every run, as long as a request sleeps after reporting an error and no list call failed, no patch of a reconcile that used a report has been applied to the issuer since the request read it |
| `Wakeups.FinishedIsChangedExactly` | controllers/request_controller.go:104-131 | In terms of the inputs: a step changes a finished CR if and only if it is an edit by others, which keeps the phase, or a reconcile that read a version from before this controller's own last patch, passes gates and hook, does not lose its patch, and has to initialise, or reads the issuer and waits for it or gets any answer of Sign but an issuer error that nobody takes; the phase is then the one that these inputs lead to |
| `StaleReads.StaleReadsCanStrand` | controllers/request_controller.go:104-198 | For every approved, initialised and open CR with a ready issuer there is a run that issues it, opens it again and leaves it asleep for good, with nothing dropped, lost or missed but two stale reads |
| `StaleReads.StaleReadsCanOverwrite` | controllers/request_controller.go:104-351 | For every such CR, and every answer of Sign short of blaming the issuer, there is a run in which a stale reconcile writes that answer over the issued CR: another certificate, a failure, or open again |
| `StrandedRuns.FailedListCanStrand` | internal/kubeutil/watch.go:107-143 | For every such CR whose issuer is not ready there is a run in which the issuer becomes ready, the list call fails and the CR is left asleep, with nothing stale, dropped or lost |
| `StrandedRuns.TerminalErrorStrands` | controllers/request_controller.go:337-349 | For every such CR with a ready issuer there is a run in which an error to retry that contains a terminal error leaves it asleep |
| `StrandedRuns.LostPatchStrands` | controllers/request_controller.go:113-131 | For every such CR, and every error that is returned as terminal, there is a run in which the patch is lost and the CR left asleep, open |
| `StrandedRuns.CustomReadyStrands` | controllers/request_controller.go:322-327 | For every such CR, and every condition of type Ready that changes its status, there is a run in which a pending error that asks for it leaves the CR asleep |
| `StrandedRuns.EmptyChainStrands` | controllers/request_objecthelper_certificatesigningrequest.go:171-175 | For every approved and open CSR with a ready issuer there is a run in which a success with an empty chain leaves it asleep, open |
| `StrandedRuns.StrandedInstance` | controllers/request_controller.go:104-351 | One concrete request, left asleep by stale reads, by a failed list call and by a terminal error |
| `ReportedSleep.SleepingReporterIsAccounted` | controllers/request_controller.go:280-294 | With the request, the report protocol and the issuer's reconciles interleaved in one system: the report of a request that sleeps after reporting, no list call having failed, is stored for its issuer with somebody due to read it, or overwritten by a later one, or in the hand of a worker, or was acted on without use or with its patch lost; it has not been applied |
| `ReportedSleep.InvStep` | internal/kubeutil/source_channel.go:54-80 | Every step of that system keeps the invariants of both parts, accounts for every loaded report, and has the request's own report applied only after the request read the issuer |
| `IssuerWakeups.NoLostWakeup` | controllers/issuer_controller.go:128-245 | In every interleaving of edits, cache updates, watch events, reports, reconciles with reads of any age and retries, an issuer that sleeps with no wake-up under way does not exist, or its Ready condition holds the verdict for its generation, unless its last reconcile read a stale version, was ignored by the hook, or looked at an error that stops retries and lost its patch or was to be retried |
| `IssuerWakeups.InvStep` | controllers/predicates.go:174-212 | Each of the nine kinds of steps keeps the wake-up invariant of the issuer |
| `IssuerWakeups.LostPatchIsRetriedExactly` | controllers/issuer_controller.go:97-117 | In terms of its inputs: an issuer's reconcile whose patch was lost is repeated unless, and only unless, the error it looks at is permanent or contains a terminal error |
| `IssuerWakeups.RepeatedExactly` | controllers/issuer_controller.go:136-245 | In terms of its inputs: an issuer's reconcile whose patch is not lost is repeated if and only if it cannot read the issuer, or finds one that has not failed for its generation and the hook fails, or lets it through to an error, of Check or reported, with neither a permanent nor a terminal error in it |
| `StrandedIssuers.StaleReadsCanStrand` | controllers/issuer_controller.go:128-245 | For every issuer there is a run in which a stale reconcile overwrites a permanent failure with an error to retry, and the retry sees the failure and rests |
| `StrandedIssuers.TerminalErrorStrands` | controllers/issuer_controller.go:233-244 | For every issuer there is a run in which an error of Check to retry that contains a terminal error leaves it asleep, not ready |
| `StrandedIssuers.LostPatchStrands` | controllers/issuer_controller.go:97-117 | For every issuer and permanent error of Check there is a run in which the patch is lost and the issuer left asleep, initialising |
| `ErrorOutcomes.RepeatedExactly` | controllers/request_controller.go:149-351 | In terms of its inputs: a reconcile whose patch is not lost is repeated if and only if a read, the hook or the report fails, or Sign was called and its error, with no condition in it that changes, is pending, or neither permanent nor late nor containing a terminal error |
| `ErrorOutcomes.LostPatchIsRetriedExactly` | controllers/request_controller.go:113-131 | In terms of its inputs: a reconcile whose patch was lost is repeated unless, and only unless, Sign was called and failed with neither an issuer nor a pending kind, and it was permanent, past the deadline, asks for a condition that changes, or contains a terminal error |
| `Resting.AtRestMeansNothingToDo` | controllers/request_controller.go:156-270 | The resting states are exactly those in which a reconcile with fresh reads neither initialises nor calls Sign |
| `Resting.RestAfterInitialising` | controllers/request_objecthelper_certificaterequest.go:119-148 | After an initialising patch, a chain of updates that the predicate filters out entirely is possible only if the request has come to rest |
| `Resting.RestAfterWaiting` | controllers/request_controller.go:237-270 | After a reconcile that found the issuer not ready, a silent chain leaves the request initialised and waiting |
| `Resting.RestAfterFinishing` | controllers/request_controller.go:272-351 | A patch that issues or fails a request of either kind leaves it finished, whatever others do around it |
| `Resting.WaitingLasts` | controllers/predicates.go:130-161 | As long as no creation, deletion or passing update of the linked issuer occurs, a missing or not ready issuer stays one to wait for |
| `SkippedRequeue.SkippingPatchCarries` | controllers/request_controller.go:296-350 | The patch of a pending or retryable exit still carries the changed custom condition, unless it is Ready on a CR |
| `SkippedRequeue.SkippingIsSafe` | controllers/request_controller.go:322-349 | Whatever others did between read and apply, and whatever the apply drops, some update from the version read to the version patched passes the request's predicate |
| `SkippedRequeue.SkippingOnReadyPassesExactly` | controllers/request_objecthelper_certificaterequest.go:190-206 | For a custom condition of type Ready on an initialised CR, the update passes if and only if the apply drops a condition other than Ready |
| `SkippedRequeue.EmptyChainPassesExactly` | controllers/request_objecthelper_certificatesigningrequest.go:50-52 | A CSR signed with an empty chain stays open and is not repeated, and its update passes if and only if the apply drops a condition |
| `SkippedRequeue.OwnWritesKeepReady` | controllers/predicates.go:56-72 | No CR patch of the controller, applied to any stored list with any drops, replaces Ready by another type, so for its own writes the predicate is false if and only if the statuses outside Ready are equal |
| `SignAfterCheck.SignOnlyAfterCheck` | controllers/request_controller.go:249-272 | With any number of workers, reads of any older version and read, check and patch as separate steps, every Sign call with an issuer read at a generation comes after a Check at exactly that generation that returned nil |
| `SignAfterCheck.InvStep` | controllers/issuer_controller.go:203-221 | Every step keeps: Ready is stamped at most with the version's generation, True means that generation was checked successfully, and True or False means Check was called for it or a report on an older one was used, in all versions and in all patches under way |
| `SignAfterCheck.StampedOnlyAfterCheckOrOldReport` | controllers/issuer_controller.go:203-244 | In every run, Ready is True or False only for generations at which Check was called, or for which a report on a Ready condition of an older generation was used |
| `SignAfterCheck.DecidesUnaskedExactly` | controllers/issuer_controller.go:203-210 | A reconcile that writes True or False leaves its generation without any Check if and only if it uses a report on a Ready=True of an older generation and nobody called Check for it before |
| `SignAfterCheck.OldReportFailsUncheckedGeneration` | controllers/issuer_controller.go:203-244 | For every issuer, later generation and permanent error there is a run that fails the issuer permanently at that generation without any Check at it |
| `ReportProtocol.NoReportLost` | internal/kubeutil/source_channel.go:54-80 | In every interleaving each report is delivered exactly once, or overwritten and never delivered, or still stored with somebody due to read it |
| `ReportProtocol.InvRun` | internal/kubeutil/source_channel.go:54-80 | Queue, pending and ledger invariants hold over every run, and the fate of a settled report never changes |
| `ReportProtocol.PendingStep` | controllers/issuer_controller.go:136-137 | A stored error's key is dirty, or held by a worker that has not read it, or its reporter stands between store and enqueue |
| `ReportProtocol.RestMeansEmpty` | internal/kubeutil/source_channel.go:65-80 | With an empty queue and no worker or reporter active, nothing is stored |
| `EventStore.EventSource.HasReportedError` | internal/kubeutil/source_channel.go:54-63 | Returns the stored error of the key, if any, and removes it and nothing else |
| `EventStore.EventSource.ReportError` | internal/kubeutil/source_channel.go:65-80 | Refuses a kind without consumer; otherwise stores the error and makes the key dirty in that kind's queue only |
| `EventStore.EventConsumer.Start` | internal/kubeutil/source_channel.go:82-120 | Registers the queue if its kind has none, and at most once |
| `Lifecycle.ReconcileRefinesLifecycle` | controllers/request_controller.go:175-351 | Both kinds of requests move through Open, Issued, Failed and Denied by the same exits, for every apply, if and only if no custom condition decides the CSR |
| `Requirements.SignIsCalledExactly` | controllers/request_controller.go:149-278 | Sign is called if and only if the request refers to one of the issuer types, has an Approved condition with status True and no verdict (for a CR a Ready condition that is True, or False with reason Failed or Denied; for a CSR a certificate, or a True Failed or Denied condition), is not ignored, needs no initialising, and its issuer's first Ready condition is True and not older than the issuer's generation |
| `Requirements.WaitsExactly` | controllers/request_controller.go:226-270 | An admitted request is initialised if and only if it is a CR with no Ready condition or a True Denied condition, and otherwise waits if and only if its issuer is missing or not ready for its generation |
| `Requirements.OthersAreLeftAlone` | controllers/request_controller.go:156-216 | A request that is not admitted, in particular one without a True Approved condition, gets no patch, no Sign and, unless the hook failed, no requeue |
| `Requirements.TestsReadTheStatus` | controllers/request_objecthelper_certificatesigningrequest.go:42-56 | Each test of a request of either kind looks for the condition, or the certificate, that it is named for, anywhere in the list |
| `Requirements.ErrorIsJudgedExactly` | controllers/request_controller.go:280-350 | An error of Sign is reported or refused if and only if it contains an issuer error; else pending if and only if it contains a pending one; else the request fails if and only if it contains a permanent one or more than the retry duration has passed since the creation of the request |
| `Requirements.ReportsOutermost` | controllers/request_controller.go:282-286 | What is reported is the error inside the outermost issuer error, to the issuer that the request refers to |
| `Requirements.PatchHoldsTheAnswer` | controllers/request_objecthelper_certificaterequest.go:244-256 | The certificate of a patch is the chain that Sign returned, the CA is its CA, on a CR and where configured, and the custom condition is that of the outermost condition error |
| `Requirements.TransitionsExactly` | controllers/request_objecthelper_certificaterequest.go:202-205 | A custom condition counts as changed if and only if the first condition of its type, if there is one, has another status |
| `Requirements.CheckIsCalledExactly` | controllers/issuer_controller.go:136-210 | A reconcile of an issuer patches it if and only if it finds it, its first Ready condition does not say failed for its generation, and no hook holds it back; it calls Check if and only if moreover there is a Ready condition, and no report to be used on a True one |
| `Requirements.DenialNeedsApproval` | controllers/request_controller.go:175-180 | An open CR with a True Denied condition is marked as denied if and only if it has a True Approved condition as well |
| `Lifecycle.CertificateRequestPatchShape` | controllers/request_objecthelper_certificaterequest.go:104-256 | Every CR patch has exactly the custom condition and one Ready condition with the status and reason of its exit, no type twice, the signed chain, the CA where configured, and the time of a failure or denial as failure time |
| `Lifecycle.SigningRequestPatchShape` | controllers/request_objecthelper_certificatesigningrequest.go:89-175 | A CSR patch holds exactly the custom condition and, after a failure, Failed=True, which wins over a custom Failed, both updated now, and the signed chain |
| `Lifecycle.CertificateRequestApply` | controllers/request_objecthelper_certificaterequest.go:44-69 | After the apply the Ready condition of the patch alone decides the phase of a CR |
| `Lifecycle.SigningRequestApply` | controllers/request_objecthelper_certificatesigningrequest.go:42-56 | After the apply the certificate, Failed and Denied of the patch alone decide the phase of an open CSR, whatever was dropped |
| `RequestRuns.FinishedForGood` | controllers/request_controller.go:182-198 | In every run a finished request is never signed, patched, repeated or moved to another phase, and keeps certificate, CA and failure time |
| `RequestRuns.OneSuccessOneCertificate` | controllers/request_objecthelper_certificaterequest.go:233-256 | In every run of a CR: Ready=True if and only if exactly one Sign success was recorded, the certificate is its chain and the CA its CA where configured, and the CR is failed or denied if and only if a failure or denial was recorded, whose time is the failure time |
| `RequestRuns.UntouchedIsInOrder` | controllers/request_objecthelper_certificaterequest.go:119-148 | An untouched CR satisfies the bookkeeping that every run keeps |
| `RequestRuns.BoundedRetry` | controllers/request_controller.go:307-350 | In every run at most one Sign call after the retry deadline ends in success, failure or plain error with its patch applied |
| `RequestRuns.ReadySinceIsExact` | controllers/request_objecthelper_certificaterequest.go:104-117 | In every run the transition time of a CR's Ready condition is that of the first write of the latest unbroken run of equal statuses |
| `RequestRuns.PatchIsBuilt` | controllers/request_controller.go:226-350 | The conditions of every patch of either kind are those of its custom condition and its own write, upserted in that order |
| `IssuerRuns.StampNeverDecreases` | controllers/issuer_controller.go:173-186 | With serial reconciles and reads that never go back, the stamped generation never decreases and never exceeds the real one |
| `IssuerRuns.VerdictIsRecorded` | controllers/issuer_controller.go:188-245 | After a patch, Ready is Unknown and initialising exactly if it was missing, True and checked exactly if the error looked at (of Check, or the report) is nil, False and failed exactly if a permanent error occurs in it, False and pending otherwise, and the reconcile is retried exactly if there is an error with neither a permanent nor a terminal error in it |
| `IssuerRuns.PermanentFailureIsFrozen` | controllers/issuer_controller.go:136-156 | Once failed permanently, and as long as the generation stays, a run of reports, edits and reconciles applies no patch if and only if every reconcile reads a failed version or is held back by a hook, as it is whenever all read versions from after the failure; then Check is not called and Ready stays |
| `IssuerRuns.StaleReadUndoesFailure` | controllers/issuer_controller.go:148-221 | For every issuer and permanent error there is a run, with reads that never go back, in which the failed issuer is checked once more and made ready at the same generation |
| `IssuerRuns.StaleReadMisdates` | conditions/issuer.go:45-61 | For every issuer there is a run, with reads that never go back, that makes it ready for the second time and dates the condition from the first time |
| `IssuerRuns.ReadySinceIsExact` | conditions/issuer.go:45-78 | In every run whose reconciles date as one of the latest version would, the transition time of an issuer's Ready condition is that of the first write of the latest unbroken run of equal statuses |
| `IssuerRuns.DatedWellExactly` | conditions/issuer.go:45-61 | The requirement is exact: the first reconcile that dates otherwise leaves a transition time that is not the one of the first write |
| `IssuerRuns.SameReadyDatesAlike` | conditions/issuer.go:45-61 | A reconcile that read the stored Ready condition, perhaps in an older version, dates as one of the latest version would |
| `ErrorOutcomes.OutcomeDependsOnKinds` | controllers/request_controller.go:280-350 | For arbitrarily nested and joined errors the verdict (issuer, pending, permanent, late, retry, in this precedence) is a function of the kinds that occur and of whether now is after creation plus the retry duration; which condition is patched, and whether it changes, also depends on the outermost condition error |
| `ErrorOutcomes.ReportFailsIssuerExactly` | controllers/issuer_controller.go:203-244 | On a Ready issuer a report fails the issuer permanently if and only if a permanent error occurs inside the outermost issuer error, by paths; Check is not called |
| `Reports.ReportDecidesExactly` | controllers/issuer_controller.go:136-221 | A consumed report decides the status if and only if the issuer was found with Ready=True and no hook held it back; otherwise the reconcile does exactly what it would have done without it |
| `Reports.PatchWakesExactly` | controllers/predicates.go:130-161 | A status patch of the issuer makes an update that passes the linked-issuer predicate if and only if the stored Ready condition had another status, or was stamped with another generation than the one read |
| `Reports.ConsumedReportWakesExactly` | controllers/issuer_controller.go:136-143 | On a Ready issuer, the reconcile that consumes a report, finding the stored issuer or nothing, makes an update that passes the linked-issuer predicate if and only if it uses the report; otherwise it does what it would have done without it, and a later successful check makes an update that is filtered out |
| `ErrorPaths.AsIsOutermost` | controllers/request_controller.go:282-308 | The search of errors.As finds an error of the kind that no error of the kind lies around or, in a join, to the left of, by the paths of the errors in the tree |
| `ErrorPaths.KindsAreThoseThatOccur` | controllers/signer/err_permanent.go:34-46 | A kind is found in an error if and only if a wrapper of that kind occurs at some path in it |
| `ErrorPaths.PayloadIsOutermost` | controllers/signer/err_issuer.go:30-42 | The payload taken from an error is the error inside its outermost issuer error |
| `ErrorPaths.CustomIsOutermost` | controllers/signer/err_set_condition.go:33-48 | The custom condition taken from an error is that of its outermost condition error |
| `Predicates.SigningRequestUpdateExact` | controllers/predicates.go:89-117 | The CSR predicate is false if and only if the type-to-status maps and the annotations are equal |
| `Predicates.CertificateRequestUpdateExact` | controllers/predicates.go:43-76 | The CR predicate is false if and only if annotations are equal and the maps agree outside Ready with Ready in both or neither, or Ready was replaced by one new type |
| `Predicates.SilentChain` | controllers/predicates.go:43-117 | A chain of updates that are all filtered keeps annotations, all statuses of a CSR, and the statuses outside Ready of a CR that keeps Ready; Ready is never added |
| `Predicates.LinkedSilenceKeepsWaiting` | controllers/predicates.go:130-161 | A chain of filtered issuer updates with rising generations leaves a waiting request waiting |
| `Predicates.IssuerSilenceKeepsUpToDate` | controllers/predicates.go:174-212 | A chain of filtered updates never makes an initialised, up-to-date issuer need initialising or rechecking |
| `Transitions.TransitionTimeIsExact` | conditions/certificaterequest.go:43-76 | In any history in which a type changes only by patches, its transition time is that of the first write of the latest unbroken run of equal statuses |
| `Transitions.DatedExactly` | conditions/certificaterequest.go:43-57 | After one more write, a condition dates from the first write of its run if and only if its time was computed from the list stored before |
| `Conditions.SetStatusCondition` | conditions/issuer.go:28-79 | Both loops of the upsert: the new condition has the given fields and the time of the last existing condition with its type and status, or now if there is none, and takes the place of the first of its type or the end of the list |
| `Conditions.UpsertIsMapUpdate` | conditions/certificaterequest.go:59-76 | An upsert is a map update that keeps uniqueness and leaves every other entry at its place |
| `Conditions.UpsertInPlace` | conditions/certificatesigningrequest.go:60-77 | It overwrites the first condition of its type, or appends |
| `Conditions.TransitionTimeOfUnique` | conditions/certificatesigningrequest.go:43-58 | With unique types the time is that of the existing condition if its status is the same, and now otherwise |
| `Conditions.GetIsFirst` | conditions/issuer.go:81-91 | The search for a type finds the first condition of it, and none if and only if the type does not occur |
| `Conditions.HasLooksEverywhere` | controllers/request_objecthelper_certificaterequest.go:44-69 | The searches for a status, or for a status and reason, look at every condition of the list, unique types or not |
| `ServerSideApply.MergeIsKeyed` | internal/ssaclient/patch.go:34-36 | Per type: the patch's condition, else none if dropped, else the stored one; uniqueness is kept |
| `Patches.ApplyIsFieldwise` | controllers/request_controller.go:121-126 | Per condition type and per field of a request's status: what the patch holds, else nothing if dropped, else what was stored |
| `IssuerTypes.SplitRoundTrip` | controllers/certificatesigningrequest_controller.go:52-79 | Printing and splitting "first/second" undo each other if and only if both parts are slash-free |
| `IssuerTypes.MatchSignerIsClusterScoped` | controllers/certificatesigningrequest_controller.go:45-80 | A CSR is matched only by a cluster-scoped type, and its signer name is that type's identifier and the issuer's name |
| `IssuerTypes.MatchRefIsFirst` | controllers/certificaterequest_controller.go:52-73 | A CR is matched by the first type with the group and, unless empty, the kind of its reference, in its own namespace if that type is namespaced; and by nothing if and only if there is no such type |
| `IssuerTypes.MatchRefPrefersNamespaced` | controllers/certificaterequest_controller.go:44-74 | Over the built type list, the type that matches a CR is namespaced whenever a namespaced type has the group and, unless empty, the kind of its reference |
| `IssuerTypes.KeyIsUnambiguous` | controllers/request_controller.go:459-466 | The index key of a real object is the key of no other reference, slashes in it or not, and splits into its namespace and name |
| `Watch.ListedIsResolved` | internal/kubeutil/watch.go:107-143 | The index lookup lists exactly the requests that matchIssuerType resolves to that issuer |
| `Watch.LinkedResourceHandler.FindObjectsForKind` | internal/kubeutil/watch.go:107-143 | Returns exactly the keys of those requests, and none if the list call fails |
| `Watch.LinkedResourceHandler.MapAndEnqueue` | internal/kubeutil/watch.go:175-188 | Adds every request found that was not seen before, each once |
| `Watch.LinkedResourceHandler.Update` | internal/kubeutil/watch.go:156-161 | An update event adds exactly the requests resolved to the old or the new object, each once even when the lookups overlap |
| `Watch.AddAllMakesDirty` | internal/kubeutil/watch.go:175-188 | After the adds exactly these keys, besides the earlier ones, are due to be reconciled |
| `RequestController.Controller.SetAllIssuerTypes` | controllers/request_controller.go:353-378 | All namespaced types come before all cluster types, tagged accordingly, and nothing is assigned if a type is missing from the scheme |
| `RequestController.Controller.ReconcileStatusPatch` | controllers/request_controller.go:149-351 | The step-by-step reconcile with its patch object, event store and queues does what `Plan` says, writes the chain and CA that Sign returned into the patch, reports exactly on the issuer-error exit, and leaves all queues alone otherwise |
| `RequestController.Controller.Reconcile` | controllers/request_controller.go:104-138 | Patch and error are combined: a patch that cannot be encoded or is rejected gives an aggregate error and no requeue, an accepted one or a vanished request the result of the reconcile |
| `IssuerController.Reconciler.ReconcileStatusPatch` | controllers/issuer_controller.go:128-245 | The report is consumed first, whatever follows, and the rest does what `Plan` says |
| `IssuerController.Reconciler.Reconcile` | controllers/issuer_controller.go:87-118 | Patch and error are combined: a patch that cannot be encoded or is rejected gives an aggregate error, an accepted one or a vanished issuer the error of the reconcile |
| `PatchHelpers.CertificateRequestPatchHelper.SetInitializing` | controllers/request_objecthelper_certificaterequest.go:119-148 | Patches exactly a CR that has a Denied condition or no Ready condition, and says so |
| `PatchHelpers.CertificateRequestPatchHelper.SetCustomCondition` | controllers/request_objecthelper_certificaterequest.go:190-206 | Upserts the custom condition and tells whether its status differs from the one read |
| `PatchHelpers.CertificateRequestPatchHelper.SetPermanentError` | controllers/request_objecthelper_certificaterequest.go:233-242 | Ready=False with reason Failed and the failure time |
| `PatchHelpers.CertificateRequestPatchHelper.SetIssued` | controllers/request_objecthelper_certificaterequest.go:244-256 | Certificate, CA where configured, and Ready=True |
| `PatchHelpers.SigningRequestPatchHelper.SetCustomCondition` | controllers/request_objecthelper_certificatesigningrequest.go:128-144 | Upserts the custom condition and tells whether its status differs from the one read |
| `PatchHelpers.SigningRequestPatchHelper.SetPermanentError` | controllers/request_objecthelper_certificatesigningrequest.go:161-169 | Failed=True |
| `PatchHelpers.SigningRequestPatchHelper.SetIssued` | controllers/request_objecthelper_certificatesigningrequest.go:171-175 | The certificate and no condition |

## Left out

- Wakeups.NoLostWakeup: the exceptions are a last reconcile that read a version from before this controller's
  own last patch, a hook that asked to ignore the request, a lost patch hidden by a terminal error, an error to
  retry that contains a terminal error, a CSR signed with an empty chain, and a custom Ready condition on a CR;
  all but the hook are shortcomings listed above, each with a run. It is the issuer's move after a report, as long
  as the issuer's Ready condition is the one the request saw, and after waiting or reporting if a failed list
  call hid an event; `ReportedSleep` says where the report is meanwhile.
- ReportProtocol.NoReportLost: a delivered report need not change the issuer's status, see the consumed
  report above.
- Conditions.HasIsGet, SignerErrors.AsFindsKinds, IssuerRuns.RecheckedExactlyAfterGenerationRise,
  IssuerRuns.LeftAloneExactly, Lifecycle.TerminalIsLeftAlone,
  SignAfterCheck.SignNeedsReadyIssuer, Predicates.WrongObjectsPass, Predicates.LinkedIssuerUpdateExact and
  Predicates.IssuerUpdateExact are helper lemmas, most of which read definitions back, and have no row above.
- RequestRuns: the runs in this module have fresh reads; stale ones are in `Wakeups` and `StaleReads`.
- RequestRuns.BoundedRetry: a patch that is lost does not count, and neither do pending and issuer errors;
  the source retries all of these without a bound.
- Conditions.SetStatusCondition: one method stands for the three copies of the upsert; `stamp` is the observed
  generation of an issuer, the update time of a CSR condition, and unused for a CR.
- Event recording, logging and message texts, which do not affect control flow; setters that differ only in
  them share one method.
- The Go interface of the patch helpers is a datatype over the two classes.
- The create, delete and generic handlers of internal/kubeutil/watch.go, which call the same fan-out as `Update`.
- Manager, scheme and controller setup (controllers/combined_controller.go and the rest of
  `SetupWithManager`), the JSON encoding of patches, and cache and index maintenance by controller-runtime;
  the index is "all cached requests whose index values contain the key".
- X.509, PEM and the conversion of requests for the signer; `Sign` and `Check` return arbitrary results.
- Real time, back-off and fairness: progress is stated as an invariant about sleeping requests and issuers, not as
  eventual liveness.
- Deletion of requests and of objects recreated under a running reconcile.
