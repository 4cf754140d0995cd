/** The request reconciler (controllers/request_controller.go). `Plan` says what one reconcile does;
    the class below does it step by step through the patch helpers and the event store. The answers
    of the API client, the ignore hook, Sign and the clock are inputs.
 */
module RequestController {
  import opened Conditions
  import opened ControllerRuntime
  import opened EventStore
  import opened IssuerTypes
  import opened PatchHelpers
  import opened Patches
  import opened Requests
  import opened SignerErrors

  datatype Settings = Settings(types: seq<IssuerType>, maxRetry: int, setCA: bool)

  /** The answer of Sign, with an error or with what the controller finds in it. */
  datatype SignResultOf<E> = SignOk(chain: Bytes, ca: Bytes) | SignError(err: E)

  type SignResult = SignResultOf<Finding>

  /** The answers a reconcile gets. */
  datatype InputsOf<E> = Inputs(
    request: Read<Request>,
    hook: Hook,
    issuer: Read<Issuer>,
    sign: SignResultOf<E>,
    now: Time)

  type Inputs = InputsOf<Finding>

  function InspectedSign(sign: SignResultOf<Error>): SignResult {
    match sign
    case SignOk(chain, ca) => SignOk(chain, ca)
    case SignError(e) => SignError(Inspect(e))
  }

  function Inspected(i: InputsOf<Error>): Inputs {
    Inputs(i.request, i.hook, i.issuer, InspectedSign(i.sign), i.now)
  }

  /** Where a reconcile ends. The first row never owns the request, the second never calls Sign. */
  datatype Exit =
    | Gone | Unreadable | Foreign | Unapproved | Finished | HookFailed | Ignored
    | Initialised | IssuerUnreadable | Waiting
    | Signed | ReportRefused | Reported(key: IssuerKey, err: Error)
    | StillPending | FailedForGood | Expired | WillRetry
  {
    /** Sign was called. */
    predicate Signs() {
      Signed? || ReportRefused? || Reported? || StillPending? || FailedForGood? || Expired? || WillRetry?
    }
  }

  datatype Outcome = Outcome(exit: Exit, patch: Option<RequestStatus>, requeue: bool, error: Returned)

  /*** What one reconcile does ***/

  function WithCustom(r: Request, now: Time, e: Finding): RequestStatus {
    match e.custom
    case Some(c) => CustomPatch(r, EMPTY_STATUS, now, c)
    case None => EMPTY_STATUS
  }

  /** The requeue is skipped because the custom condition's change will wake the request. */
  predicate SkipsRequeue(r: Request, e: Finding) {
    e.custom.Some? && CustomTransitions(r, e.custom.value)
  }

  predicate PastDeadline(maxRetry: int, r: Request, now: Time) {
    now > r.meta.creation + maxRetry
  }

  function PlanError(
    maxRetry: int, consumers: set<GroupVersionKind>, key: IssuerKey, r: Request, now: Time, e: Finding): Outcome {
    var custom := WithCustom(r, now, e);
    if e.issuer.Some? then
      if key.gvk !in consumers then Outcome(ReportRefused, None, false, RetryError)
      else Outcome(Reported(key, e.issuer.value), Some(NotReadyPatch(r, EMPTY_STATUS, now)), false, NoError)
    else if e.pending then
      Outcome(StillPending, Some(NotReadyPatch(r, custom, now)), !SkipsRequeue(r, e), NoError)
    else if e.permanent then
      Outcome(FailedForGood, Some(PermanentPatch(r, custom, now)), false, TerminalError)
    else if PastDeadline(maxRetry, r, now) then
      Outcome(Expired, Some(PermanentPatch(r, custom, now)), false, TerminalError)
    else
      Outcome(WillRetry, Some(NotReadyPatch(r, custom, now)), false,
              if SkipsRequeue(r, e) || e.terminal then TerminalError else RetryError)
  }

  function PlanSign(
    s: Settings, consumers: set<GroupVersionKind>, key: IssuerKey, r: Request, now: Time, sign: SignResult)
    : Outcome {
    match sign
    case SignOk(chain, ca) =>
      Outcome(Signed, Some(IssuedPatch(r, EMPTY_STATUS, now, s.setCA, chain, ca)), false, NoError)
    case SignError(e) => PlanError(s.maxRetry, consumers, key, r, now, e)
  }

  /** Everything after the gates: the request is approved, open and not ignored. */
  function PlanOwned(s: Settings, consumers: set<GroupVersionKind>, key: IssuerKey, r: Request, i: Inputs): Outcome {
    if InitialPatch(r, i.now).Some? then Outcome(Initialised, InitialPatch(r, i.now), false, NoError)
    else if i.issuer.ReadError? then Outcome(IssuerUnreadable, None, false, RetryError)
    else if Waits(i.issuer) then Outcome(Waiting, Some(NotReadyPatch(r, EMPTY_STATUS, i.now)), false, NoError)
    else PlanSign(s, consumers, key, r, i.now, i.sign)
  }

  function Plan(s: Settings, consumers: set<GroupVersionKind>, i: Inputs): Outcome {
    match i.request
    case NotFound => Outcome(Gone, None, false, NoError)
    case ReadError => Outcome(Unreadable, None, false, RetryError)
    case Found(r) =>
      var key := MatchIssuerType(s.types, r);
      if key.None? then Outcome(Foreign, None, false, NoError)
      else if !r.IsApproved() && !r.IsDenied() then Outcome(Unapproved, None, false, NoError)
      else if r.IsTerminal() then Outcome(Finished, None, false, NoError)
      else if i.hook.HookError? then Outcome(HookFailed, None, false, RetryError)
      else if i.hook == HookSays(true) then Outcome(Ignored, None, false, NoError)
      else PlanOwned(s, consumers, key.value, r, i)
  }

  /** The result of the whole reconcile, once the patch was sent or could not be. */
  function Finish(o: Outcome, applied: Applied): (bool, Returned) {
    if o.patch.Some? && applied.Lost() then (false, Aggregate([RetryError, o.error])) else (o.requeue, o.error)
  }

  /** What Sign returned is what the patch of a success holds. */
  ghost predicate HoldsAnswer(setCA: bool, r: Request, sign: SignResultOf<Error>, p: RequestStatus) {
    sign.SignOk? ==> p.certificate == sign.chain && p.ca == if r.CertificateRequest? && setCA then sign.ca else []
  }

  /*** The controller ***/

  class Controller {
    var issuerTypes: seq<IssuerType>
    var clusterIssuerTypes: seq<IssuerType>
    var allIssuerTypes: seq<IssuerType>
    const maxRetry: int
    const setCA: bool
    const events: EventSource

    constructor (issuerTypes: seq<IssuerType>, clusterIssuerTypes: seq<IssuerType>,
      maxRetry: int, setCA: bool, events: EventSource)
      ensures this.issuerTypes == issuerTypes && this.clusterIssuerTypes == clusterIssuerTypes && allIssuerTypes == []
      ensures this.maxRetry == maxRetry && this.setCA == setCA && this.events == events
    {
      this.issuerTypes, this.clusterIssuerTypes, allIssuerTypes := issuerTypes, clusterIssuerTypes, [];
      this.maxRetry, this.setCA, this.events := maxRetry, setCA, events;
    }

    /** Tags every type and checks each against the scheme before anything is assigned. */
    method SetAllIssuerTypes(scheme: set<GroupVersionKind>) returns (ok: bool)
      modifies this`allIssuerTypes
      ensures ok <==> forall t :: t in issuerTypes + clusterIssuerTypes ==> t.gvk in scheme
      ensures !ok ==> allIssuerTypes == old(allIssuerTypes)
      ensures ok ==> NamespacedFirst(allIssuerTypes)
      ensures ok ==> |allIssuerTypes| == |issuerTypes| + |clusterIssuerTypes|
      ensures ok ==> forall k :: 0 <= k < |allIssuerTypes| ==>
                       allIssuerTypes[k] == if k < |issuerTypes| then issuerTypes[k].(namespaced := true)
                                            else clusterIssuerTypes[k - |issuerTypes|].(namespaced := false)
    {
      var issuers: seq<IssuerType> := [];
      for k := 0 to |issuerTypes|
        invariant |issuers| == k
        invariant forall j :: 0 <= j < k ==> issuers[j] == issuerTypes[j].(namespaced := true)
      {
        issuers := issuers + [issuerTypes[k].(namespaced := true)];
      }
      var n := |issuers|;
      for k := 0 to |clusterIssuerTypes|
        invariant |issuers| == n + k
        invariant forall j :: 0 <= j < n ==> issuers[j] == issuerTypes[j].(namespaced := true)
        invariant forall j :: n <= j < n + k ==> issuers[j] == clusterIssuerTypes[j - n].(namespaced := false)
      {
        issuers := issuers + [clusterIssuerTypes[k].(namespaced := false)];
      }
      var all := issuerTypes + clusterIssuerTypes;
      for k := 0 to |issuers|
        invariant forall j :: 0 <= j < k ==> all[j].gvk in scheme
      {
        assert issuers[k].gvk == all[k].gvk;
        if issuers[k].gvk !in scheme {
          assert all[k] in all;
          return false;
        }
      }
      allIssuerTypes := issuers;
      return true;
    }

    ghost function CurrentSettings(): Settings
      reads this
    {
      Settings(allIssuerTypes, maxRetry, setCA)
    }

    method ReconcileStatusPatch(i: InputsOf<Error>)
      returns (requeue: bool, patch: Option<RequestPatchHelper>, error: Returned, ghost exit: Exit)
      modifies events`invalidate, events.dest.Values
      ensures var o := Plan(CurrentSettings(), old(events.dest).Keys, Inspected(i));
              && exit == o.exit
              && requeue == o.requeue
              && error == o.error
              && patch.Some? == o.patch.Some?
              && (patch.Some? ==> fresh(patch.value.Footprint()) && patch.value.Patch() == o.patch.value)
      ensures exit.Signed? && i.request.Found? ==>
                patch.Some? && HoldsAnswer(setCA, i.request.value, i.sign, patch.value.Patch())
      ensures events.invalidate
                    == if exit.Reported? then old(events.invalidate)[exit.key := exit.err] else old(events.invalidate)
      ensures exit.Reported? ==> exit.key.gvk in events.dest && exit.key.name in events.dest[exit.key.gvk].queue.dirty
      ensures !exit.Reported? ==> forall q :: q in events.dest.Values ==> q.queue == old(q.queue)
    {
      requeue, patch, error := false, None, NoError;
      if i.request.NotFound? {
        exit := Gone;
        return;
      } else if i.request.ReadError? {
        exit, error := Unreadable, RetryError;
        return;
      }
      var r := i.request.value;
      var matched := MatchIssuerType(allIssuerTypes, r);
      if matched.None? {
        exit := Foreign;
        return;
      }
      var key := matched.value;
      if !r.IsApproved() && !r.IsDenied() {
        exit := Unapproved;
        return;
      }
      if r.IsReady() {
        exit := Finished;
        return;
      }
      if r.IsFailed() {
        exit := Finished;
        return;
      }
      if r.IsDenied() {
        exit := Finished;
        return;
      }
      match i.hook {
        case NoHook =>
        case HookError =>
          exit, error := HookFailed, RetryError;
          return;
        case HookSays(ignore) =>
          if ignore {
            exit := Ignored;
            return;
          }
      }
      requeue, patch, error, exit := ReconcileOwned(i, r, key);
    }

    /** The part of reconcileStatusPatch from the new patch to the result of Sign. */
    method ReconcileOwned(i: InputsOf<Error>, r: Request, key: IssuerKey)
      returns (requeue: bool, patch: Option<RequestPatchHelper>, error: Returned, ghost exit: Exit)
      modifies events`invalidate, events.dest.Values
      ensures var o := PlanOwned(CurrentSettings(), old(events.dest).Keys, key, r, Inspected(i));
              && exit == o.exit
              && requeue == o.requeue
              && error == o.error
              && patch.Some? == o.patch.Some?
              && (patch.Some? ==> fresh(patch.value.Footprint()) && patch.value.Patch() == o.patch.value)
      ensures exit.Signed? ==> patch.Some? && HoldsAnswer(setCA, r, i.sign, patch.value.Patch())
      ensures events.invalidate
                    == if exit.Reported? then old(events.invalidate)[exit.key := exit.err] else old(events.invalidate)
      ensures exit.Reported? ==> exit.key.gvk in events.dest && exit.key.name in events.dest[exit.key.gvk].queue.dirty
      ensures !exit.Reported? ==> forall q :: q in events.dest.Values ==> q.queue == old(q.queue)
    {
      requeue, patch, error := false, None, NoError;
      var statusPatch := NewPatch(r, i.now, setCA);
      var initialised := statusPatch.SetInitializing(r, i.now, setCA);
      if initialised {
        exit, patch := Initialised, Some(statusPatch);
        return;
      }
      requeue, patch, error, exit := ReconcileInitialised(i, r, key, statusPatch);
    }

    /** The part of reconcileStatusPatch from the read of the issuer to the result of Sign. */
    method ReconcileInitialised(i: InputsOf<Error>, r: Request, key: IssuerKey, statusPatch: RequestPatchHelper)
      returns (requeue: bool, patch: Option<RequestPatchHelper>, error: Returned, ghost exit: Exit)
      requires InitialPatch(r, i.now).None?
      requires statusPatch.For(r, i.now, setCA) && statusPatch.Patch() == EMPTY_STATUS
      requires statusPatch.Footprint() !! events.dest.Values && events !in statusPatch.Footprint()
      modifies events`invalidate, events.dest.Values, statusPatch.Footprint()
      ensures var o := PlanOwned(CurrentSettings(), old(events.dest).Keys, key, r, Inspected(i));
              && exit == o.exit
              && requeue == o.requeue
              && error == o.error
              && patch == (if o.patch.Some? then Some(statusPatch) else None)
              && (patch.Some? ==> statusPatch.Patch() == o.patch.value)
      ensures exit.Signed? ==> patch.Some? && HoldsAnswer(setCA, r, i.sign, patch.value.Patch())
      ensures events.invalidate
                    == if exit.Reported? then old(events.invalidate)[exit.key := exit.err] else old(events.invalidate)
      ensures exit.Reported? ==> exit.key.gvk in events.dest && exit.key.name in events.dest[exit.key.gvk].queue.dirty
      ensures !exit.Reported? ==> forall q :: q in events.dest.Values ==> q.queue == old(q.queue)
    {
      requeue, patch, error := false, None, NoError;
      if i.issuer.ReadError? {
        exit, error := IssuerUnreadable, RetryError;
        return;
      }
      var waiting := WaitForIssuer(i.issuer, i.now, r, statusPatch);
      if waiting {
        exit, patch := Waiting, Some(statusPatch);
        return;
      }
      requeue, patch, error, exit := HandleSign(i.now, r, key, i.sign, statusPatch);
    }

    /** The part of reconcileStatusPatch after the call of Sign. */
    method HandleSign(now: Time, r: Request, key: IssuerKey, sign: SignResultOf<Error>, statusPatch: RequestPatchHelper)
      returns (requeue: bool, patch: Option<RequestPatchHelper>, error: Returned, ghost exit: Exit)
      requires statusPatch.For(r, now, setCA) && statusPatch.Patch() == EMPTY_STATUS
      requires statusPatch.Footprint() !! events.dest.Values && events !in statusPatch.Footprint()
      modifies events`invalidate, events.dest.Values, statusPatch.Footprint()
      ensures var o := PlanSign(CurrentSettings(), old(events.dest).Keys, key, r, now, InspectedSign(sign));
              && exit == o.exit
              && requeue == o.requeue
              && error == o.error
              && patch == (if o.patch.Some? then Some(statusPatch) else None)
              && (patch.Some? ==> statusPatch.Patch() == o.patch.value)
      ensures exit.Signed? ==> patch.Some? && HoldsAnswer(setCA, r, sign, patch.value.Patch())
      ensures events.invalidate
                    == if exit.Reported? then old(events.invalidate)[exit.key := exit.err] else old(events.invalidate)
      ensures exit.Reported? ==> exit.key.gvk in events.dest && exit.key.name in events.dest[exit.key.gvk].queue.dirty
      ensures !exit.Reported? ==> forall q :: q in events.dest.Values ==> q.queue == old(q.queue)
    {
      requeue, patch, error := false, None, NoError;
      match sign {
        case SignOk(chain, ca) =>
          statusPatch.SetIssued(r, now, setCA, chain, ca);
          exit, patch := Signed, Some(statusPatch);
        case SignError(e) =>
          requeue, patch, error, exit := HandleSignError(now, r, key, e, statusPatch);
      }
    }

    /** The part of reconcileStatusPatch that looks at the issuer. */
    method WaitForIssuer(
      issuer: Read<Issuer>, now: Time, r: Request, statusPatch: RequestPatchHelper) returns (waiting: bool)
      requires !issuer.ReadError? && statusPatch.For(r, now, setCA) && statusPatch.Patch() == EMPTY_STATUS
      modifies statusPatch.Footprint()
      ensures waiting == Waits(issuer)
      ensures statusPatch.Patch() == if waiting then NotReadyPatch(r, EMPTY_STATUS, now) else EMPTY_STATUS
    {
      if issuer.NotFound? {
        statusPatch.SetNotReady(r, now, setCA);
        return true;
      }
      var ready := Get(issuer.value.conditions, Ready);
      if ready.None? {
        statusPatch.SetNotReady(r, now, setCA);
        return true;
      }
      if ready.value.stamp < issuer.value.generation {
        statusPatch.SetNotReady(r, now, setCA);
        return true;
      }
      if ready.value.status != True {
        statusPatch.SetNotReady(r, now, setCA);
        return true;
      }
      return false;
    }

    /** The part of reconcileStatusPatch that classifies an error of Sign. */
    method HandleSignError(now: Time, r: Request, key: IssuerKey, e: Error, statusPatch: RequestPatchHelper)
      returns (requeue: bool, patch: Option<RequestPatchHelper>, error: Returned, ghost exit: Exit)
      requires statusPatch.For(r, now, setCA) && statusPatch.Patch() == EMPTY_STATUS
      requires statusPatch.Footprint() !! events.dest.Values && events !in statusPatch.Footprint()
      modifies events`invalidate, events.dest.Values, statusPatch.Footprint()
      ensures var o := PlanError(maxRetry, old(events.dest).Keys, key, r, now, Inspect(e));
              && exit == o.exit
              && requeue == o.requeue
              && error == o.error
              && patch == (if o.patch.Some? then Some(statusPatch) else None)
              && (patch.Some? ==> statusPatch.Patch() == o.patch.value)
      ensures events.invalidate
                    == if exit.Reported? then old(events.invalidate)[exit.key := exit.err] else old(events.invalidate)
      ensures exit.Reported? ==> exit.key.gvk in events.dest && exit.key.name in events.dest[exit.key.gvk].queue.dirty
      ensures !exit.Reported? ==> forall q :: q in events.dest.Values ==> q.queue == old(q.queue)
    {
      requeue, patch, error := false, None, NoError;
      var issuerError := IssuerPayload(e);
      if issuerError.Some? {
        var ok := events.ReportError(key, issuerError.value);
        if !ok {
          exit, error := ReportRefused, RetryError;
          return;
        }
        statusPatch.SetNotReady(r, now, setCA);
        exit, patch := Reported(key, issuerError.value), Some(statusPatch);
        return;
      }
      requeue, error, exit := HandleRequestError(now, r, e, statusPatch);
      patch := Some(statusPatch);
    }

    method HandleRequestError(now: Time, r: Request, e: Error, statusPatch: RequestPatchHelper)
      returns (requeue: bool, error: Returned, ghost exit: Exit)
      requires statusPatch.For(r, now, setCA) && statusPatch.Patch() == EMPTY_STATUS
      requires IssuerPayload(e).None?
      modifies statusPatch.Footprint()
      ensures forall consumers, key :: PlanError(maxRetry, consumers, key, r, now, Inspect(e))
                                       == Outcome(exit, Some(statusPatch.Patch()), requeue, error)
    {
      requeue, error := false, NoError;
      var transitioned := false;
      var custom := CustomOf(e);
      if custom.Some? {
        transitioned := statusPatch.SetCustomCondition(r, now, setCA, custom.value);
      }
      assert statusPatch.Patch() == WithCustom(r, now, Inspect(e)) && transitioned == SkipsRequeue(r, Inspect(e));
      if As(e, PendingErr).Some? {
        statusPatch.SetNotReady(r, now, setCA);
        exit := StillPending;
        if !transitioned {
          requeue := true;
        }
      } else if As(e, PermanentErr).Some? {
        statusPatch.SetPermanentError(r, now, setCA);
        exit, error := FailedForGood, TerminalError;
      } else if PastDeadline(maxRetry, r, now) {
        statusPatch.SetPermanentError(r, now, setCA);
        exit, error := Expired, TerminalError;
      } else {
        statusPatch.SetNotReady(r, now, setCA);
        exit := WillRetry;
        error := if transitioned then TerminalError else AsReturned(e);
      }
    }

    method Reconcile(i: InputsOf<Error>, applied: Applied) returns (requeue: bool, error: Returned)
      modifies events`invalidate, events.dest.Values
      ensures var o := Plan(CurrentSettings(), old(events.dest).Keys, Inspected(i));
              && (requeue, error) == Finish(o, applied)
              && (o.patch.Some? && (applied == NotEncoded || applied == Rejected) ==>
                    !requeue && error == Aggregate([RetryError, o.error]))
              && (o.patch.None? || applied == Accepted || applied == ObjectGone ==>
                    requeue == o.requeue && error == o.error)
              && events.invalidate
                 == (if o.exit.Reported? then old(events.invalidate)[o.exit.key := o.exit.err]
                     else old(events.invalidate))
    {
      var statusPatch, reconcileError;
      ghost var exit;
      requeue, statusPatch, reconcileError, exit := ReconcileStatusPatch(i);
      if statusPatch.Some? && applied.Lost() {
        return false, Aggregate([RetryError, reconcileError]);
      }
      error := reconcileError;
    }
  }
}
