/** The issuer reconciler (controllers/issuer_controller.go): what one reconcile does (`Plan`)
    and the class that does it step by step.
 */
module IssuerController {
  import opened Conditions
  import opened ControllerRuntime
  import opened EventStore
  import opened IssuerTypes
  import opened Requests
  import opened SignerErrors

  /** The answers a reconcile gets; `check` is the error of Check, None for success. */
  datatype Inputs = Inputs(issuer: Read<Issuer>, hook: Hook, check: Option<Error>, now: Time)

  datatype Exit =
    | Gone | Unreadable | PermanentlyFailed | HookFailed | Ignored | Initialised
    | Checked | FailedForGood | WillRetry

  datatype Outcome = Outcome(exit: Exit, calledCheck: bool, patch: Option<seq<Condition>>, error: Returned)

  /** Failed permanently, for the current or a later generation. */
  predicate IsFailed(issuer: Issuer) {
    var ready := Get(issuer.conditions, Ready);
    && ready.Some?
    && ready.value.status == False
    && ready.value.reason == HasFailed
    && ready.value.stamp >= issuer.generation
  }

  function ReadyPatch(issuer: Issuer, now: Time, s: Status, reason: Reason): seq<Condition> {
    [NewCondition(now, issuer.conditions, Ready, s, reason, issuer.generation)]
  }

  function Plan(i: Inputs, reported: Option<Error>): Outcome {
    match i.issuer
    case NotFound => Outcome(Gone, false, None, NoError)
    case ReadError => Outcome(Unreadable, false, None, RetryError)
    case Found(issuer) =>
      var ready := Get(issuer.conditions, Ready);
      if IsFailed(issuer) then Outcome(PermanentlyFailed, false, None, NoError)
      else if i.hook.HookError? then Outcome(HookFailed, false, None, RetryError)
      else if i.hook == HookSays(true) then Outcome(Ignored, false, None, NoError)
      else if ready.None? then
        Outcome(Initialised, false, Some(ReadyPatch(issuer, i.now, Unknown, Initializing)), NoError)
      else
        var calledCheck := !(ready.value.status == True && reported.Some?);
        var err := if calledCheck then i.check else reported;
        if err.None? then
          Outcome(Exit.Checked, calledCheck, Some(ReadyPatch(issuer, i.now, True, Reason.Checked)), NoError)
        else if As(err.value, PermanentErr).Some? then
          Outcome(FailedForGood, calledCheck, Some(ReadyPatch(issuer, i.now, False, HasFailed)), TerminalError)
        else Outcome(WillRetry, calledCheck, Some(ReadyPatch(issuer, i.now, False, Pending)), AsReturned(err.value))
  }

  /** The error of the whole reconcile, once the patch was sent or could not be. */
  function Finish(o: Outcome, applied: Applied): Returned {
    if o.patch.Some? && applied.Lost() then Aggregate([RetryError, o.error]) else o.error
  }

  class Reconciler {
    const events: EventSource
    const gvk: GroupVersionKind

    constructor (events: EventSource, gvk: GroupVersionKind)
      ensures this.events == events && this.gvk == gvk
    {
      this.events, this.gvk := events, gvk;
    }

    /** The report is consumed first, whatever happens next. */
    method ReconcileStatusPatch(name: NamespacedName, i: Inputs)
      returns (patch: Option<seq<Condition>>, error: Returned, ghost exit: Exit, ghost calledCheck: bool)
      modifies events`invalidate
      ensures var key := IssuerKey(gvk, name);
              && Outcome(exit, calledCheck, patch, error)
                 == Plan(i, if key in old(events.invalidate) then Some(old(events.invalidate)[key]) else None)
              && events.invalidate == old(events.invalidate) - {key}
    {
      patch, error, calledCheck := None, NoError, false;
      var reported := events.HasReportedError(IssuerKey(gvk, name));
      if i.issuer.NotFound? {
        exit := Gone;
        return;
      } else if i.issuer.ReadError? {
        exit, error := Unreadable, RetryError;
        return;
      }
      var issuer := i.issuer.value;
      var ready := Get(issuer.conditions, Ready);
      if IsFailed(issuer) {
        exit := PermanentlyFailed;
        return;
      }
      if i.hook.HookError? {
        exit, error := HookFailed, RetryError;
        return;
      } else if i.hook == HookSays(true) {
        exit := Ignored;
        return;
      }
      var conditions: seq<Condition> := [];
      if ready.None? {
        conditions := SetReadyCondition(issuer, i.now, conditions, Unknown, Initializing);
        exit, patch := Initialised, Some(conditions);
        return;
      }
      var err;
      if ready.value.status == True && reported.Some? {
        err := reported;
      } else {
        err, calledCheck := i.check, true;
      }
      if err.None? {
        conditions := SetReadyCondition(issuer, i.now, conditions, True, Reason.Checked);
        exit := Exit.Checked;
      } else if As(err.value, PermanentErr).Some? {
        conditions := SetReadyCondition(issuer, i.now, conditions, False, HasFailed);
        exit, error := FailedForGood, TerminalError;
      } else {
        conditions := SetReadyCondition(issuer, i.now, conditions, False, Pending);
        exit, error := WillRetry, AsReturned(err.value);
      }
      patch := Some(conditions);
    }

    method Reconcile(name: NamespacedName, i: Inputs, applied: Applied) returns (error: Returned)
      modifies events`invalidate
      ensures var key := IssuerKey(gvk, name);
              var o := Plan(i, if key in old(events.invalidate) then Some(old(events.invalidate)[key]) else None);
              && error == Finish(o, applied)
              && (o.patch.Some? && (applied == NotEncoded || applied == Rejected) ==>
                    error == Aggregate([RetryError, o.error]))
              && (o.patch.None? || applied == Accepted || applied == ObjectGone ==> error == o.error)
              && events.invalidate == old(events.invalidate) - {key}
    {
      var patch, reconcileError;
      ghost var exit, calledCheck;
      patch, reconcileError, exit, calledCheck := ReconcileStatusPatch(name, i);
      if patch.Some? && applied.Lost() {
        return Aggregate([RetryError, reconcileError]);
      }
      error := reconcileError;
    }

    method SetReadyCondition(issuer: Issuer, now: Time, conditions: seq<Condition>, s: Status, reason: Reason)
      returns (updated: seq<Condition>)
      ensures updated == Upsert(conditions, NewCondition(now, issuer.conditions, Ready, s, reason, issuer.generation))
    {
      var u, _, _ := SetStatusCondition(now, issuer.conditions, conditions, Ready, s, reason, issuer.generation);
      updated := u;
    }
  }
}
