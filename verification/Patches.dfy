/** What each patch setter of a request leaves in the status patch, and what applying that patch
    leaves in the stored status. The classes in PatchHelpers implement these functions step by step.
 */
module Patches {
  import opened Conditions
  import opened Requests
  import opened ServerSideApply
  import opened SignerErrors

  function WithCondition(
    r: Request, patch: RequestStatus, now: Time, t: ConditionType, s: Status, reason: Reason): RequestStatus {
    var stamp := if r.SigningRequest? then now else 0;
    patch.(conditions := Upsert(patch.conditions, NewCondition(now, r.status.conditions, t, s, reason, stamp)))
  }

  /** The whole patch of a request that must be initialised first, or None when there is nothing to do. */
  function InitialPatch(r: Request, now: Time): Option<RequestStatus> {
    if r.SigningRequest? then None
    else if Has(r.status.conditions, Denied, True) then
      Some(WithCondition(r, EMPTY_STATUS, now, Ready, False, WasDenied).(failureTime := Some(now)))
    else if Get(r.status.conditions, Ready).Some? then None
    else Some(WithCondition(r, EMPTY_STATUS, now, Ready, Unknown, Initializing))
  }

  /** Waiting for the issuer, pending and retryable all write the same condition, on
      CertificateRequests only. */
  function NotReadyPatch(r: Request, patch: RequestStatus, now: Time): RequestStatus {
    if r.SigningRequest? then patch else WithCondition(r, patch, now, Ready, False, Pending)
  }

  function CustomPatch(r: Request, patch: RequestStatus, now: Time, c: CustomCondition): RequestStatus {
    WithCondition(r, patch, now, c.ctype, c.status, c.reason)
  }

  predicate CustomTransitions(r: Request, c: CustomCondition) {
    var current := Get(r.status.conditions, c.ctype);
    current.None? || current.value.status != c.status
  }

  function PermanentPatch(r: Request, patch: RequestStatus, now: Time): RequestStatus {
    if r.SigningRequest? then WithCondition(r, patch, now, Failed, True, HasFailed)
    else WithCondition(r, patch, now, Ready, False, HasFailed).(failureTime := Some(now))
  }

  function IssuedPatch(
    r: Request, patch: RequestStatus, now: Time, setCA: bool, chain: Bytes, ca: Bytes): RequestStatus {
    var withChain := patch.(certificate := chain);
    if r.SigningRequest? then withChain
    else WithCondition(r, if setCA then withChain.(ca := ca) else withChain, now, Ready, True, Issued)
  }

  /*** Applying a patch ***/

  /** The fields only this manager owned and the patch leaves out. */
  datatype Dropped = Dropped(conditions: set<ConditionType>, certificate: bool, ca: bool, failureTime: bool)

  function Apply(stored: RequestStatus, patch: RequestStatus, d: Dropped): RequestStatus {
    RequestStatus(
      Merge(stored.conditions, patch.conditions, d.conditions),
      if patch.certificate != [] then patch.certificate else if d.certificate then [] else stored.certificate,
      if patch.ca != [] then patch.ca else if d.ca then [] else stored.ca,
      if patch.failureTime.Some? then patch.failureTime else if d.failureTime then None else stored.failureTime)
  }

  /** What a forced apply leaves in a status, field by field: what the patch holds; else nothing, if only this
      manager owned it; else what was stored. */
  lemma {:induction false} ApplyIsFieldwise(stored: RequestStatus, patch: RequestStatus, d: Dropped, t: ConditionType)
    requires UniqueTypes(patch.conditions)
    ensures var after := Apply(stored, patch, d);
            && (t in TypesOf(patch.conditions) ==> Get(after.conditions, t) == Get(patch.conditions, t))
            && (t !in TypesOf(patch.conditions) && t in d.conditions ==> t !in TypesOf(after.conditions))
            && (t !in TypesOf(patch.conditions) && t !in d.conditions ==>
                  Get(after.conditions, t) == Get(stored.conditions, t))
            && (patch.certificate != [] ==> after.certificate == patch.certificate)
            && (patch.certificate == [] && d.certificate ==> after.certificate == [])
            && (patch.certificate == [] && !d.certificate ==> after.certificate == stored.certificate)
            && (patch.ca != [] ==> after.ca == patch.ca)
            && (patch.ca == [] && d.ca ==> after.ca == [])
            && (patch.ca == [] && !d.ca ==> after.ca == stored.ca)
            && (patch.failureTime.Some? ==> after.failureTime == patch.failureTime)
            && (patch.failureTime.None? && d.failureTime ==> after.failureTime.None?)
            && (patch.failureTime.None? && !d.failureTime ==> after.failureTime == stored.failureTime)
  {
    MergeIsKeyed(stored.conditions, patch.conditions, d.conditions, t);
  }
}
