/** The patch helpers of both request kinds. Each setter changes the patch in place; the datatype
    RequestPatchHelper stands for the interface through which the controller calls them.
 */
module PatchHelpers {
  import opened Conditions
  import opened Patches
  import opened Requests
  import opened SignerErrors

  class CertificateRequestPatchHelper {
    const now: Time
    const readOnlyObj: Request
    const setCA: bool
    var patch: RequestStatus

    constructor (now: Time, obj: Request, setCA: bool)
      ensures this.now == now && readOnlyObj == obj && this.setCA == setCA && patch == EMPTY_STATUS
    {
      this.now, this.readOnlyObj, this.setCA := now, obj, setCA;
      patch := EMPTY_STATUS;
    }

    method SetCondition(t: ConditionType, s: Status, reason: Reason) returns (updatedAt: Time)
      requires readOnlyObj.CertificateRequest?
      modifies this`patch
      ensures patch == WithCondition(readOnlyObj, old(patch), now, t, s, reason) && updatedAt == now
    {
      var updated, _, at := SetStatusCondition(now, readOnlyObj.status.conditions, patch.conditions, t, s, reason, 0);
      patch := patch.(conditions := updated);
      updatedAt := at;
    }

    method SetInitializing() returns (initialised: bool)
      requires readOnlyObj.CertificateRequest? && patch == EMPTY_STATUS
      modifies this`patch
      ensures initialised == InitialPatch(readOnlyObj, now).Some?
      ensures patch == if initialised then InitialPatch(readOnlyObj, now).value else EMPTY_STATUS
    {
      if Has(readOnlyObj.status.conditions, Denied, True) {
        var failedAt := SetCondition(Ready, False, WasDenied);
        patch := patch.(failureTime := Some(failedAt));
        return true;
      }
      if Get(readOnlyObj.status.conditions, Ready).Some? {
        return false;
      }
      var _ := SetCondition(Ready, Unknown, Initializing);
      return true;
    }

    method SetNotReady()
      requires readOnlyObj.CertificateRequest?
      modifies this`patch
      ensures patch == NotReadyPatch(readOnlyObj, old(patch), now)
    {
      var _ := SetCondition(Ready, False, Pending);
    }

    method SetCustomCondition(c: CustomCondition) returns (transitioned: bool)
      requires readOnlyObj.CertificateRequest?
      modifies this`patch
      ensures patch == CustomPatch(readOnlyObj, old(patch), now, c)
      ensures transitioned == CustomTransitions(readOnlyObj, c)
    {
      var _ := SetCondition(c.ctype, c.status, c.reason);
      var current := Get(readOnlyObj.status.conditions, c.ctype);
      transitioned := current.None? || current.value.status != c.status;
    }

    method SetPermanentError()
      requires readOnlyObj.CertificateRequest?
      modifies this`patch
      ensures patch == PermanentPatch(readOnlyObj, old(patch), now)
    {
      var failedAt := SetCondition(Ready, False, HasFailed);
      patch := patch.(failureTime := Some(failedAt));
    }

    method SetIssued(chain: Bytes, ca: Bytes)
      requires readOnlyObj.CertificateRequest?
      modifies this`patch
      ensures patch == IssuedPatch(readOnlyObj, old(patch), now, setCA, chain, ca)
    {
      patch := patch.(certificate := chain);
      if setCA {
        patch := patch.(ca := ca);
      }
      var _ := SetCondition(Ready, True, Issued);
    }
  }

  class SigningRequestPatchHelper {
    const now: Time
    const readOnlyObj: Request
    var patch: RequestStatus

    constructor (now: Time, obj: Request)
      ensures this.now == now && readOnlyObj == obj && patch == EMPTY_STATUS
    {
      this.now, this.readOnlyObj := now, obj;
      patch := EMPTY_STATUS;
    }

    method SetCondition(t: ConditionType, s: Status, reason: Reason)
      requires readOnlyObj.SigningRequest?
      modifies this`patch
      ensures patch == WithCondition(readOnlyObj, old(patch), now, t, s, reason)
    {
      var updated, _, _ := SetStatusCondition(now, readOnlyObj.status.conditions, patch.conditions, t, s, reason, now);
      patch := patch.(conditions := updated);
    }

    method SetCustomCondition(c: CustomCondition) returns (transitioned: bool)
      requires readOnlyObj.SigningRequest?
      modifies this`patch
      ensures patch == CustomPatch(readOnlyObj, old(patch), now, c)
      ensures transitioned == CustomTransitions(readOnlyObj, c)
    {
      SetCondition(c.ctype, c.status, c.reason);
      var current := Get(readOnlyObj.status.conditions, c.ctype);
      transitioned := current.None? || current.value.status != c.status;
    }

    method SetPermanentError()
      requires readOnlyObj.SigningRequest?
      modifies this`patch
      ensures patch == PermanentPatch(readOnlyObj, old(patch), now)
    {
      SetCondition(Failed, True, HasFailed);
    }

    method SetIssued(chain: Bytes)
      requires readOnlyObj.SigningRequest?
      modifies this`patch
      ensures forall setCA, ca :: patch == IssuedPatch(readOnlyObj, old(patch), now, setCA, chain, ca)
    {
      patch := patch.(certificate := chain);
    }
  }

  datatype RequestPatchHelper =
    | ForCertificateRequest(cr: CertificateRequestPatchHelper)
    | ForSigningRequest(csr: SigningRequestPatchHelper)
  {
    ghost function Footprint(): set<object> {
      if ForCertificateRequest? then {cr} else {csr}
    }

    ghost predicate For(r: Request, now: Time, setCA: bool) {
      match this
      case ForCertificateRequest(h) => r.CertificateRequest? && h.readOnlyObj == r && h.now == now && h.setCA == setCA
      case ForSigningRequest(h) => r.SigningRequest? && h.readOnlyObj == r && h.now == now
    }

    function Patch(): RequestStatus
      reads Footprint()
    {
      if ForCertificateRequest? then cr.patch else csr.patch
    }

    method SetInitializing(ghost r: Request, ghost now: Time, ghost setCA: bool) returns (initialised: bool)
      requires For(r, now, setCA) && Patch() == EMPTY_STATUS
      modifies Footprint()
      ensures initialised == InitialPatch(r, now).Some?
      ensures Patch() == if initialised then InitialPatch(r, now).value else EMPTY_STATUS
    {
      if ForCertificateRequest? {
        initialised := cr.SetInitializing();
      } else {
        initialised := false;
      }
    }

    method SetNotReady(ghost r: Request, ghost now: Time, ghost setCA: bool)
      requires For(r, now, setCA)
      modifies Footprint()
      ensures Patch() == NotReadyPatch(r, old(Patch()), now)
    {
      if ForCertificateRequest? {
        cr.SetNotReady();
      }
    }

    method SetCustomCondition(
      ghost r: Request, ghost now: Time, ghost setCA: bool, c: CustomCondition) returns (transitioned: bool)
      requires For(r, now, setCA)
      modifies Footprint()
      ensures Patch() == CustomPatch(r, old(Patch()), now, c)
      ensures transitioned == CustomTransitions(r, c)
    {
      if ForCertificateRequest? {
        transitioned := cr.SetCustomCondition(c);
      } else {
        transitioned := csr.SetCustomCondition(c);
      }
    }

    method SetPermanentError(ghost r: Request, ghost now: Time, ghost setCA: bool)
      requires For(r, now, setCA)
      modifies Footprint()
      ensures Patch() == PermanentPatch(r, old(Patch()), now)
    {
      if ForCertificateRequest? {
        cr.SetPermanentError();
      } else {
        csr.SetPermanentError();
      }
    }

    method SetIssued(ghost r: Request, ghost now: Time, ghost setCA: bool, chain: Bytes, ca: Bytes)
      requires For(r, now, setCA)
      modifies Footprint()
      ensures Patch() == IssuedPatch(r, old(Patch()), now, setCA, chain, ca)
    {
      if ForCertificateRequest? {
        cr.SetIssued(chain, ca);
      } else {
        csr.SetIssued(chain);
      }
    }
  }

  method NewPatch(r: Request, now: Time, setCA: bool) returns (helper: RequestPatchHelper)
    ensures helper.For(r, now, setCA) && fresh(helper.Footprint()) && helper.Patch() == EMPTY_STATUS
  {
    if r.CertificateRequest? {
      var h := new CertificateRequestPatchHelper(now, r, setCA);
      helper := ForCertificateRequest(h);
    } else {
      var h := new SigningRequestPatchHelper(now, r);
      helper := ForSigningRequest(h);
    }
  }
}
