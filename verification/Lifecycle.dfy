/** One lifecycle for both kinds of requests: a request is Open until it is Issued, Failed or Denied,
    and then stays so. The two kinds keep this in different fields of their status.
 */
module Lifecycle {
  import opened Conditions
  import opened ControllerRuntime
  import opened IssuerTypes
  import opened Patches
  import opened RequestController
  import opened Requests
  import opened ServerSideApply
  import opened SignerErrors

  datatype Phase = Open | IsIssued | HasFailedForGood | IsDeniedForGood

  function PhaseOf(r: Request): Phase {
    if r.IsReady() then IsIssued
    else if r.IsFailed() then HasFailedForGood
    else if r.IsDenied() then IsDeniedForGood
    else Open
  }

  /*** The shape of a patch ***/

  /** Status and reason of the Ready condition in a CertificateRequest's patch. */
  function ReadyWritten(r: Request, exit: Exit): (Status, Reason) {
    match exit
    case Signed => (True, Issued)
    case FailedForGood => (False, HasFailed)
    case Expired => (False, HasFailed)
    case Initialised => if Has(r.status.conditions, Denied, True) then (False, WasDenied) else (Unknown, Initializing)
    case _ => (False, Pending)
  }

  /** The update time of a condition: only those of a CertificateSigningRequest have one. */
  function StampFor(r: Request, now: Time): Time {
    if r.SigningRequest? then now else 0
  }

  lemma {:induction false} WithConditionGet(
    r: Request, patch: RequestStatus, now: Time, t: ConditionType, s: Status, reason: Reason)
    requires UniqueTypes(patch.conditions)
    ensures var p := WithCondition(r, patch, now, t, s, reason);
            && p == patch.(conditions := p.conditions)
            && UniqueTypes(p.conditions)
            && TypesOf(p.conditions) == TypesOf(patch.conditions) + {t}
            && Holds(p.conditions, t, s, reason, StampFor(r, now))
            && forall u :: u != t ==> Get(p.conditions, u) == Get(patch.conditions, u)
  {
    UpsertIsMapUpdate(patch.conditions, NewCondition(now, r.status.conditions, t, s, reason, StampFor(r, now)));
  }

  /** The list has a condition of the type with this status, reason and update time. */
  ghost predicate Holds(l: seq<Condition>, t: ConditionType, s: Status, reason: Reason, stamp: Time) {
    t in TypesOf(l) && var c := Get(l, t).value; (c.status, c.reason, c.stamp) == (s, reason, stamp)
  }

  lemma {:induction false} WithCustomShape(r: Request, now: Time, e: Finding)
    ensures var p := WithCustom(r, now, e);
            && p == EMPTY_STATUS.(conditions := p.conditions)
            && UniqueTypes(p.conditions)
            && TypesOf(p.conditions) == TypeOf(e.custom)
            && (e.custom.Some? ==>
                  var c := e.custom.value; Holds(p.conditions, c.ctype, c.status, c.reason, StampFor(r, now)))
  {
    if e.custom.Some? {
      var c := e.custom.value;
      WithConditionGet(r, EMPTY_STATUS, now, c.ctype, c.status, c.reason);
    }
  }

  function TypeOf(custom: Option<CustomCondition>): set<ConditionType> {
    if custom.Some? then {custom.value.ctype} else {}
  }

  /** Exactly the custom condition and Ready, with the status and reason that fit the exit, which wins over a
      custom Ready; the answer of Sign; and the time of a failure or denial. */
  ghost predicate CertificateRequestPatch(
    r: Request, exit: Exit, p: RequestStatus, chain: Bytes, ca: Bytes, custom: Option<CustomCondition>, now: Time) {
    && UniqueTypes(p.conditions)
    && TypesOf(p.conditions) == TypeOf(custom) + {Ready}
    && Holds(p.conditions, Ready, ReadyWritten(r, exit).0, ReadyWritten(r, exit).1, 0)
    && (custom.Some? && custom.value.ctype != Ready ==>
          Holds(p.conditions, custom.value.ctype, custom.value.status, custom.value.reason, 0))
    && p.certificate == chain
    && p.ca == ca
    && p.failureTime == if ReadyWritten(r, exit).1 in {HasFailed, WasDenied} then Some(now) else None
  }

  /** The custom condition that a reconcile with this exit writes, if any. */
  function CustomOfExit(i: Inputs, exit: Exit): Option<CustomCondition> {
    if i.sign.SignError? && (exit.StillPending? || exit.FailedForGood? || exit.Expired? || exit.WillRetry?)
    then i.sign.err.custom else None
  }

  /** The certificate, and for a CertificateRequest the CA, that a reconcile with this exit writes. */
  function ChainOf(i: Inputs, exit: Exit): Bytes {
    if exit.Signed? && i.sign.SignOk? then i.sign.chain else []
  }

  function CAOf(s: Settings, i: Inputs, exit: Exit): Bytes {
    if exit.Signed? && i.sign.SignOk? && s.setCA then i.sign.ca else []
  }

  /** Every patch of a CertificateRequest has exactly one Ready condition and no duplicate types, even
      when Sign asks for a custom condition of type Ready. */
  lemma {:induction false} CertificateRequestPatchShape(
    s: Settings, consumers: set<GroupVersionKind>, key: IssuerKey, r: Request, i: Inputs)
    requires r.CertificateRequest?
    requires PlanOwned(s, consumers, key, r, i).patch.Some?
    ensures var o := PlanOwned(s, consumers, key, r, i);
            CertificateRequestPatch(r, o.exit, o.patch.value, ChainOf(i, o.exit), CAOf(s, i, o.exit),
                                    CustomOfExit(i, o.exit), i.now)
  {
    if InitialPatch(r, i.now).Some? {
      InitialShape(r, i.now);
    } else if Waits(i.issuer) {
      NotReadyShape(r, EMPTY_STATUS, i.now, Waiting, None);
    } else if i.sign.SignOk? {
      IssuedShape(r, i.now, s.setCA, i.sign.chain, i.sign.ca);
    } else {
      ErrorPatchShape(s, consumers, key, r, i.now, i.sign.err);
    }
  }

  lemma {:induction false} InitialShape(r: Request, now: Time)
    requires r.CertificateRequest? && InitialPatch(r, now).Some?
    ensures CertificateRequestPatch(r, Initialised, InitialPatch(r, now).value, [], [], None, now)
  {
    WithConditionGet(r, EMPTY_STATUS, now, Ready, False, WasDenied);
    WithConditionGet(r, EMPTY_STATUS, now, Ready, Unknown, Initializing);
  }

  lemma {:induction false} IssuedShape(r: Request, now: Time, setCA: bool, chain: Bytes, ca: Bytes)
    requires r.CertificateRequest?
    ensures CertificateRequestPatch(r, Signed, IssuedPatch(r, EMPTY_STATUS, now, setCA, chain, ca),
                                    chain, if setCA then ca else [], None, now)
  {
    var withChain := EMPTY_STATUS.(certificate := chain);
    WithConditionGet(r, if setCA then withChain.(ca := ca) else withChain, now, Ready, True, Issued);
  }

  lemma {:induction false} ErrorPatchShape(
    s: Settings, consumers: set<GroupVersionKind>, key: IssuerKey, r: Request, now: Time, e: Finding)
    requires r.CertificateRequest?
    requires PlanError(s.maxRetry, consumers, key, r, now, e).patch.Some?
    ensures var o := PlanError(s.maxRetry, consumers, key, r, now, e);
            && !o.exit.Signed?
            && CertificateRequestPatch(r, o.exit, o.patch.value, [], [],
                                       if o.exit.Reported? then None else e.custom, now)
  {
    var o := PlanError(s.maxRetry, consumers, key, r, now, e);
    NotReadyShape(r, EMPTY_STATUS, now, o.exit, None);
    WithCustomShape(r, now, e);
    NotReadyShape(r, WithCustom(r, now, e), now, o.exit, e.custom);
    PermanentShape(r, WithCustom(r, now, e), now, o.exit, e.custom);
  }

  /** A patch that holds the custom condition and nothing else. */
  ghost predicate OnlyCustom(r: Request, patch: RequestStatus, custom: Option<CustomCondition>, now: Time) {
    && patch == EMPTY_STATUS.(conditions := patch.conditions)
    && UniqueTypes(patch.conditions)
    && TypesOf(patch.conditions) == TypeOf(custom)
    && (custom.Some? ==>
          Holds(patch.conditions, custom.value.ctype, custom.value.status, custom.value.reason, StampFor(r, now)))
  }

  lemma {:induction false} NotReadyShape(
    r: Request, patch: RequestStatus, now: Time, exit: Exit, custom: Option<CustomCondition>)
    requires r.CertificateRequest? && OnlyCustom(r, patch, custom, now)
    ensures ReadyWritten(r, exit) == (False, Pending) ==>
              CertificateRequestPatch(r, exit, NotReadyPatch(r, patch, now), [], [], custom, now)
  {
    WithConditionGet(r, patch, now, Ready, False, Pending);
  }

  lemma {:induction false} PermanentShape(
    r: Request, patch: RequestStatus, now: Time, exit: Exit, custom: Option<CustomCondition>)
    requires r.CertificateRequest? && OnlyCustom(r, patch, custom, now)
    ensures ReadyWritten(r, exit) == (False, HasFailed) ==>
              CertificateRequestPatch(r, exit, PermanentPatch(r, patch, now), [], [], custom, now)
  {
    WithConditionGet(r, patch, now, Ready, False, HasFailed);
  }

  ghost predicate Fails(exit: Exit) {
    exit.FailedForGood? || exit.Expired?
  }

  /** Exactly the custom condition and, after a failure, Failed, which wins over a custom Failed, both updated now;
      and the certificate. */
  ghost predicate SigningRequestPatch(
    exit: Exit, p: RequestStatus, chain: Bytes, custom: Option<CustomCondition>, now: Time) {
    && UniqueTypes(p.conditions)
    && TypesOf(p.conditions) == TypeOf(custom) + (if Fails(exit) then {Failed} else {})
    && (Fails(exit) ==> Holds(p.conditions, Failed, True, HasFailed, now))
    && (custom.Some? && !(Fails(exit) && custom.value.ctype == Failed) ==>
          Holds(p.conditions, custom.value.ctype, custom.value.status, custom.value.reason, now))
    && p.certificate == chain
    && p.ca == [] && p.failureTime.None?
  }

  /** A patch of a CertificateSigningRequest holds the custom condition and, after a failure, Failed. */
  lemma {:induction false} SigningRequestPatchShape(
    s: Settings, consumers: set<GroupVersionKind>, key: IssuerKey, r: Request, i: Inputs)
    requires r.SigningRequest?
    requires PlanOwned(s, consumers, key, r, i).patch.Some?
    ensures var o := PlanOwned(s, consumers, key, r, i);
            SigningRequestPatch(o.exit, o.patch.value, ChainOf(i, o.exit), CustomOfExit(i, o.exit), i.now)
  {
    if !Waits(i.issuer) && i.sign.SignError? {
      SigningErrorShape(s, consumers, key, r, i.now, i.sign.err);
    }
  }

  lemma {:induction false} SigningErrorShape(
    s: Settings, consumers: set<GroupVersionKind>, key: IssuerKey, r: Request, now: Time, e: Finding)
    requires r.SigningRequest?
    requires PlanError(s.maxRetry, consumers, key, r, now, e).patch.Some?
    ensures var o := PlanError(s.maxRetry, consumers, key, r, now, e);
            && !o.exit.Signed?
            && SigningRequestPatch(o.exit, o.patch.value, [], if o.exit.Reported? then None else e.custom, now)
  {
    var custom := WithCustom(r, now, e);
    WithCustomShape(r, now, e);
    WithConditionGet(r, custom, now, Failed, True, HasFailed);
  }

  /*** Refinement of the lifecycle by one reconcile ***/

  /** Pending or retrying, Sign itself asks for a condition that ends a CertificateSigningRequest. */
  predicate CustomDecides(r: Request, i: Inputs, exit: Exit) {
    && r.SigningRequest?
    && (exit.StillPending? || exit.WillRetry?)
    && i.sign.SignError? && i.sign.err.custom.Some?
    && i.sign.err.custom.value.ctype in {Failed, Denied}
    && i.sign.err.custom.value.status == True
  }

  function After(r: Request, o: Outcome, d: Dropped): Request {
    if o.patch.None? then r else r.WithStatus(Apply(r.status, o.patch.value, d))
  }

  /** The phase after a reconcile of an open request. */
  function PhaseAfter(r: Request, o: Outcome): Phase {
    match o.exit
    case Signed => if r.SigningRequest? && o.patch.Some? && o.patch.value.certificate == [] then Open else IsIssued
    case FailedForGood => HasFailedForGood
    case Expired => HasFailedForGood
    case Initialised => if Has(r.status.conditions, Denied, True) then IsDeniedForGood else Open
    case _ => Open
  }

  /** Both kinds move through the same phases by the same exits, whatever the apply drops, except exactly
      when a custom condition decides. */
  lemma {:induction false} ReconcileRefinesLifecycle(
    s: Settings, consumers: set<GroupVersionKind>, r: Request, i: Inputs, d: Dropped)
    requires i.request == Found(r) && UniqueTypes(r.status.conditions)
    ensures var o := Plan(s, consumers, i);
            && UniqueTypes(After(r, o, d).status.conditions)
            && (PhaseOf(After(r, o, d)) == (if PhaseOf(r) == Open then PhaseAfter(r, o) else PhaseOf(r))
                <==> !CustomDecides(r, i, o.exit))
  {
    var o := Plan(s, consumers, i);
    if o.patch.Some? {
      GatesPassed(s, consumers, r, i);
      var key := MatchIssuerType(s.types, r).value;
      if r.CertificateRequest? {
        CertificateRequestStep(s, consumers, key, r, i, d);
      } else {
        SigningRequestStep(s, consumers, key, r, i, d);
      }
    }
  }

  /** Helper: a request that is finished is left alone: no patch, no Sign, no requeue. */
  lemma {:induction false} TerminalIsLeftAlone(s: Settings, consumers: set<GroupVersionKind>, r: Request, i: Inputs)
    requires i.request == Found(r) && PhaseOf(r) != Open
    ensures var o := Plan(s, consumers, i);
            o.patch.None? && !o.exit.Signs() && !ComesBack(o.requeue, o.error)
  {
  }

  /** Helper: Sign is called for open requests only. */
  lemma {:induction false} SignsOnlyOpen(s: Settings, consumers: set<GroupVersionKind>, r: Request, i: Inputs)
    requires i.request == Found(r) && Plan(s, consumers, i).exit.Signs()
    ensures PhaseOf(r) == Open
  {
  }

  lemma {:induction false} GatesPassed(s: Settings, consumers: set<GroupVersionKind>, r: Request, i: Inputs)
    requires i.request == Found(r) && Plan(s, consumers, i).patch.Some?
    ensures PhaseOf(r) == Open && MatchIssuerType(s.types, r).Some?
    ensures Plan(s, consumers, i) == PlanOwned(s, consumers, MatchIssuerType(s.types, r).value, r, i)
  {
  }

  lemma {:induction false} CertificateRequestStep(
    s: Settings, consumers: set<GroupVersionKind>, key: IssuerKey, r: Request, i: Inputs, d: Dropped)
    requires r.CertificateRequest? && UniqueTypes(r.status.conditions)
    requires PlanOwned(s, consumers, key, r, i).patch.Some?
    ensures var o := PlanOwned(s, consumers, key, r, i);
            var a := After(r, o, d);
            && UniqueTypes(a.status.conditions)
            && PhaseOf(a) == PhaseAfter(r, o)
            && Get(a.status.conditions, Ready) == Get(o.patch.value.conditions, Ready)
  {
    var o := PlanOwned(s, consumers, key, r, i);
    CertificateRequestPatchShape(s, consumers, key, r, i);
    CertificateRequestApply(r, o.patch.value, d);
  }

  /** The Ready condition of the patch decides the phase of a CertificateRequest. */
  lemma {:induction false} CertificateRequestApply(r: Request, p: RequestStatus, d: Dropped)
    requires r.CertificateRequest? && UniqueTypes(r.status.conditions)
    requires UniqueTypes(p.conditions) && Ready in TypesOf(p.conditions)
    ensures var a := r.WithStatus(Apply(r.status, p, d));
            var ready := Get(p.conditions, Ready);
            && UniqueTypes(a.status.conditions)
            && Get(a.status.conditions, Ready) == ready
            && PhaseOf(a) == if ready.value.status == True then IsIssued
                             else if ready.value.status == False && ready.value.reason == HasFailed
                                  then HasFailedForGood
                             else if ready.value.status == False && ready.value.reason == WasDenied then IsDeniedForGood
                             else Open
  {
    var c := Apply(r.status, p, d).conditions;
    MergeIsKeyed(r.status.conditions, p.conditions, d.conditions, Ready);
    HasIsGet(c, Ready, True);
    HasIsGet(c, Ready, False);
  }

  lemma {:induction false} SigningRequestStep(
    s: Settings, consumers: set<GroupVersionKind>, key: IssuerKey, r: Request, i: Inputs, d: Dropped)
    requires r.SigningRequest? && UniqueTypes(r.status.conditions) && PhaseOf(r) == Open
    requires PlanOwned(s, consumers, key, r, i).patch.Some?
    ensures var o := PlanOwned(s, consumers, key, r, i);
            && UniqueTypes(After(r, o, d).status.conditions)
            && (PhaseOf(After(r, o, d)) == PhaseAfter(r, o) <==> !CustomDecides(r, i, o.exit))
  {
    var o := PlanOwned(s, consumers, key, r, i);
    SigningRequestPatchShape(s, consumers, key, r, i);
    SigningRequestApply(r, o.patch.value, d);
    SigningPhaseAfter(r, i, o);
  }

  /** The phase that the patch of an open CertificateSigningRequest leads to. */
  function SigningPhase(p: RequestStatus): Phase {
    if p.certificate != [] then IsIssued
    else if Failed in TypesOf(p.conditions) && Get(p.conditions, Failed).value.status == True then HasFailedForGood
    else if Denied in TypesOf(p.conditions) && Get(p.conditions, Denied).value.status == True then IsDeniedForGood
    else Open
  }

  lemma {:induction false} SigningPhaseAfter(r: Request, i: Inputs, o: Outcome)
    requires r.SigningRequest? && o.patch.Some? && !o.exit.Initialised?
    requires SigningRequestPatch(o.exit, o.patch.value, ChainOf(i, o.exit), CustomOfExit(i, o.exit), i.now)
    ensures SigningPhase(o.patch.value) == PhaseAfter(r, o) <==> !CustomDecides(r, i, o.exit)
  {
    var p, custom := o.patch.value, CustomOfExit(i, o.exit);
    assert Failed in TypesOf(p.conditions) <==> Fails(o.exit) || (custom.Some? && custom.value.ctype == Failed);
    assert Denied in TypesOf(p.conditions) <==> custom.Some? && custom.value.ctype == Denied;
  }

  /** The certificate and the verdicts of the patch decide the phase of an open CertificateSigningRequest. */
  lemma {:induction false} SigningRequestApply(r: Request, p: RequestStatus, d: Dropped)
    requires r.SigningRequest? && UniqueTypes(r.status.conditions) && PhaseOf(r) == Open && UniqueTypes(p.conditions)
    ensures var a := r.WithStatus(Apply(r.status, p, d));
            UniqueTypes(a.status.conditions) && PhaseOf(a) == SigningPhase(p)
  {
    var a, b := Apply(r.status, p, d).conditions, r.status.conditions;
    MergeIsKeyed(b, p.conditions, d.conditions, Failed);
    MergeIsKeyed(b, p.conditions, d.conditions, Denied);
    HasIsGet(a, Failed, True);
    HasIsGet(b, Failed, True);
    HasIsGet(a, Denied, True);
    HasIsGet(b, Denied, True);
  }
}
