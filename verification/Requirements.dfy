/** What a reconcile of a request is required to do, said about the objects and errors themselves: which conditions
    let it through, when it initialises, waits or calls Sign, what becomes of the answer, and what is written.
    Nothing here is said through the tests, searches and patch setters that the reconcile uses.
 */
module Requirements {
  import opened Conditions
  import opened ControllerRuntime
  import opened ErrorPaths
  import opened IssuerTypes
  import opened Lifecycle
  import opened Patches
  import opened RequestController
  import opened Requests
  import opened SignerErrors
  import IssuerController

  /*** The tests of a request ***/

  /** The list has a condition of the type with the status. */
  ghost predicate Shows(l: seq<Condition>, t: ConditionType, s: Status) {
    exists c :: c in l && c.ctype == t && c.status == s
  }

  ghost predicate ShowsReason(l: seq<Condition>, t: ConditionType, s: Status, reason: Reason) {
    exists c :: c in l && c.ctype == t && c.status == s && c.reason == reason
  }

  /** What each test of a request looks for, and the phase that follows. */
  lemma {:induction false} TestsReadTheStatus(r: Request)
    ensures r.IsApproved() <==> Shows(r.status.conditions, Approved, True)
    ensures r.CertificateRequest? ==>
              && (r.IsReady() <==> Shows(r.status.conditions, Ready, True))
              && (r.IsFailed() <==> ShowsReason(r.status.conditions, Ready, False, HasFailed))
              && (r.IsDenied() <==> ShowsReason(r.status.conditions, Ready, False, WasDenied))
    ensures r.SigningRequest? ==>
              && (r.IsReady() <==> r.status.certificate != [])
              && (r.IsFailed() <==> Shows(r.status.conditions, Failed, True))
              && (r.IsDenied() <==> Shows(r.status.conditions, Denied, True))
    ensures PhaseOf(r) == Open <==> HasNoVerdict(r)
  {
    HasLooksEverywhere(r.status.conditions, Approved, True);
    HasLooksEverywhere(r.status.conditions, Ready, True);
    HasLooksEverywhere(r.status.conditions, Ready, False);
    HasLooksEverywhere(r.status.conditions, Failed, True);
    HasLooksEverywhere(r.status.conditions, Denied, True);
  }

  /** The request is neither issued nor failed nor denied. */
  ghost predicate HasNoVerdict(r: Request) {
    match r
    case CertificateRequest(_, _, status) =>
      && !Shows(status.conditions, Ready, True)
      && !ShowsReason(status.conditions, Ready, False, HasFailed)
      && !ShowsReason(status.conditions, Ready, False, WasDenied)
    case SigningRequest(_, _, status) =>
      status.certificate == [] && !Shows(status.conditions, Failed, True) && !Shows(status.conditions, Denied, True)
  }

  /*** Gates ***/

  /** The reconcile goes on to work on the request. */
  ghost predicate Admitted(s: Settings, r: Request, hook: Hook) {
    && MatchIssuerType(s.types, r).Some?
    && Shows(r.status.conditions, Approved, True)
    && HasNoVerdict(r)
    && (hook == NoHook || hook == HookSays(false))
  }

  /** A CertificateRequest that must be initialised first: it has no Ready condition, or was denied. */
  ghost predicate NeedsInitialising(r: Request) {
    && r.CertificateRequest?
    && (Shows(r.status.conditions, Denied, True) || forall c :: c in r.status.conditions ==> c.ctype != Ready)
  }

  /** The issuer has been checked for its current generation: its first Ready condition is True and not older. */
  ghost predicate IsCurrent(issuer: Issuer) {
    exists k :: IsFirst(issuer.conditions, k, Ready)
                && issuer.conditions[k].status == True && issuer.conditions[k].stamp >= issuer.generation
  }

  lemma {:induction false} ReadyForExactly(issuer: Issuer)
    ensures !issuer.NotReadyFor() <==> IsCurrent(issuer)
  {
    GetIsFirst(issuer.conditions, Ready);
    if Get(issuer.conditions, Ready).Some? {
      var k := FirstOf(issuer.conditions, Ready);
    }
  }

  lemma {:induction false} FirstOf(l: seq<Condition>, t: ConditionType) returns (k: nat)
    requires exists c :: c in l && c.ctype == t
    ensures IsFirst(l, k, t)
  {
    if l[0].ctype == t {
      k := 0;
    } else {
      assert forall c :: c in l <==> c == l[0] || c in l[1..];
      var j := FirstOf(l[1..], t);
      k := j + 1;
      assert forall n :: 1 <= n < |l| ==> l[n] == l[1..][n - 1];
    }
  }

  lemma {:induction false} InitialisesExactly(r: Request, now: Time)
    ensures InitialPatch(r, now).Some? <==> NeedsInitialising(r)
  {
    HasLooksEverywhere(r.status.conditions, Denied, True);
    GetIsFirst(r.status.conditions, Ready);
  }

  /** Sign is called exactly for an approved request without a verdict that refers to one of the issuer types and is
      not ignored, that needs no initialising, and whose issuer has been checked for its current generation. */
  lemma {:induction false} SignIsCalledExactly(
    s: Settings, consumers: set<GroupVersionKind>, r: Request, i: InputsOf<Error>)
    requires i.request == Found(r)
    ensures var exit := Plan(s, consumers, Inspected(i)).exit;
            && (exit.Signs()
                <==> && Admitted(s, r, i.hook) && !NeedsInitialising(r)
                     && i.issuer.Found? && IsCurrent(i.issuer.value))
            && (exit.Signed? <==> exit.Signs() && i.sign.SignOk?)
  {
    AdmittedIsOwned(s, consumers, r, Inspected(i));
    OwnedExits(s, consumers, MatchIssuerType(s.types, r), r, Inspected(i));
  }

  /** Admitted requests are planned for in earnest, and no others. */
  lemma {:induction false} AdmittedIsOwned(s: Settings, consumers: set<GroupVersionKind>, r: Request, i: Inputs)
    requires i.request == Found(r)
    ensures Admitted(s, r, i.hook) ==>
              Plan(s, consumers, i) == PlanOwned(s, consumers, MatchIssuerType(s.types, r).value, r, i)
    ensures !Admitted(s, r, i.hook) ==>
              var o := Plan(s, consumers, i);
              !o.exit.Signs() && !o.exit.Initialised? && !o.exit.Waiting? && o.patch.None?
  {
    TestsReadTheStatus(r);
  }

  lemma {:induction false} OwnedExits(
    s: Settings, consumers: set<GroupVersionKind>, key: Option<IssuerKey>, r: Request, i: Inputs)
    ensures key.Some? ==>
              var exit := PlanOwned(s, consumers, key.value, r, i).exit;
              && (exit.Initialised? <==> NeedsInitialising(r))
              && (exit.Signs() <==> !NeedsInitialising(r) && i.issuer.Found? && IsCurrent(i.issuer.value))
              && (exit.Signed? <==> exit.Signs() && i.sign.SignOk?)
              && (exit.Waiting?
                  <==> !NeedsInitialising(r)
                       && (i.issuer.NotFound? || (i.issuer.Found? && !IsCurrent(i.issuer.value))))
  {
    InitialisesExactly(r, i.now);
    if i.issuer.Found? {
      ReadyForExactly(i.issuer.value);
    }
  }

  /** It is initialised exactly when it is admitted and needs to be, and waits exactly when it does not and its
      issuer is missing or has not been checked for its current generation. */
  lemma {:induction false} WaitsExactly(
    s: Settings, consumers: set<GroupVersionKind>, r: Request, i: InputsOf<Error>)
    requires i.request == Found(r)
    ensures var exit := Plan(s, consumers, Inspected(i)).exit;
            && (exit.Initialised? <==> Admitted(s, r, i.hook) && NeedsInitialising(r))
            && (exit.Waiting?
                <==> && Admitted(s, r, i.hook) && !NeedsInitialising(r)
                     && (i.issuer.NotFound? || (i.issuer.Found? && !IsCurrent(i.issuer.value))))
  {
    AdmittedIsOwned(s, consumers, r, Inspected(i));
    OwnedExits(s, consumers, MatchIssuerType(s.types, r), r, Inspected(i));
  }

  /** A request that is not admitted is left alone, and unless the hook failed it is not requeued: in particular
      one without an Approved condition, whatever else it has. */
  lemma {:induction false} OthersAreLeftAlone(
    s: Settings, consumers: set<GroupVersionKind>, r: Request, i: InputsOf<Error>)
    requires i.request == Found(r) && !Admitted(s, r, i.hook)
    ensures var o := Plan(s, consumers, Inspected(i));
            && o.patch.None? && !o.exit.Signs()
            && (i.hook.HookError? || !ComesBack(o.requeue, o.error))
            && (!Shows(r.status.conditions, Approved, True) ==> !ComesBack(o.requeue, o.error))
  {
    TestsReadTheStatus(r);
  }

  /** An open CertificateRequest with a Denied condition is marked as denied exactly when it is approved
      as well; with the denial alone it is ignored. */
  lemma {:induction false} DenialNeedsApproval(
    s: Settings, consumers: set<GroupVersionKind>, r: Request, i: Inputs, d: Dropped)
    requires i.request == Found(r) && r.CertificateRequest? && UniqueTypes(r.status.conditions)
    requires HasNoVerdict(r) && Shows(r.status.conditions, Denied, True)
    requires MatchIssuerType(s.types, r).Some? && (i.hook == NoHook || i.hook == HookSays(false))
    ensures var o := Plan(s, consumers, i);
            var after := After(r, o, d);
            && (ShowsReason(after.status.conditions, Ready, False, WasDenied)
                <==> Shows(r.status.conditions, Approved, True))
            && (!Shows(r.status.conditions, Approved, True) ==> after == r && !ComesBack(o.requeue, o.error))
  {
    var after := After(r, Plan(s, consumers, i), d);
    TestsReadTheStatus(r);
    TestsReadTheStatus(after);
    HasLooksEverywhere(r.status.conditions, Denied, True);
    ReconcileRefinesLifecycle(s, consumers, r, i, d);
  }

  /*** The answer of Sign ***/

  /** What the controller looks for in an error does not change anything else it is given. */
  lemma {:induction false} InspectionKeepsInputs(i: InputsOf<Error>)
    ensures var j := Inspected(i);
            && (j.request, j.hook, j.issuer, j.now) == (i.request, i.hook, i.issuer, i.now)
            && (i.sign.SignOk? ==> j.sign.SignOk? && j.sign.chain == i.sign.chain && j.sign.ca == i.sign.ca)
            && (i.sign.SignError? ==> j.sign.SignError?)
  {
  }

  ghost predicate Contains(e: Error, k: Kind) {
    exists p :: Occurs(e, p, k)
  }

  /** An answer that is an error, by what it contains: an issuer error is reported or refused; otherwise a pending
      one is waited for; otherwise the request fails exactly if it contains a permanent error or more than the
      retry duration has passed since its creation. */
  lemma {:induction false} ErrorIsJudgedExactly(
    s: Settings, consumers: set<GroupVersionKind>, r: Request, i: InputsOf<Error>)
    requires i.request == Found(r) && i.sign.SignError? && Plan(s, consumers, Inspected(i)).exit.Signs()
    ensures var exit, e := Plan(s, consumers, Inspected(i)).exit, i.sign.err;
            && (exit.Reported? || exit.ReportRefused? <==> Contains(e, IssuerErr))
            && (exit.StillPending? <==> !Contains(e, IssuerErr) && Contains(e, PendingErr))
            && (Fails(exit)
                <==> && !Contains(e, IssuerErr) && !Contains(e, PendingErr)
                     && (Contains(e, PermanentErr) || i.now - r.meta.creation > s.maxRetry))
            && (exit.WillRetry?
                <==> && !Contains(e, IssuerErr) && !Contains(e, PendingErr)
                     && !Contains(e, PermanentErr) && i.now - r.meta.creation <= s.maxRetry)
  {
    SignErrorIsPlanned(s, consumers, r, Inspected(i));
    ErrorExits(s.maxRetry, consumers, MatchIssuerType(s.types, r).value, r, i.now, i.sign.err);
  }

  lemma {:induction false} SignErrorIsPlanned(s: Settings, consumers: set<GroupVersionKind>, r: Request, i: Inputs)
    requires i.request == Found(r) && i.sign.SignError? && Plan(s, consumers, i).exit.Signs()
    ensures MatchIssuerType(s.types, r).Some?
    ensures Plan(s, consumers, i)
            == PlanError(s.maxRetry, consumers, MatchIssuerType(s.types, r).value, r, i.now, i.sign.err)
  {
  }

  lemma {:induction false} ErrorExits(
    maxRetry: int, consumers: set<GroupVersionKind>, key: IssuerKey, r: Request, now: Time, e: Error)
    ensures var exit := PlanError(maxRetry, consumers, key, r, now, Inspect(e)).exit;
            && (exit.Reported? || exit.ReportRefused? <==> Contains(e, IssuerErr))
            && (exit.StillPending? <==> !Contains(e, IssuerErr) && Contains(e, PendingErr))
            && (Fails(exit)
                <==> && !Contains(e, IssuerErr) && !Contains(e, PendingErr)
                     && (Contains(e, PermanentErr) || now - r.meta.creation > maxRetry))
            && (exit.WillRetry?
                <==> && !Contains(e, IssuerErr) && !Contains(e, PendingErr)
                     && !Contains(e, PermanentErr) && now - r.meta.creation <= maxRetry)
  {
    InspectFindsKinds(e);
    KindsAreThoseThatOccur(e, IssuerErr);
    KindsAreThoseThatOccur(e, PendingErr);
    KindsAreThoseThatOccur(e, PermanentErr);
  }

  /** What is reported is the error inside the outermost issuer error, to the issuer that the request refers to. */
  lemma {:induction false} ReportsOutermost(
    s: Settings, consumers: set<GroupVersionKind>, r: Request, i: InputsOf<Error>, p: Path)
    requires i.request == Found(r) && i.sign.SignError? && IsOutermost(i.sign.err, p, IssuerErr)
    requires Plan(s, consumers, Inspected(i)).exit.Reported?
    ensures var exit := Plan(s, consumers, Inspected(i)).exit;
            MatchIssuerType(s.types, r) == Some(exit.key) && exit.err == At(i.sign.err, p).value.err
  {
    PayloadIsOutermost(i.sign.err);
  }

  /*** What is written ***/

  /** The custom condition that is written with this exit: that of the outermost condition error. */
  ghost predicate AsksFor(i: InputsOf<Error>, exit: Exit, custom: Option<CustomCondition>) {
    if i.sign.SignError? && (exit.StillPending? || Fails(exit) || exit.WillRetry?)
       && Contains(i.sign.err, ConditionErr) then
      forall p :: IsOutermost(i.sign.err, p, ConditionErr) ==> custom == Some(At(i.sign.err, p).value.custom)
    else
      custom.None?
  }

  lemma {:induction false} CustomIsAskedFor(i: InputsOf<Error>, exit: Exit)
    ensures AsksFor(i, exit, CustomOfExit(Inspected(i), exit))
  {
    if i.sign.SignError? {
      CustomIsOutermost(i.sign.err);
    }
  }

  /** The certificate and CA in a patch are those that Sign returned, the CA where it is to be set on a
      CertificateRequest; the conditions are the custom one and the controller's own. */
  lemma {:induction false} PatchHoldsTheAnswer(
    s: Settings, consumers: set<GroupVersionKind>, r: Request, i: InputsOf<Error>)
    requires i.request == Found(r) && Plan(s, consumers, Inspected(i)).patch.Some?
    ensures var o := Plan(s, consumers, Inspected(i));
            var p := o.patch.value;
            && p.certificate == (if o.exit.Signed? && i.sign.SignOk? then i.sign.chain else [])
            && p.ca == (if o.exit.Signed? && i.sign.SignOk? && r.CertificateRequest? && s.setCA then i.sign.ca else [])
            && exists custom ::
                 && AsksFor(i, o.exit, custom)
                 && if r.CertificateRequest? then
                      CertificateRequestPatch(r, o.exit, p, p.certificate, p.ca, custom, i.now)
                    else SigningRequestPatch(o.exit, p, p.certificate, custom, i.now)
  {
    var j := Inspected(i);
    var o := Plan(s, consumers, j);
    InspectionKeepsInputs(i);
    GatesPassed(s, consumers, r, j);
    var key := MatchIssuerType(s.types, r).value;
    CustomIsAskedFor(i, o.exit);
    if r.CertificateRequest? {
      CertificateRequestPatchShape(s, consumers, key, r, j);
    } else {
      SigningRequestPatchShape(s, consumers, key, r, j);
    }
  }

  /** The requeue is skipped for a custom condition exactly when the first condition of its type, if there is one,
      has another status. */
  lemma {:induction false} TransitionsExactly(r: Request, c: CustomCondition)
    ensures CustomTransitions(r, c)
            <==> forall k :: IsFirst(r.status.conditions, k, c.ctype) ==> r.status.conditions[k].status != c.status
  {
    GetIsFirst(r.status.conditions, c.ctype);
    if Get(r.status.conditions, c.ctype).Some? {
      var k := FirstOf(r.status.conditions, c.ctype);
    }
  }

  /*** The issuer ***/

  /** The first Ready condition says that the issuer failed for good, and is not older than its generation. */
  ghost predicate HasFailedForItsGeneration(issuer: Issuer) {
    exists k :: IsFirst(issuer.conditions, k, Ready)
                && issuer.conditions[k].status == False && issuer.conditions[k].reason == HasFailed
                && issuer.conditions[k].stamp >= issuer.generation
  }

  lemma {:induction false} FailedExactly(issuer: Issuer)
    ensures IssuerController.IsFailed(issuer) <==> HasFailedForItsGeneration(issuer)
    ensures Get(issuer.conditions, Ready).Some? <==> exists c :: c in issuer.conditions && c.ctype == Ready
    ensures Get(issuer.conditions, Ready).Some? && Get(issuer.conditions, Ready).value.status == True
            <==> exists k :: IsFirst(issuer.conditions, k, Ready) && issuer.conditions[k].status == True
  {
    GetIsFirst(issuer.conditions, Ready);
    if Get(issuer.conditions, Ready).Some? {
      var k := FirstOf(issuer.conditions, Ready);
    }
  }

  /** A reconcile of an issuer patches its status exactly when it finds the issuer, which has not failed for its
      generation, and no hook holds it back. It calls Check exactly when moreover there is a Ready condition, and
      it is not True with a report to be used in place of Check. */
  lemma {:induction false} CheckIsCalledExactly(i: IssuerController.Inputs, reported: Option<Error>)
    ensures var o := IssuerController.Plan(i, reported);
            && (o.patch.Some?
                <==> && i.issuer.Found? && !HasFailedForItsGeneration(i.issuer.value)
                     && (i.hook == NoHook || i.hook == HookSays(false)))
            && (o.calledCheck
                <==> && o.patch.Some? && (exists c :: c in i.issuer.value.conditions && c.ctype == Ready)
                     && (reported.None? || !exists k :: IsFirst(i.issuer.value.conditions, k, Ready)
                                                        && i.issuer.value.conditions[k].status == True))
  {
    if i.issuer.Found? {
      FailedExactly(i.issuer.value);
    }
  }
}
