/** When Sign asks for a custom condition that changes, the controller does not requeue, because the
    change itself should wake the request. This module says exactly when that is so.
 */
module SkippedRequeue {
  import opened Conditions
  import opened ControllerRuntime
  import opened IssuerTypes
  import opened Lifecycle
  import opened Patches
  import opened Predicates
  import opened RequestController
  import opened Requests
  import opened ServerSideApply
  import opened SignerErrors

  /** The custom condition that a patch carries. */
  ghost predicate Carries(r: Request, p: RequestStatus, c: CustomCondition) {
    && UniqueTypes(p.conditions)
    && c.ctype in TypesOf(p.conditions)
    && Get(p.conditions, c.ctype).value.status == c.status
    && (r.CertificateRequest? ==> Ready in TypesOf(p.conditions))
  }

  /** A pending or retryable exit leaves the custom condition in the patch, unless it is the Ready
      condition of a CertificateRequest. */
  lemma {:induction false} SkippingPatchCarries(
    maxRetry: int, consumers: set<GroupVersionKind>, key: IssuerKey, r: Request, now: Time, e: Finding)
    requires SkipsRequeue(r, e) && (r.CertificateRequest? ==> e.custom.value.ctype != Ready)
    requires var o := PlanError(maxRetry, consumers, key, r, now, e); o.exit.StillPending? || o.exit.WillRetry?
    ensures Carries(r, PlanError(maxRetry, consumers, key, r, now, e).patch.value, e.custom.value)
  {
    WithCustomShape(r, now, e);
    if r.CertificateRequest? {
      WithConditionGet(r, WithCustom(r, now, e), now, Ready, False, Pending);
    }
  }

  /** The request after its patch was applied to the latest stored version. */
  function Patched(stored: Request, p: RequestStatus, d: Dropped): Request {
    stored.WithStatus(Apply(stored.status, p, d))
  }

  /** Whatever others did to the request between the read and the apply, removing Ready included, and
      whatever the apply drops: some update of the chain passes the request's predicate. */
  lemma {:induction false} SkippingIsSafe(
    log: seq<Request>, i: int, m: int, p: RequestStatus, d: Dropped, c: CustomCondition)
    requires 0 <= i < m < |log| && WellFormed(log) && log[m] == Patched(log[m - 1], p, d)
    requires Carries(log[i], p, c) && CustomTransitions(log[i], c)
    requires log[i].CertificateRequest? ==> c.ctype != Ready && Get(log[i].status.conditions, Ready).Some?
    ensures !Silent(log, i, m)
  {
    PatchedKeepsPatch(log[m - 1], p, d, c.ctype);
    PatchedKeepsPatch(log[m - 1], p, d, Ready);
    if Silent(log, i, m) {
      SilentChain(log, i, m);
      StatusesDiffer(log[i].status.conditions, log[m].status.conditions, c);
    }
  }

  lemma {:induction false} PatchedKeepsPatch(stored: Request, p: RequestStatus, d: Dropped, t: ConditionType)
    requires UniqueTypes(stored.status.conditions) && UniqueTypes(p.conditions)
    ensures var n := Patched(stored, p, d);
            && UniqueTypes(n.status.conditions) && SameKind(stored, n)
            && (t in TypesOf(p.conditions) ==> Get(n.status.conditions, t) == Get(p.conditions, t))
  {
    MergeIsKeyed(stored.status.conditions, p.conditions, d.conditions, t);
  }

  lemma {:induction false} StatusesDiffer(a: seq<Condition>, b: seq<Condition>, c: CustomCondition)
    requires Get(a, c.ctype).None? || Get(a, c.ctype).value.status != c.status
    requires Get(b, c.ctype).Some? && Get(b, c.ctype).value.status == c.status
    ensures StatusMap(a) != StatusMap(b)
    ensures c.ctype != Ready ==> !SameOutsideReady(StatusMap(a), StatusMap(b))
  {
    assert StatusMap(b)[c.ctype] == c.status;
    if c.ctype != Ready {
      Without(StatusMap(a), Ready);
      Without(StatusMap(b), Ready);
      assert (StatusMap(b) - {Ready})[c.ctype] == c.status;
    }
  }

  /*** Where it is not safe ***/

  /** Applying a patch to the list drops some type other than those of the patch. */
  ghost predicate DropsSome(stored: seq<Condition>, patched: set<ConditionType>, d: Dropped) {
    exists t :: t in TypesOf(stored) && t !in patched && t in d.conditions
  }

  /** A custom Ready condition is the one case that is not safe: although the requeue may have been skipped,
      the update passes only if the apply happens to drop another condition. */
  lemma {:induction false} SkippingOnReadyPassesExactly(
    maxRetry: int, consumers: set<GroupVersionKind>, key: IssuerKey, r: Request, now: Time, e: Finding, d: Dropped)
    requires r.CertificateRequest? && UniqueTypes(r.status.conditions) && Get(r.status.conditions, Ready).Some?
    requires e.custom.Some? && e.custom.value.ctype == Ready
    requires var o := PlanError(maxRetry, consumers, key, r, now, e); o.exit.StillPending? || o.exit.WillRetry?
    ensures RequestUpdate(r, Patched(r, PlanError(maxRetry, consumers, key, r, now, e).patch.value, d))
            <==> DropsSome(r.status.conditions, {Ready}, d)
  {
    var p := NotReadyPatch(r, WithCustom(r, now, e), now);
    WithCustomShape(r, now, e);
    WithConditionGet(r, WithCustom(r, now, e), now, Ready, False, Pending);
    assert TypesOf(p.conditions) == {Ready};
    OnlyReadyPassesExactly(r, p, d);
  }

  lemma {:induction false} OnlyReadyPassesExactly(r: Request, p: RequestStatus, d: Dropped)
    requires r.CertificateRequest? && UniqueTypes(r.status.conditions) && Get(r.status.conditions, Ready).Some?
    requires UniqueTypes(p.conditions) && TypesOf(p.conditions) == {Ready}
    ensures RequestUpdate(r, Patched(r, p, d)) <==> DropsSome(r.status.conditions, {Ready}, d)
  {
    var n := Patched(r, p, d);
    var a, b := r.status.conditions, n.status.conditions;
    forall t ensures UniqueTypes(b)
                     && Get(b, t) == if t == Ready then Get(p.conditions, Ready)
                                     else if t in d.conditions then None else Get(a, t)
    {
      MergeIsKeyed(a, p.conditions, d.conditions, t);
    }
    CertificateRequestUpdateExact(r, n);
    if DropsSome(a, {Ready}, d) {
      var t :| t in TypesOf(a) && t !in {Ready} && t in d.conditions;
      MissingOutsideReady(a, b, t);
    } else {
      forall t | t != Ready ensures Get(a, t) == Get(b, t) {
        assert t in TypesOf(a) && t !in {Ready} ==> t !in d.conditions;
      }
      EqualOutsideReady(a, b);
    }
  }

  lemma {:induction false} MissingOutsideReady(a: seq<Condition>, b: seq<Condition>, t: ConditionType)
    requires t != Ready && Get(a, t).Some? && Get(b, t).None? && Get(b, Ready).Some?
    ensures !SameOutsideReady(StatusMap(a), StatusMap(b)) && !ReadyReplaced(StatusMap(a), StatusMap(b))
  {
    assert t in StatusMap(a) - {Ready} && t !in StatusMap(b) - {Ready};
    assert Ready in StatusMap(b);
  }

  lemma {:induction false} EqualOutsideReady(a: seq<Condition>, b: seq<Condition>)
    requires forall t :: t != Ready ==> Get(a, t) == Get(b, t)
    requires Get(a, Ready).Some? && Get(b, Ready).Some?
    ensures SameOutsideReady(StatusMap(a), StatusMap(b))
  {
    var x, y := StatusMap(a), StatusMap(b);
    forall t ensures t in x <==> t in y {
      assert t in x <==> Get(a, t).Some?;
      assert t in y <==> Get(b, t).Some?;
    }
    forall t | t in x && t != Ready ensures x[t] == y[t] {
      assert Get(a, t) == Get(b, t);
    }
    assert x - {Ready} == y - {Ready};
  }

  /** The other case of a request left asleep: a CertificateSigningRequest for which Sign returned an empty
      chain stays open and is not requeued, and its update passes only if the apply happens to drop a
      condition. */
  lemma {:induction false} EmptyChainPassesExactly(
    s: Settings, consumers: set<GroupVersionKind>, r: Request, i: Inputs, d: Dropped)
    requires i.request == Found(r) && r.SigningRequest? && UniqueTypes(r.status.conditions)
    requires Plan(s, consumers, i).exit.Signed? && i.sign.SignOk? && i.sign.chain == []
    ensures var o := Plan(s, consumers, i);
            && PhaseOf(After(r, o, d)) == Open
            && !ComesBack(o.requeue, o.error)
            && (RequestUpdate(r, After(r, o, d)) <==> DropsSome(r.status.conditions, {}, d))
  {
    var o := Plan(s, consumers, i);
    ReconcileRefinesLifecycle(s, consumers, r, i, d);
    assert o.patch.value.conditions == [];
    EmptyPatchPassesExactly(r, After(r, o, d), d);
  }

  lemma {:induction false} EmptyPatchPassesExactly(r: Request, n: Request, d: Dropped)
    requires r.SigningRequest? && n.SigningRequest? && UniqueTypes(r.status.conditions)
    requires n.status.conditions == Merge(r.status.conditions, [], d.conditions) && n.meta == r.meta
    ensures RequestUpdate(r, n) <==> DropsSome(r.status.conditions, {}, d)
  {
    var a, b := r.status.conditions, n.status.conditions;
    forall t ensures UniqueTypes(b) && Get(b, t) == if t in d.conditions then None else Get(a, t) {
      MergeIsKeyed(a, [], d.conditions, t);
    }
    SigningRequestUpdateExact(r, n);
    if DropsSome(a, {}, d) {
      var t :| t in TypesOf(a) && t !in {} && t in d.conditions;
      assert t in StatusMap(a) && t !in StatusMap(b);
    } else {
      forall t ensures Get(a, t) == Get(b, t) {
        assert t in TypesOf(a) && t !in {} ==> t !in d.conditions;
      }
      assert forall t :: t in TypesOf(a) <==> Get(a, t).Some?;
      assert forall t :: t in TypesOf(b) <==> Get(b, t).Some?;
      assert StatusMap(a) == StatusMap(b);
    }
  }

  /*** The controller's own writes ***/

  /** No patch of the controller replaces Ready by another type, so its own writes never reach the exception
      of the CertificateRequest predicate. */
  lemma {:induction false} OwnWritesKeepReady(
    s: Settings, consumers: set<GroupVersionKind>, r: Request, i: Inputs, stored: Request, d: Dropped)
    requires i.request == Found(r) && r.CertificateRequest? && stored.CertificateRequest?
    requires UniqueTypes(stored.status.conditions) && Plan(s, consumers, i).patch.Some?
    ensures var n := Patched(stored, Plan(s, consumers, i).patch.value, d);
            var a, b := StatusMap(stored.status.conditions), StatusMap(n.status.conditions);
            && !ReadyReplaced(a, b)
            && (!RequestUpdate(stored, n) <==> SameOutsideReady(a, b))
  {
    var p := Plan(s, consumers, i).patch.value;
    GatesPassed(s, consumers, r, i);
    CertificateRequestPatchShape(s, consumers, MatchIssuerType(s.types, r).value, r, i);
    PatchedKeepsPatch(stored, p, d, Ready);
    var n := Patched(stored, p, d);
    assert Get(n.status.conditions, Ready).Some?;
    assert Ready in StatusMap(n.status.conditions);
    CertificateRequestUpdateExact(stored, n);
  }
}
