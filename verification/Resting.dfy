/** What a silent chain of versions means for a sleeping request: every test the reconciler makes has
    the same answer on the last version as on the one it read, or as its own patch gave.
 */
module Resting {
  import opened Conditions
  import opened ControllerRuntime
  import opened IssuerTypes
  import opened Lifecycle
  import opened Patches
  import opened Predicates
  import opened RequestController
  import opened RequestRuns
  import opened Requests
  import opened ServerSideApply
  import opened SkippedRequeue

  /** The linked issuer as the cache shows it. */
  function ReadOf(issuer: Option<Issuer>): Read<Issuer> {
    if issuer.Some? then Found(issuer.value) else NotFound
  }

  /** There is nothing for the reconciler to do: the request is not ours, not approved, finished, or
      initialised and waiting for its issuer. */
  ghost predicate AtRest(s: Settings, r: Request, issuer: Option<Issuer>) {
    || MatchIssuerType(s.types, r).None?
    || (!r.IsApproved() && !r.IsDenied())
    || r.IsTerminal()
    || (InitialPatch(r, 0).None? && Waits(ReadOf(issuer)))
  }

  /** At rest means exactly that a reconcile with fresh reads neither initialises nor calls Sign. */
  lemma {:induction false} AtRestMeansNothingToDo(
    s: Settings, consumers: set<GroupVersionKind>, r: Request, issuer: Option<Issuer>, sign: SignResult, now: Time)
    ensures var o := Plan(s, consumers, Inputs(Found(r), NoHook, ReadOf(issuer), sign, now));
            AtRest(s, r, issuer) <==> !o.exit.Initialised? && !o.exit.Signs()
  {
    assert InitialPatch(r, now).None? <==> InitialPatch(r, 0).None?;
  }

  /*** The tests, as functions of statuses ***/

  /** The statuses that the tests of a request depend on are the same. */
  ghost predicate SameStatuses(a: Request, b: Request) {
    if a.CertificateRequest? then SameOutsideReady(StatusMap(a.status.conditions), StatusMap(b.status.conditions))
    else StatusMap(a.status.conditions) == StatusMap(b.status.conditions)
  }

  lemma {:induction false} SameStatus(a: Request, b: Request, t: ConditionType, s: Status)
    requires UniqueTypes(a.status.conditions) && UniqueTypes(b.status.conditions)
    requires SameStatuses(a, b) && (a.CertificateRequest? ==> t != Ready)
    ensures Has(a.status.conditions, t, s) <==> Has(b.status.conditions, t, s)
  {
    var x, y := StatusMap(a.status.conditions), StatusMap(b.status.conditions);
    HasIsGet(a.status.conditions, t, s);
    HasIsGet(b.status.conditions, t, s);
    Without(x, Ready);
    Without(y, Ready);
    assert t in x <==> Get(a.status.conditions, t).Some?;
    assert t in y <==> Get(b.status.conditions, t).Some?;
  }

  /** Version k was made by others. */
  ghost predicate Edited(log: seq<Request>, k: int)
    requires 0 < k < |log|
  {
    Respects(log[k - 1], log[k])
  }

  /** Versions from index i to j follow each other by edits of others. */
  ghost predicate EditsOnly(log: seq<Request>, i: int, j: int) {
    0 <= i <= j < |log| && forall k :: i < k <= j ==> Edited(log, k)
  }

  /** Appending versions does not change who made the earlier ones. */
  lemma {:induction false} EditsStay(log: seq<Request>, longer: seq<Request>, i: int, j: int)
    requires EditsOnly(log, i, j) && log <= longer
    ensures EditsOnly(longer, i, j)
  {
    forall k | i < k <= j ensures Edited(longer, k) {
      assert Edited(log, k);
    }
  }

  /** What edits of others cannot change. */
  ghost predicate SameOwned(a: Request, b: Request) {
    && a.meta.key == b.meta.key
    && a.status.certificate == b.status.certificate
    && match a
       case CertificateRequest(_, ref, _) =>
         b.CertificateRequest? && b.issuerRef == ref
         && Get(b.status.conditions, Ready) == Get(a.status.conditions, Ready)
       case SigningRequest(_, name, _) =>
         b.SigningRequest? && b.signerName == name
         && Get(b.status.conditions, Failed) == Get(a.status.conditions, Failed)
  }

  lemma {:induction false} EditsKeepOwned(log: seq<Request>, i: int, j: int)
    requires EditsOnly(log, i, j)
    ensures SameOwned(log[i], log[j])
    decreases j
  {
    if i < j {
      EditsKeepOwned(log, i, j - 1);
      assert Edited(log, j);
    }
  }

  /** Same statuses and same owned fields: same answers. */
  lemma {:induction false} SameAnswers(s: Settings, a: Request, b: Request)
    requires UniqueTypes(a.status.conditions) && UniqueTypes(b.status.conditions)
    requires SameStatuses(a, b) && SameOwned(a, b)
    ensures MatchIssuerType(s.types, a) == MatchIssuerType(s.types, b)
    ensures a.IsApproved() == b.IsApproved() && a.IsDenied() == b.IsDenied()
    ensures a.IsReady() == b.IsReady() && a.IsFailed() == b.IsFailed()
    ensures InitialPatch(a, 0).Some? == InitialPatch(b, 0).Some?
  {
    SameStatus(a, b, Approved, True);
    SameStatus(a, b, Denied, True);
    SameStatus(a, b, Failed, True);
    HasIsGet(a.status.conditions, Ready, True);
    HasIsGet(b.status.conditions, Ready, True);
    HasIsGet(a.status.conditions, Ready, False);
    HasIsGet(b.status.conditions, Ready, False);
  }

  /** A silent chain with the same Ready presence at both ends keeps the statuses. */
  lemma {:induction false} SilenceKeepsStatuses(log: seq<Request>, i: int, j: int)
    requires 0 <= i <= j < |log| && WellFormed(log) && Silent(log, i, j)
    requires log[i].CertificateRequest? ==>
               (Get(log[j].status.conditions, Ready).Some? <==> Get(log[i].status.conditions, Ready).Some?)
    ensures SameStatuses(log[i], log[j])
  {
    SilentChain(log, i, j);
  }

  /*** The chain after a reconcile ***/

  /** A silent chain of others' edits after a reconcile that patched nothing. */
  lemma {:induction false} RestAfterNoPatch(s: Settings, log: seq<Request>, i: int, issuer: Option<Issuer>)
    requires 0 <= i < |log| && WellFormed(log) && Silent(log, i, |log| - 1) && EditsOnly(log, i, |log| - 1)
    requires || MatchIssuerType(s.types, log[i]).None?
             || (!log[i].IsApproved() && !log[i].IsDenied())
             || log[i].IsTerminal()
    ensures AtRest(s, log[|log| - 1], issuer)
  {
    EditsKeepOwned(log, i, |log| - 1);
    SilenceKeepsStatuses(log, i, |log| - 1);
    SameAnswers(s, log[i], log[|log| - 1]);
  }

  /** The chain after a reconcile that read version i and whose patch made version m. */
  ghost predicate PatchedChain(log: seq<Request>, i: int, m: int, p: RequestStatus, d: Dropped) {
    && 0 <= i < m < |log|
    && WellFormed(log)
    && EditsOnly(log, i, m - 1)
    && log[m] == Patched(log[m - 1], p, d)
    && EditsOnly(log, m, |log| - 1)
  }

  /** A patched CertificateRequest has the Ready condition of the patch for good. */
  lemma {:induction false} PatchedReadyLasts(log: seq<Request>, i: int, m: int, p: RequestStatus, d: Dropped)
    requires PatchedChain(log, i, m, p, d) && log[i].CertificateRequest?
    requires UniqueTypes(p.conditions) && Ready in TypesOf(p.conditions)
    ensures Get(log[|log| - 1].status.conditions, Ready) == Get(p.conditions, Ready)
    ensures log[|log| - 1].CertificateRequest?
  {
    MergeIsKeyed(log[m - 1].status.conditions, p.conditions, d.conditions, Ready);
    EditsKeepOwned(log, m, |log| - 1);
  }

  /** Initialising always makes an update that passes, unless it finishes the request. */
  lemma {:induction false} RestAfterInitialising(
    s: Settings, log: seq<Request>, i: int, m: int, now: Time, d: Dropped, issuer: Option<Issuer>)
    requires 0 <= i < |log| && InitialPatch(log[i], now).Some?
    requires PatchedChain(log, i, m, InitialPatch(log[i], now).value, d)
    requires Silent(log, i, |log| - 1)
    ensures AtRest(s, log[|log| - 1], issuer)
  {
    var p := InitialPatch(log[i], now).value;
    var last := log[|log| - 1];
    WithConditionGet(log[i], EMPTY_STATUS, now, Ready, False, WasDenied);
    WithConditionGet(log[i], EMPTY_STATUS, now, Ready, Unknown, Initializing);
    PatchedReadyLasts(log, i, m, p, d);
    HasIsGet(last.status.conditions, Ready, False);
    SilentChain(log, i, |log| - 1);
    assert Ready in TypesOf(last.status.conditions) ==> Get(log[i].status.conditions, Ready).Some?;
  }

  /** A silent chain after a reconcile that found the issuer not ready. */
  lemma {:induction false} RestAfterWaiting(
    s: Settings, log: seq<Request>, i: int, m: int, now: Time, d: Dropped, issuer: Option<Issuer>)
    requires 0 <= i < |log| && InitialPatch(log[i], 0).None?
    requires PatchedChain(log, i, m, NotReadyPatch(log[i], EMPTY_STATUS, now), d)
    requires Silent(log, i, |log| - 1) && Waits(ReadOf(issuer))
    ensures AtRest(s, log[|log| - 1], issuer)
  {
    var last := log[|log| - 1];
    if log[i].CertificateRequest? {
      WithConditionGet(log[i], EMPTY_STATUS, now, Ready, False, Pending);
      PatchedReadyLasts(log, i, m, NotReadyPatch(log[i], EMPTY_STATUS, now), d);
      SilenceKeepsStatuses(log, i, |log| - 1);
      SameStatus(log[i], last, Denied, True);
    }
  }

  /** Once the patch finished the request, it stays finished. */
  lemma {:induction false} RestAfterFinishing(
    s: Settings, log: seq<Request>, i: int, m: int, p: RequestStatus, d: Dropped, issuer: Option<Issuer>)
    requires PatchedChain(log, i, m, p, d) && UniqueTypes(p.conditions)
    requires if log[i].CertificateRequest? then FinishesCertificateRequest(p) else FinishesSigningRequest(p)
    ensures AtRest(s, log[|log| - 1], issuer)
  {
    var last := log[|log| - 1].status.conditions;
    if log[i].CertificateRequest? {
      PatchedReadyLasts(log, i, m, p, d);
      HasIsGet(last, Ready, True);
      HasIsGet(last, Ready, False);
    } else {
      PatchedFailedLasts(log, i, m, p, d);
      HasIsGet(last, Failed, True);
    }
  }

  ghost predicate FinishesCertificateRequest(p: RequestStatus) {
    && Ready in TypesOf(p.conditions)
    && var ready := Get(p.conditions, Ready).value;
       ready.status == True || (ready.status == False && ready.reason == HasFailed)
  }

  ghost predicate FinishesSigningRequest(p: RequestStatus) {
    p.certificate != [] || (Failed in TypesOf(p.conditions) && Get(p.conditions, Failed).value.status == True)
  }

  /** A patched CertificateSigningRequest keeps the certificate and the Failed condition of the patch. */
  lemma {:induction false} PatchedFailedLasts(log: seq<Request>, i: int, m: int, p: RequestStatus, d: Dropped)
    requires PatchedChain(log, i, m, p, d) && log[i].SigningRequest? && UniqueTypes(p.conditions)
    ensures log[|log| - 1].SigningRequest?
    ensures p.certificate != [] ==> log[|log| - 1].status.certificate == p.certificate
    ensures Failed in TypesOf(p.conditions) ==>
                  Get(log[|log| - 1].status.conditions, Failed) == Get(p.conditions, Failed)
  {
    MergeIsKeyed(log[m - 1].status.conditions, p.conditions, d.conditions, Failed);
    EditsKeepOwned(log, m, |log| - 1);
  }

  /*** The issuer side ***/

  /** An event of the linked issuer that wakes its requests: creation, deletion, or an update that passes. */
  predicate IssuerWakes(a: Option<Issuer>, b: Option<Issuer>) {
    if a.None? || b.None? then a.Some? || b.Some? else LinkedIssuerUpdate(a, b)
  }

  /** The event of version k of the issuer wakes its requests. */
  predicate IssuerPasses(issuers: seq<Option<Issuer>>, k: int)
    requires 0 < k < |issuers|
  {
    IssuerWakes(issuers[k - 1], issuers[k])
  }

  /** The generation of an existing issuer did not decrease. */
  ghost predicate Rises(a: Option<Issuer>, b: Option<Issuer>) {
    a.Some? && b.Some? ==> a.value.generation <= b.value.generation
  }

  /** It did not decrease with version k. */
  ghost predicate RisesAt(issuers: seq<Option<Issuer>>, k: int)
    requires 0 < k < |issuers|
  {
    Rises(issuers[k - 1], issuers[k])
  }

  ghost predicate GenerationsRise(issuers: seq<Option<Issuer>>) {
    forall k :: 0 < k < |issuers| ==> RisesAt(issuers, k)
  }

  /** No event from version q to version n of the issuer wakes its requests. */
  ghost predicate IssuerSilent(issuers: seq<Option<Issuer>>, q: int, n: int)
    requires 0 <= q <= n < |issuers|
  {
    forall k :: q < k <= n ==> !IssuerPasses(issuers, k)
  }

  /** A silent issuer keeps its Ready condition, as far as requests see it. */
  lemma {:induction false} ViewLasts(issuers: seq<Option<Issuer>>, q: int, n: int)
    requires 0 <= q <= n < |issuers| && IssuerSilent(issuers, q, n)
    ensures issuers[q].Some? <==> issuers[n].Some?
    ensures issuers[q].Some? ==> ReadyView(issuers[q].value) == ReadyView(issuers[n].value)
    decreases n
  {
    if q < n {
      ViewLasts(issuers, q, n - 1);
      assert !IssuerPasses(issuers, n);
      LinkedIssuerUpdateExact(issuers[n - 1], issuers[n]);
    }
  }

  lemma {:induction false} WaitingLasts(issuers: seq<Option<Issuer>>, q: int, n: int)
    requires 0 <= q <= n < |issuers| && GenerationsRise(issuers) && IssuerSilent(issuers, q, n)
    requires Waits(ReadOf(issuers[q]))
    ensures Waits(ReadOf(issuers[n]))
    decreases n
  {
    if q < n {
      WaitingLasts(issuers, q, n - 1);
      assert !IssuerPasses(issuers, n) && RisesAt(issuers, n);
      if issuers[n].Some? {
        LinkedSilenceKeepsWaiting([issuers[n - 1].value, issuers[n].value]);
      }
    }
  }
}
