/** Building runs of the wake-up system from whole reconciles and changes of the issuer, and requests that
    could go on in them.
 */
module RunBuilding {
  import opened Conditions
  import opened ControllerRuntime
  import opened IssuerTypes
  import opened Lifecycle
  import opened Patches
  import opened Predicates
  import opened RequestController
  import opened Requests
  import opened Resting
  import opened ServerSideApply
  import opened SignerErrors
  import opened SkippedRequeue
  import opened Wakeups

  const NOTHING_DROPPED := Dropped({}, false, false, false)

  /*** Building runs ***/

  lemma {:induction false} OneMore(c: Config, s: State, steps: seq<Step>, u: State, step: Step)
    requires Run(c, s, steps, u) && Shape(u) && Allowed(u, step) && Shape(Next(c, u, step))
    ensures Run(c, s, steps + [step], Next(c, u, step))
    decreases steps
  {
    var longer := steps + [step];
    if steps == [] {
      assert longer[1..] == [];
    } else {
      OneMore(c, Next(c, s, steps[0]), steps[1..], u, step);
      assert longer[1..] == steps[1..] + [step];
    }
  }

  /** The state after one whole reconcile that reads the cache and drops nothing. */
  ghost function AfterReconcile(c: Config, u: State, i: Inputs, lost: bool): State
    requires Shape(u)
  {
    var o := c.plan(i);
    var a := Act(i, o, lost, NOTHING_DROPPED, u.own > 0 && u.cached <= u.own);
    u.(log := if o.patch.None? || lost then u.log else u.log + [Patched(Last(u), o.patch.value, NOTHING_DROPPED)],
       own := if o.patch.None? || lost then u.own else |u.log|,
       dirty := false, stage := Idle, seen := u.cached, issuerSeen := u.issuerCached, missed := false,
       act := Some(a), retry := u.retry || Returns(a))
  }

  /** The state after the reads of a reconcile. */
  function AfterReads(u: State): State {
    u.(dirty := false, stage := HasIssuer, seen := u.cached, issuerSeen := u.issuerCached, missed := false, act := None)
  }

  lemma {:induction false} Reads(c: Config, s: State, steps: seq<Step>, u: State) returns (longer: seq<Step>)
    requires Run(c, s, steps, u) && Shape(u) && u.stage == Idle && u.dirty
    ensures Shape(AfterReads(u)) && Run(c, s, longer, AfterReads(u))
  {
    OneMore(c, s, steps, u, Begin);
    var u1 := Next(c, u, Begin);
    OneMore(c, s, steps + [Begin], u1, ReadRequest);
    var u2 := Next(c, u1, ReadRequest);
    OneMore(c, s, steps + [Begin] + [ReadRequest], u2, ReadIssuer);
    longer := steps + [Begin] + [ReadRequest] + [ReadIssuer];
    assert Next(c, u2, ReadIssuer) == AfterReads(u);
  }

  lemma {:induction false} ActThenEnd(c: Config, u: State, i: Inputs, lost: bool)
    requires Shape(u) && Shape(AfterReads(u)) && ReadsCache(AfterReads(u), i)
    ensures var act := DoAct(i, lost, NOTHING_DROPPED);
            && Allowed(AfterReads(u), act)
            && var acted := Next(c, AfterReads(u), act);
               && Shape(acted) && Allowed(acted, End)
               && Next(c, acted, End) == AfterReconcile(c, u, i, lost) && Shape(AfterReconcile(c, u, i, lost))
  {
    var acted := Next(c, AfterReads(u), DoAct(i, lost, NOTHING_DROPPED));
    assert acted.act == AfterReconcile(c, u, i, lost).act && acted.log == AfterReconcile(c, u, i, lost).log;
  }

  lemma {:induction false} Acts(
    c: Config, s: State, steps: seq<Step>, u: State, i: Inputs, lost: bool) returns (longer: seq<Step>)
    requires Shape(u) && Shape(AfterReads(u)) && Run(c, s, steps, AfterReads(u)) && ReadsCache(AfterReads(u), i)
    ensures Shape(AfterReconcile(c, u, i, lost)) && Run(c, s, longer, AfterReconcile(c, u, i, lost))
  {
    var act := DoAct(i, lost, NOTHING_DROPPED);
    ActThenEnd(c, u, i, lost);
    OneMore(c, s, steps, AfterReads(u), act);
    OneMore(c, s, steps + [act], Next(c, AfterReads(u), act), End);
    longer := steps + [act] + [End];
  }

  lemma {:induction false} OneReconcile(
    c: Config, s: State, steps: seq<Step>, u: State, i: Inputs, lost: bool) returns (longer: seq<Step>)
    requires Run(c, s, steps, u) && Shape(u) && u.stage == Idle && u.dirty
    requires u.cached > 0 && i.request == Found(u.log[u.cached - 1]) && i.issuer == ReadOf(u.issuers[u.issuerCached])
    ensures Shape(AfterReconcile(c, u, i, lost)) && Run(c, s, longer, AfterReconcile(c, u, i, lost))
  {
    var begun := Reads(c, s, steps, u);
    longer := Acts(c, s, begun, u, i, lost);
  }

  /** The request is created, cached and queued. */
  lemma {:induction false} Created(c: Config, s: State) returns (steps: seq<Step>)
    requires Init(s) && Shape(s)
    ensures Run(c, s, steps, s.(cached := 1, handled := 1, dirty := true))
  {
    var u := s.(cached := 1);
    assert Run(c, s, [], s);
    OneMore(c, s, [], s, CacheRequest);
    OneMore(c, s, [] + [CacheRequest], u, HandleRequest);
    steps := [] + [CacheRequest] + [HandleRequest];
  }

  /** The issuer changes, and the change is cached and handled. */
  ghost predicate MayChange(c: Config, u: State, issuer: Option<Issuer>) {
    && Shape(u) && u.issuerHandled == u.issuerCached == |u.issuers| - 1
    && u.cached > 0 && IsLinked(c, u)
    && Rises(u.issuers[|u.issuers| - 1], issuer) && IssuerWakes(u.issuers[|u.issuers| - 1], issuer)
  }

  function AfterChange(u: State, issuer: Option<Issuer>, listed: bool): State {
    u.(issuers := u.issuers + [issuer], issuerCached := |u.issuers|, issuerHandled := |u.issuers|,
       dirty := u.dirty || listed, missed := u.missed || !listed)
  }

  lemma {:induction false} ChangeThenHandle(c: Config, u: State, issuer: Option<Issuer>, listed: bool)
    requires MayChange(c, u, issuer)
    ensures Allowed(u, EditIssuer(issuer))
    ensures var edited := Next(c, u, EditIssuer(issuer));
            && Shape(edited) && Allowed(edited, CacheIssuer)
            && var cached := Next(c, edited, CacheIssuer);
               && Shape(cached) && Allowed(cached, HandleIssuer(listed))
               && Next(c, cached, HandleIssuer(listed)) == AfterChange(u, issuer, listed)
               && Shape(AfterChange(u, issuer, listed))
  {
    var cached := Next(c, Next(c, u, EditIssuer(issuer)), CacheIssuer);
    assert IssuerPasses(cached.issuers, cached.issuerHandled + 1);
  }

  lemma {:induction false} IssuerChanges(
    c: Config, s: State, steps: seq<Step>, u: State, issuer: Option<Issuer>, listed: bool)
    returns (longer: seq<Step>)
    requires MayChange(c, u, issuer) && Run(c, s, steps, u)
    ensures Shape(AfterChange(u, issuer, listed)) && Run(c, s, longer, AfterChange(u, issuer, listed))
  {
    ChangeThenHandle(c, u, issuer, listed);
    OneMore(c, s, steps, u, EditIssuer(issuer));
    var edited := Next(c, u, EditIssuer(issuer));
    OneMore(c, s, steps + [EditIssuer(issuer)], edited, CacheIssuer);
    var cached := Next(c, edited, CacheIssuer);
    OneMore(c, s, steps + [EditIssuer(issuer)] + [CacheIssuer], cached, HandleIssuer(listed));
    longer := steps + [EditIssuer(issuer)] + [CacheIssuer] + [HandleIssuer(listed)];
  }

  /*** Requests that could go on ***/

  /** An approved, initialised and open CertificateRequest of ours. */
  ghost predicate IsReadyToSign(settings: Settings, r: Request) {
    && r.CertificateRequest? && UniqueTypes(r.status.conditions)
    && MatchIssuerType(settings.types, r).Some?
    && r.IsApproved() && PhaseOf(r) == Open && InitialPatch(r, 0).None?
  }

  lemma {:induction false} ReadyToSignIsNotAtRest(settings: Settings, r: Request, issuer: Issuer)
    requires IsReadyToSign(settings, r) && !issuer.NotReadyFor()
    ensures !AtRest(settings, r, Some(issuer))
  {
  }

  lemma {:induction false} NothingIsComing(t: State)
    requires Shape(t) && t.handled == 1 && t.issuerHandled == |t.issuers| - 1
    requires forall j :: 0 < j < |t.log| ==> !RequestUpdate(t.log[j - 1], t.log[j])
    ensures NothingComing(t)
  {
    assert forall j :: 0 < j < |t.log| ==> !Passes(t.log, j);
  }

  /** A patch of the Ready condition alone changes nothing else, and its update does not pass. */
  lemma {:induction false} OnlyReadyChanges(r: Request, p: RequestStatus)
    requires r.CertificateRequest? && UniqueTypes(r.status.conditions) && Get(r.status.conditions, Ready).Some?
    requires UniqueTypes(p.conditions) && TypesOf(p.conditions) == {Ready}
    ensures var n := Patched(r, p, NOTHING_DROPPED);
            && n.CertificateRequest? && UniqueTypes(n.status.conditions)
            && n.issuerRef == r.issuerRef && n.meta == r.meta
            && Get(n.status.conditions, Ready) == Get(p.conditions, Ready)
            && (n.IsApproved() <==> r.IsApproved())
            && (Has(n.status.conditions, Denied, True) <==> Has(r.status.conditions, Denied, True))
            && !RequestUpdate(r, n)
  {
    var n := Patched(r, p, NOTHING_DROPPED);
    var a, b := r.status.conditions, n.status.conditions;
    MergeIsKeyed(a, p.conditions, {}, Ready);
    MergeIsKeyed(a, p.conditions, {}, Approved);
    MergeIsKeyed(a, p.conditions, {}, Denied);
    HasIsGet(a, Approved, True);
    HasIsGet(b, Approved, True);
    HasIsGet(a, Denied, True);
    HasIsGet(b, Denied, True);
    OnlyReadyPassesExactly(r, p, NOTHING_DROPPED);
  }

  /** What a reconcile of r gets, with a ready issuer. */
  function Asked(r: Request, issuer: Issuer, sign: SignResult, now: Time): Inputs {
    Inputs(Found(r), NoHook, Found(issuer), sign, now)
  }

  const STILL_PENDING: SignResult := SignError(Finding(None, true, false, false, None))

  lemma {:induction false} SignIsAsked(
    settings: Settings, consumers: set<GroupVersionKind>, r: Request, issuer: Issuer, sign: SignResult, now: Time)
    requires IsReadyToSign(settings, r) && !issuer.NotReadyFor()
    ensures Plan(settings, consumers, Asked(r, issuer, sign, now))
            == PlanSign(settings, consumers, MatchIssuerType(settings.types, r).value, r, now, sign)
  {
    assert InitialPatch(r, now).None? <==> InitialPatch(r, 0).None?;
  }

  /** The patch of a success issues the request, by an update that does not pass. */
  lemma {:induction false} IssuedSilently(r: Request, setCA: bool, chain: Bytes, ca: Bytes, now: Time)
    requires r.CertificateRequest? && UniqueTypes(r.status.conditions) && Get(r.status.conditions, Ready).Some?
    ensures var p := IssuedPatch(r, EMPTY_STATUS, now, setCA, chain, ca);
            && UniqueTypes(p.conditions) && TypesOf(p.conditions) == {Ready}
            && PhaseOf(Patched(r, p, NOTHING_DROPPED)) == IsIssued
  {
    var base := EMPTY_STATUS.(certificate := chain);
    WithConditionGet(r, if setCA then base.(ca := ca) else base, now, Ready, True, Issued);
    CertificateRequestApply(r, IssuedPatch(r, EMPTY_STATUS, now, setCA, chain, ca), NOTHING_DROPPED);
  }

  /** The patch of a pending reconcile of r opens any stored version again, by an update that does not pass. */
  lemma {:induction false} ReopenedSilently(settings: Settings, r: Request, stored: Request, now: Time)
    requires IsReadyToSign(settings, r) && stored.CertificateRequest? && UniqueTypes(stored.status.conditions)
    requires stored.meta == r.meta && stored.issuerRef == r.issuerRef && stored.IsApproved()
    requires Get(stored.status.conditions, Ready).Some? && !Has(stored.status.conditions, Denied, True)
    ensures var p := NotReadyPatch(r, EMPTY_STATUS, now);
            && UniqueTypes(p.conditions) && TypesOf(p.conditions) == {Ready}
            && IsReadyToSign(settings, Patched(stored, p, NOTHING_DROPPED))
            && !RequestUpdate(stored, Patched(stored, p, NOTHING_DROPPED))
  {
    var p := NotReadyPatch(r, EMPTY_STATUS, now);
    WithConditionGet(r, EMPTY_STATUS, now, Ready, False, Pending);
    OnlyReadyChanges(stored, p);
    CertificateRequestApply(stored, p, NOTHING_DROPPED);
  }
}
