/** What reads older than this controller's own patches can do: runs in which a finished request is changed
    again, and left asleep although it could go on.
 */
module StaleReads {
  import opened Conditions
  import opened ControllerRuntime
  import opened IssuerTypes
  import opened Lifecycle
  import opened Patches
  import opened Predicates
  import opened RequestController
  import opened Requests
  import opened Resting
  import opened SkippedRequeue
  import opened Wakeups
  import opened RunBuilding

  /*** Three reconciles of one request: a issues it, b reads it as it was before and finds it pending, and
       d reads the version of a and finds it finished. ***/

  /** Reconcile a of the first version patches it and is not repeated, and then the issuer changes. */
  ghost predicate Opening(c: Config, s: State, changed: Issuer, a: Inputs) {
    && Init(s) && Shape(s) && s.issuers[0].Some? && IsLinked(c, s)
    && Rises(s.issuers[0], Some(changed)) && IssuerWakes(s.issuers[0], Some(changed))
    && a.request == Found(s.log[0]) && a.issuer == ReadOf(s.issuers[0])
    && c.plan(a).patch.Some? && !ComesBack(c.plan(a).requeue, c.plan(a).error)
  }

  ghost predicate Scene(c: Config, s: State, changed: Issuer, a: Inputs, b: Inputs, d: Inputs) {
    && Opening(c, s, changed, a)
    && b.request == Found(s.log[0]) && b.issuer == d.issuer == Found(changed)
    && c.plan(b).patch.Some? && ComesBack(c.plan(b).requeue, c.plan(b).error)
    && d.request == Found(Patched(s.log[0], c.plan(a).patch.value, NOTHING_DROPPED))
    && c.plan(d).patch.None? && !ComesBack(c.plan(d).requeue, c.plan(d).error)
  }

  /** After reconcile a and the change of the issuer. */
  ghost function SceneA(c: Config, s: State, changed: Issuer, a: Inputs): State
    requires Shape(s) && c.plan(a).patch.Some?
  {
    s.(log := s.log + [Patched(Last(s), c.plan(a).patch.value, NOTHING_DROPPED)], own := 1, cached := 1, handled := 1,
       issuers := s.issuers + [Some(changed)], issuerCached := 1, issuerHandled := 1,
       dirty := true, seen := 1, issuerSeen := 0,
       act := Some(Act(a, c.plan(a), false, NOTHING_DROPPED, false)))
  }

  /** After reconcile b, its retry and the caching of a's version. */
  ghost function SceneB(c: Config, u: State, b: Inputs): State
    requires Shape(u) && c.plan(b).patch.Some?
  {
    u.(log := u.log + [Patched(Last(u), c.plan(b).patch.value, NOTHING_DROPPED)], own := 2, cached := 2,
       dirty := true, retry := false, seen := 1, issuerSeen := 1,
       act := Some(Act(b, c.plan(b), false, NOTHING_DROPPED, true)))
  }

  lemma {:induction false} SceneAStates(c: Config, s: State, changed: Issuer, a: Inputs)
    requires Opening(c, s, changed, a)
    ensures var u := s.(cached := 1, handled := 1, dirty := true);
            && Shape(u) && Shape(AfterReconcile(c, u, a, false))
            && MayChange(c, AfterReconcile(c, u, a, false), Some(changed))
            && AfterChange(AfterReconcile(c, u, a, false), Some(changed), true) == SceneA(c, s, changed, a)
  {
  }

  lemma {:induction false} RunA(c: Config, s: State, changed: Issuer, a: Inputs) returns (steps: seq<Step>)
    requires Opening(c, s, changed, a)
    ensures Shape(SceneA(c, s, changed, a)) && Run(c, s, steps, SceneA(c, s, changed, a))
  {
    SceneAStates(c, s, changed, a);
    var u := s.(cached := 1, handled := 1, dirty := true);
    var created := Created(c, s);
    var issued := OneReconcile(c, s, created, u, a, false);
    steps := IssuerChanges(c, s, issued, AfterReconcile(c, u, a, false), Some(changed), true);
  }

  lemma {:induction false} RetryThenCache(c: Config, u: State)
    requires Shape(u) && u.retry && u.cached < |u.log|
    ensures Allowed(u, Retry) && Shape(Next(c, u, Retry)) && Allowed(Next(c, u, Retry), CacheRequest)
    ensures var v := u.(retry := false, dirty := true, cached := u.cached + 1);
            Next(c, Next(c, u, Retry), CacheRequest) == v && Shape(v)
  {
  }

  lemma {:induction false} RunB(c: Config, s: State, steps: seq<Step>, u: State, b: Inputs) returns (longer: seq<Step>)
    requires Shape(u) && Run(c, s, steps, u) && u.stage == Idle && u.dirty && !u.retry && !u.missed
    requires |u.log| == 2 && u.own == u.cached == 1 && u.issuerCached == 1
    requires b.request == Found(u.log[0]) && b.issuer == ReadOf(u.issuers[1])
    requires c.plan(b).patch.Some? && ComesBack(c.plan(b).requeue, c.plan(b).error)
    ensures Shape(SceneB(c, u, b)) && Run(c, s, longer, SceneB(c, u, b))
  {
    var v := AfterReconcile(c, u, b, false);
    longer := OneReconcile(c, s, steps, u, b, false);
    RetryThenCache(c, v);
    OneMore(c, s, longer, v, Retry);
    OneMore(c, s, longer + [Retry], Next(c, v, Retry), CacheRequest);
    longer := longer + [Retry] + [CacheRequest];
    assert v.(retry := false, dirty := true, cached := 2) == SceneB(c, u, b);
  }

  lemma {:induction false} SceneBStates(c: Config, s: State, changed: Issuer, a: Inputs, b: Inputs, d: Inputs)
    requires Scene(c, s, changed, a, b, d) && Shape(SceneA(c, s, changed, a))
    requires Shape(SceneB(c, SceneA(c, s, changed, a), b))
    ensures var u := SceneA(c, s, changed, a);
            var v := SceneB(c, u, b);
            var t := AfterReconcile(c, v, d, false);
            && u.log[0] == s.log[0] && u.issuers[1] == Some(changed)
            && |u.log| == 2 && u.stage == Idle && !u.missed && !u.retry
            && v.stage == Idle && v.dirty && d.request == Found(v.log[1]) && v.issuers[1] == Some(changed)
            && Shape(t) && Asleep(t) && !t.missed
            && t.log == [s.log[0], d.request.value, Patched(d.request.value, c.plan(b).patch.value, NOTHING_DROPPED)]
            && t.issuers == [s.issuers[0], Some(changed)]
            && t.act == Some(Act(d, c.plan(d), false, NOTHING_DROPPED, true))
  {
  }

  lemma {:induction false} ThreeReconciles(c: Config, s: State, changed: Issuer, a: Inputs, b: Inputs, d: Inputs)
    returns (steps: seq<Step>, t: State)
    requires Scene(c, s, changed, a, b, d)
    ensures Run(c, s, steps, t) && Shape(t) && Asleep(t) && !t.missed
    ensures t.log == [s.log[0], d.request.value, Patched(d.request.value, c.plan(b).patch.value, NOTHING_DROPPED)]
    ensures t.handled == 1 && t.issuers == [s.issuers[0], Some(changed)] && t.issuerHandled == 1
    ensures t.act == Some(Act(d, c.plan(d), false, NOTHING_DROPPED, true))
  {
    var u := SceneA(c, s, changed, a);
    var issued := RunA(c, s, changed, a);
    var reopened := RunB(c, s, issued, u, b);
    SceneBStates(c, s, changed, a, b, d);
    steps := OneReconcile(c, s, reopened, SceneB(c, u, b), d, false);
    t := AfterReconcile(c, SceneB(c, u, b), d, false);
  }

  function IssuedVersion(settings: Settings, r: Request, chain: Bytes, ca: Bytes, now: Time): Request {
    Patched(r, IssuedPatch(r, EMPTY_STATUS, now, settings.setCA, chain, ca), NOTHING_DROPPED)
  }

  function ReopenedVersion(settings: Settings, r: Request, chain: Bytes, ca: Bytes, now: Time): Request {
    Patched(IssuedVersion(settings, r, chain, ca, now), NotReadyPatch(r, EMPTY_STATUS, now), NOTHING_DROPPED)
  }

  lemma {:induction false} SceneVersions(settings: Settings, r: Request, chain: Bytes, ca: Bytes, now: Time)
    requires IsReadyToSign(settings, r)
    ensures var issued := IssuedVersion(settings, r, chain, ca, now);
            && PhaseOf(issued) == IsIssued && !RequestUpdate(r, issued)
            && MatchIssuerType(settings.types, issued).Some? && issued.IsApproved()
    ensures IsReadyToSign(settings, ReopenedVersion(settings, r, chain, ca, now))
    ensures !RequestUpdate(IssuedVersion(settings, r, chain, ca, now), ReopenedVersion(settings, r, chain, ca, now))
  {
    var issued := IssuedVersion(settings, r, chain, ca, now);
    IssuedSilently(r, settings.setCA, chain, ca, now);
    OnlyReadyChanges(r, IssuedPatch(r, EMPTY_STATUS, now, settings.setCA, chain, ca));
    ReopenedSilently(settings, r, issued, now);
  }

  lemma {:induction false} ScenePlans(
    settings: Settings, consumers: set<GroupVersionKind>, r: Request, issuer: Issuer, changed: Issuer,
    chain: Bytes, ca: Bytes, now: Time)
    requires IsReadyToSign(settings, r) && !issuer.NotReadyFor() && !changed.NotReadyFor()
    ensures Plan(settings, consumers, Asked(r, issuer, SignOk(chain, ca), now))
            == Outcome(Signed, Some(IssuedPatch(r, EMPTY_STATUS, now, settings.setCA, chain, ca)), false, NoError)
    ensures Plan(settings, consumers, Asked(r, changed, STILL_PENDING, now))
            == Outcome(StillPending, Some(NotReadyPatch(r, EMPTY_STATUS, now)), true, NoError)
    ensures Plan(settings, consumers, Asked(IssuedVersion(settings, r, chain, ca, now), changed, STILL_PENDING, now))
            == Outcome(Finished, None, false, NoError)
  {
    SignIsAsked(settings, consumers, r, issuer, SignOk(chain, ca), now);
    SignIsAsked(settings, consumers, r, changed, STILL_PENDING, now);
    SceneVersions(settings, r, chain, ca, now);
    FinishedIsLeft(settings, consumers, IssuedVersion(settings, r, chain, ca, now), changed, now);
  }

  lemma {:induction false} FinishedIsLeft(
    settings: Settings, consumers: set<GroupVersionKind>, r: Request, issuer: Issuer, now: Time)
    requires MatchIssuerType(settings.types, r).Some? && r.IsApproved() && PhaseOf(r) != Open
    ensures Plan(settings, consumers, Asked(r, issuer, STILL_PENDING, now)) == Outcome(Finished, None, false, NoError)
  {
  }

  /** The run, for any system that makes these three decisions. */
  lemma {:induction false} SceneRun(
    c: Config, settings: Settings, s: State, changed: Issuer, chain: Bytes, ca: Bytes, now: Time)
    returns (steps: seq<Step>, t: State)
    requires Init(s) && Shape(s) && s.issuers[0].Some? && IsLinked(c, s)
    requires Rises(s.issuers[0], Some(changed)) && LinkedIssuerUpdate(s.issuers[0], Some(changed))
    requires c.plan(Asked(s.log[0], s.issuers[0].value, SignOk(chain, ca), now))
             == Outcome(Signed, Some(IssuedPatch(s.log[0], EMPTY_STATUS, now, settings.setCA, chain, ca)),
                        false, NoError)
    requires c.plan(Asked(s.log[0], changed, STILL_PENDING, now))
             == Outcome(StillPending, Some(NotReadyPatch(s.log[0], EMPTY_STATUS, now)), true, NoError)
    requires c.plan(Asked(IssuedVersion(settings, s.log[0], chain, ca, now), changed, STILL_PENDING, now))
             == Outcome(Finished, None, false, NoError)
    ensures Run(c, s, steps, t) && Shape(t) && Asleep(t) && !t.missed && t.handled == 1 && t.issuerHandled == 1
    ensures t.log == [s.log[0], IssuedVersion(settings, s.log[0], chain, ca, now),
                      ReopenedVersion(settings, s.log[0], chain, ca, now)]
    ensures t.issuers == [s.issuers[0], Some(changed)]
    ensures t.act.Some? && t.act.value.stale && t.act.value.outcome.exit.Finished?
  {
    var r := s.log[0];
    var a := Asked(r, s.issuers[0].value, SignOk(chain, ca), now);
    var b := Asked(r, changed, STILL_PENDING, now);
    var d := Asked(IssuedVersion(settings, r, chain, ca, now), changed, STILL_PENDING, now);
    steps, t := ThreeReconciles(c, s, changed, a, b, d);
  }

  /** With reads older than this controller's own patches, every approved, initialised and open
      CertificateRequest with a ready issuer can be left asleep for good; on the way, it was issued and then
      opened again. No event is missing, nothing is dropped, and no patch is lost. */
  lemma {:induction false} StaleReadsCanStrand(
    settings: Settings, consumers: set<GroupVersionKind>, s: State, changed: Issuer, chain: Bytes, ca: Bytes, now: Time)
    returns (steps: seq<Step>, t: State)
    requires Init(s) && Shape(s) && IsReadyToSign(settings, s.log[0])
    requires s.issuers[0].Some? && !s.issuers[0].value.NotReadyFor() && !changed.NotReadyFor()
    requires Rises(s.issuers[0], Some(changed)) && LinkedIssuerUpdate(s.issuers[0], Some(changed))
    ensures Run(ConfigOf(settings, consumers), s, steps, t)
    ensures Shape(t) && Asleep(t) && NothingComing(t) && !t.missed
    ensures t.act.Some? && t.act.value.stale && t.act.value.outcome.exit.Finished?
    ensures !AtRest(settings, Last(t), t.issuers[|t.issuers| - 1])
    ensures |t.log| == 3 && PhaseOf(t.log[1]) == IsIssued && PhaseOf(t.log[2]) == Open
  {
    ScenePlans(settings, consumers, s.log[0], s.issuers[0].value, changed, chain, ca, now);
    steps, t := SceneRun(ConfigOf(settings, consumers), settings, s, changed, chain, ca, now);
    SceneEnds(settings, s.log[0], changed, chain, ca, now, t);
  }

  lemma {:induction false} SceneEnds(
    settings: Settings, r: Request, changed: Issuer, chain: Bytes, ca: Bytes, now: Time, t: State)
    requires IsReadyToSign(settings, r) && !changed.NotReadyFor()
    requires Shape(t) && t.handled == 1 && t.issuerHandled == 1 && |t.issuers| == 2
    requires t.log == [r, IssuedVersion(settings, r, chain, ca, now), ReopenedVersion(settings, r, chain, ca, now)]
    ensures NothingComing(t) && !AtRest(settings, Last(t), Some(changed))
    ensures PhaseOf(t.log[1]) == IsIssued && PhaseOf(t.log[2]) == Open
  {
    SceneVersions(settings, r, chain, ca, now);
    NothingIsComing(t);
    ReadyToSignIsNotAtRest(settings, ReopenedVersion(settings, r, chain, ca, now), changed);
  }

  /*** A finished request is changed again ***/

  lemma {:induction false} OverwrittenStates(c: Config, s: State, changed: Issuer, a: Inputs, b: Inputs)
    requires Opening(c, s, changed, a) && b.request == Found(s.log[0]) && b.issuer == Found(changed)
    requires c.plan(b).patch.Some? && Shape(SceneA(c, s, changed, a))
    ensures var u := SceneA(c, s, changed, a);
            var t := AfterReconcile(c, u, b, false);
            var issued := Patched(s.log[0], c.plan(a).patch.value, NOTHING_DROPPED);
            && u.stage == Idle && u.dirty && b.request == Found(u.log[u.cached - 1])
            && b.issuer == ReadOf(u.issuers[u.issuerCached])
            && t.log == [s.log[0], issued, Patched(issued, c.plan(b).patch.value, NOTHING_DROPPED)]
            && t.act == Some(Act(b, c.plan(b), false, NOTHING_DROPPED, true))
  {
  }

  lemma {:induction false} OverwritingRun(c: Config, s: State, changed: Issuer, a: Inputs, b: Inputs)
    returns (steps: seq<Step>, t: State)
    requires Opening(c, s, changed, a) && b.request == Found(s.log[0]) && b.issuer == Found(changed)
    requires c.plan(b).patch.Some?
    ensures Run(c, s, steps, t)
    ensures var issued := Patched(s.log[0], c.plan(a).patch.value, NOTHING_DROPPED);
            t.log == [s.log[0], issued, Patched(issued, c.plan(b).patch.value, NOTHING_DROPPED)]
    ensures t.act == Some(Act(b, c.plan(b), false, NOTHING_DROPPED, true))
  {
    var issued := RunA(c, s, changed, a);
    OverwrittenStates(c, s, changed, a, b);
    steps := OneReconcile(c, s, issued, SceneA(c, s, changed, a), b, false);
    t := AfterReconcile(c, SceneA(c, s, changed, a), b, false);
  }

  /** The version that the answer of Sign to a stale reconcile makes of an issued one. */
  function Overwritten(
    settings: Settings, consumers: set<GroupVersionKind>, stored: Request, i: Inputs): Request {
    match Plan(settings, consumers, i).patch
    case Some(p) => Patched(stored, p, NOTHING_DROPPED)
    case None => stored
  }

  lemma {:induction false} AnswerIsPatched(
    settings: Settings, consumers: set<GroupVersionKind>, r: Request, issuer: Issuer, stored: Request,
    sign: SignResult, now: Time)
    requires IsReadyToSign(settings, r) && !issuer.NotReadyFor() && (sign.SignOk? || sign.err.issuer.None?)
    requires stored.CertificateRequest? && UniqueTypes(stored.status.conditions)
    ensures var i := Asked(r, issuer, sign, now);
            var n := Overwritten(settings, consumers, stored, i);
            && Plan(settings, consumers, i).patch.Some?
            && PhaseOf(n) == PhaseMade(settings, r, i)
            && (sign.SignOk? && sign.chain != [] ==> n.status.certificate == sign.chain)
  {
    var i := Asked(r, issuer, sign, now);
    SignIsAsked(settings, consumers, r, issuer, sign, now);
    PatchIsMadeExactly(settings, consumers, r, i);
    PatchDecidesPhase(settings, consumers, r, stored, i, NOTHING_DROPPED);
  }

  /** The run, for any system that makes these two decisions. */
  lemma {:induction false} OverwritingScene(
    c: Config, settings: Settings, consumers: set<GroupVersionKind>, s: State, changed: Issuer,
    chain: Bytes, ca: Bytes, sign: SignResult, now: Time)
    returns (steps: seq<Step>, t: State)
    requires Init(s) && Shape(s) && s.issuers[0].Some? && IsLinked(c, s)
    requires Rises(s.issuers[0], Some(changed)) && LinkedIssuerUpdate(s.issuers[0], Some(changed))
    requires c.plan(Asked(s.log[0], s.issuers[0].value, SignOk(chain, ca), now))
             == Outcome(Signed, Some(IssuedPatch(s.log[0], EMPTY_STATUS, now, settings.setCA, chain, ca)),
                        false, NoError)
    requires c.plan(Asked(s.log[0], changed, sign, now))
             == Plan(settings, consumers, Asked(s.log[0], changed, sign, now))
    requires c.plan(Asked(s.log[0], changed, sign, now)).patch.Some?
    ensures Run(c, s, steps, t)
    ensures var issued := IssuedVersion(settings, s.log[0], chain, ca, now);
            t.log == [s.log[0], issued,
                      Overwritten(settings, consumers, issued, Asked(s.log[0], changed, sign, now))]
  {
    var a := Asked(s.log[0], s.issuers[0].value, SignOk(chain, ca), now);
    steps, t := OverwritingRun(c, s, changed, a, Asked(s.log[0], changed, sign, now));
  }

  /** Whatever Sign answers to a stale reconcile, short of blaming the issuer, is written over an issued
      CertificateRequest: it is signed a second time and its certificate replaced, or failed, or opened again. */
  lemma {:induction false} StaleReadsCanOverwrite(
    settings: Settings, consumers: set<GroupVersionKind>, s: State, changed: Issuer, chain: Bytes, ca: Bytes,
    sign: SignResult, now: Time)
    returns (steps: seq<Step>, t: State)
    requires Init(s) && Shape(s) && IsReadyToSign(settings, s.log[0])
    requires s.issuers[0].Some? && !s.issuers[0].value.NotReadyFor() && !changed.NotReadyFor()
    requires Rises(s.issuers[0], Some(changed)) && LinkedIssuerUpdate(s.issuers[0], Some(changed))
    requires sign.SignOk? || sign.err.issuer.None?
    ensures Run(ConfigOf(settings, consumers), s, steps, t) && |t.log| == 3
    ensures PhaseOf(t.log[1]) == IsIssued && (chain != [] ==> t.log[1].status.certificate == chain)
    ensures PhaseOf(t.log[2]) == PhaseMade(settings, s.log[0], Asked(s.log[0], changed, sign, now))
    ensures sign.SignOk? && sign.chain != [] ==> t.log[2].status.certificate == sign.chain
  {
    var r := s.log[0];
    var issued := IssuedVersion(settings, r, chain, ca, now);
    SceneVersions(settings, r, chain, ca, now);
    ScenePlans(settings, consumers, r, s.issuers[0].value, changed, chain, ca, now);
    PatchedKeepsPatch(r, IssuedPatch(r, EMPTY_STATUS, now, settings.setCA, chain, ca), NOTHING_DROPPED, Ready);
    AnswerIsPatched(settings, consumers, r, changed, issued, sign, now);
    steps, t := OverwritingScene(ConfigOf(settings, consumers), settings, consumers, s, changed, chain, ca, sign, now);
  }
}
