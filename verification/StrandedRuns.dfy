/** Runs that leave a request asleep although it could go on, for the excuses of the wake-up theorem other than
    stale reads.
 */
module StrandedRuns {
  import opened Conditions
  import opened ControllerRuntime
  import opened ErrorOutcomes
  import opened IssuerTypes
  import opened Lifecycle
  import opened Patches
  import opened Predicates
  import opened RequestController
  import opened Requests
  import opened Resting
  import opened ServerSideApply
  import opened SignerErrors
  import opened SkippedRequeue
  import opened Wakeups
  import opened RunBuilding
  import StaleReads

  /*** A failed list call ***/

  /** What a reconcile of r gets while its issuer is not ready. */
  function AskedWaiting(r: Request, issuer: Option<Issuer>, now: Time): Inputs {
    Inputs(Found(r), NoHook, ReadOf(issuer), STILL_PENDING, now)
  }

  lemma {:induction false} WaitsSilently(
    settings: Settings, consumers: set<GroupVersionKind>, r: Request, issuer: Option<Issuer>, now: Time)
    requires IsReadyToSign(settings, r) && Waits(ReadOf(issuer))
    ensures Plan(settings, consumers, AskedWaiting(r, issuer, now))
            == Outcome(Waiting, Some(NotReadyPatch(r, EMPTY_STATUS, now)), false, NoError)
  {
    assert InitialPatch(r, now).None? <==> InitialPatch(r, 0).None?;
  }

  /** After the waiting reconcile and the change of the issuer that was not passed on. */
  ghost function Forgotten(c: Config, s: State, changed: Issuer, i: Inputs): State
    requires Shape(s) && c.plan(i).patch.Some?
  {
    s.(log := s.log + [Patched(Last(s), c.plan(i).patch.value, NOTHING_DROPPED)], own := 1, cached := 1, handled := 1,
       issuers := s.issuers + [Some(changed)], issuerCached := 1, issuerHandled := 1, missed := true,
       seen := 1, issuerSeen := 0, act := Some(Act(i, c.plan(i), false, NOTHING_DROPPED, false)))
  }

  ghost predicate Overlooked(c: Config, s: State, changed: Issuer, i: Inputs) {
    && Init(s) && Shape(s) && IsLinked(c, s)
    && Rises(s.issuers[0], Some(changed)) && IssuerWakes(s.issuers[0], Some(changed))
    && i.request == Found(s.log[0]) && i.issuer == ReadOf(s.issuers[0])
    && c.plan(i).patch.Some? && !ComesBack(c.plan(i).requeue, c.plan(i).error)
  }

  lemma {:induction false} ForgottenStates(c: Config, s: State, changed: Issuer, i: Inputs)
    requires Overlooked(c, s, changed, i)
    ensures var u := s.(cached := 1, handled := 1, dirty := true);
            && Shape(u) && Shape(AfterReconcile(c, u, i, false))
            && MayChange(c, AfterReconcile(c, u, i, false), Some(changed))
            && AfterChange(AfterReconcile(c, u, i, false), Some(changed), false) == Forgotten(c, s, changed, i)
    ensures var t := Forgotten(c, s, changed, i);
            && Shape(t) && Asleep(t) && t.missed && t.handled == 1 && t.issuerHandled == 1
            && t.log == [s.log[0], Patched(s.log[0], c.plan(i).patch.value, NOTHING_DROPPED)]
            && t.issuers == [s.issuers[0], Some(changed)]
  {
  }

  lemma {:induction false} OverlookedRun(
    c: Config, s: State, changed: Issuer, i: Inputs) returns (steps: seq<Step>, t: State)
    requires Overlooked(c, s, changed, i)
    ensures Run(c, s, steps, t) && Shape(t) && Asleep(t) && t.missed && t.handled == 1 && t.issuerHandled == 1
    ensures t.log == [s.log[0], Patched(s.log[0], c.plan(i).patch.value, NOTHING_DROPPED)]
    ensures t.issuers == [s.issuers[0], Some(changed)]
    ensures t.act == Some(Act(i, c.plan(i), false, NOTHING_DROPPED, false))
  {
    ForgottenStates(c, s, changed, i);
    t := Forgotten(c, s, changed, i);
    var u := s.(cached := 1, handled := 1, dirty := true);
    var created := Created(c, s);
    var waited := OneReconcile(c, s, created, u, i, false);
    steps := IssuerChanges(c, s, waited, AfterReconcile(c, u, i, false), Some(changed), false);
  }

  /** If the list call of the event fails by which the issuer becomes ready, every request that waits for it
      can be left asleep for good. No read is stale, nothing is dropped, and no patch is lost. */
  lemma {:induction false} FailedListCanStrand(
    settings: Settings, consumers: set<GroupVersionKind>, s: State, changed: Issuer, now: Time)
    returns (steps: seq<Step>, t: State)
    requires Init(s) && Shape(s) && IsReadyToSign(settings, s.log[0])
    requires Waits(ReadOf(s.issuers[0])) && !changed.NotReadyFor()
    requires Rises(s.issuers[0], Some(changed)) && IssuerWakes(s.issuers[0], Some(changed))
    ensures Run(ConfigOf(settings, consumers), s, steps, t)
    ensures Shape(t) && Asleep(t) && NothingComing(t) && t.missed
    ensures t.act.Some? && !t.act.value.stale && t.act.value.outcome.exit.Waiting?
    ensures !AtRest(settings, Last(t), t.issuers[|t.issuers| - 1])
  {
    var c, i := ConfigOf(settings, consumers), AskedWaiting(s.log[0], s.issuers[0], now);
    WaitsSilently(settings, consumers, s.log[0], s.issuers[0], now);
    steps, t := OverlookedRun(c, s, changed, i);
    NotReadyEnds(settings, s.log[0], changed, now, t);
  }

  /*** One reconcile ***/

  ghost predicate OnlyOne(c: Config, s: State, i: Inputs, lost: bool) {
    && Init(s) && Shape(s) && i.request == Found(s.log[0]) && i.issuer == ReadOf(s.issuers[0])
    && !Returns(Act(i, c.plan(i), lost, NOTHING_DROPPED, false))
  }

  lemma {:induction false} OneReconcileStates(c: Config, s: State, i: Inputs, lost: bool)
    requires OnlyOne(c, s, i, lost)
    ensures var u := s.(cached := 1, handled := 1, dirty := true);
            var t := AfterReconcile(c, u, i, lost);
            && Shape(u) && Shape(t) && Asleep(t) && !t.missed && t.handled == 1 && t.issuerHandled == 0
            && t.issuers == [s.issuers[0]]
            && t.act == Some(Act(i, c.plan(i), lost, NOTHING_DROPPED, false))
            && t.log == if c.plan(i).patch.None? || lost then [s.log[0]]
                        else [s.log[0], Patched(s.log[0], c.plan(i).patch.value, NOTHING_DROPPED)]
  {
  }

  /** The request is created and reconciled once, and controller-runtime does not repeat that. */
  lemma {:induction false} ReconciledOnce(
    c: Config, s: State, i: Inputs, lost: bool) returns (steps: seq<Step>, t: State)
    requires OnlyOne(c, s, i, lost)
    ensures Run(c, s, steps, t) && Shape(t) && Asleep(t) && !t.missed && t.handled == 1 && t.issuerHandled == 0
    ensures t.issuers == [s.issuers[0]] && t.act == Some(Act(i, c.plan(i), lost, NOTHING_DROPPED, false))
    ensures t.log == if c.plan(i).patch.None? || lost then [s.log[0]]
                     else [s.log[0], Patched(s.log[0], c.plan(i).patch.value, NOTHING_DROPPED)]
  {
    OneReconcileStates(c, s, i, lost);
    var u := s.(cached := 1, handled := 1, dirty := true);
    var created := Created(c, s);
    steps := OneReconcile(c, s, created, u, i, lost);
    t := AfterReconcile(c, u, i, lost);
  }

  /** The run ends asleep with an approved, initialised and open request and a ready issuer, and its only
      reconcile was not stale. */
  ghost predicate EndsStranded(settings: Settings, t: State, i: Inputs, lost: bool) {
    && Shape(t) && Asleep(t) && NothingComing(t) && !t.missed
    && t.act.Some? && t.act.value.inputs == i && t.act.value.lost == lost && !t.act.value.stale
    && !AtRest(settings, Last(t), t.issuers[|t.issuers| - 1])
  }

  /*** A terminal error in the answer of Sign ***/

  const TO_RETRY_BUT_TERMINAL: SignResult := SignError(Finding(None, false, false, true, None))

  lemma {:induction false} TerminalPlan(
    settings: Settings, consumers: set<GroupVersionKind>, r: Request, issuer: Issuer, now: Time)
    requires IsReadyToSign(settings, r) && !issuer.NotReadyFor() && !PastDeadline(settings.maxRetry, r, now)
    ensures Plan(settings, consumers, Asked(r, issuer, TO_RETRY_BUT_TERMINAL, now))
            == Outcome(WillRetry, Some(NotReadyPatch(r, EMPTY_STATUS, now)), false, TerminalError)
  {
    SignIsAsked(settings, consumers, r, issuer, TO_RETRY_BUT_TERMINAL, now);
  }

  lemma {:induction false} NotReadyEnds(settings: Settings, r: Request, issuer: Issuer, now: Time, t: State)
    requires IsReadyToSign(settings, r) && !issuer.NotReadyFor()
    requires Shape(t) && t.handled == 1 && t.issuerHandled == |t.issuers| - 1
    requires t.log == [r, Patched(r, NotReadyPatch(r, EMPTY_STATUS, now), NOTHING_DROPPED)]
    ensures NothingComing(t) && !AtRest(settings, Last(t), Some(issuer))
  {
    ReopenedSilently(settings, r, r, now);
    NothingIsComing(t);
    ReadyToSignIsNotAtRest(settings, t.log[1], issuer);
  }

  /** An error to retry that contains a terminal error leaves every such request asleep. */
  lemma {:induction false} TerminalErrorStrands(
    settings: Settings, consumers: set<GroupVersionKind>, s: State, now: Time)
    returns (steps: seq<Step>, t: State)
    requires Init(s) && Shape(s) && IsReadyToSign(settings, s.log[0]) && !PastDeadline(settings.maxRetry, s.log[0], now)
    requires s.issuers[0].Some? && !s.issuers[0].value.NotReadyFor()
    ensures Run(ConfigOf(settings, consumers), s, steps, t)
    ensures EndsStranded(settings, t, Asked(s.log[0], s.issuers[0].value, TO_RETRY_BUT_TERMINAL, now), false)
  {
    var i := Asked(s.log[0], s.issuers[0].value, TO_RETRY_BUT_TERMINAL, now);
    TerminalPlan(settings, consumers, s.log[0], s.issuers[0].value, now);
    steps, t := ReconciledOnce(ConfigOf(settings, consumers), s, i, false);
    NotReadyEnds(settings, s.log[0], s.issuers[0].value, now, t);
  }

  /*** A lost patch behind a terminal error ***/

  lemma {:induction false} LostPlan(
    settings: Settings, consumers: set<GroupVersionKind>, r: Request, issuer: Issuer, e: Finding, now: Time)
    requires IsReadyToSign(settings, r) && !issuer.NotReadyFor()
    requires IsLastWord(KindsFound(e), PastDeadline(settings.maxRetry, r, now), SkipsRequeue(r, e))
    ensures var i := Asked(r, issuer, SignError(e), now);
            !Returns(Act(i, Plan(settings, consumers, i), true, NOTHING_DROPPED, false))
  {
    var i := Asked(r, issuer, SignError(e), now);
    SignIsAsked(settings, consumers, r, issuer, SignError(e), now);
    AggregateIsTerminalExactly(Plan(settings, consumers, i).error);
  }

  /** Every error that is the last word on the request leaves it asleep, open, if its patch is lost. */
  lemma {:induction false} LostPatchStrands(
    settings: Settings, consumers: set<GroupVersionKind>, s: State, e: Finding, now: Time)
    returns (steps: seq<Step>, t: State)
    requires Init(s) && Shape(s) && IsReadyToSign(settings, s.log[0])
    requires s.issuers[0].Some? && !s.issuers[0].value.NotReadyFor()
    requires IsLastWord(KindsFound(e), PastDeadline(settings.maxRetry, s.log[0], now), SkipsRequeue(s.log[0], e))
    ensures Run(ConfigOf(settings, consumers), s, steps, t)
    ensures EndsStranded(settings, t, Asked(s.log[0], s.issuers[0].value, SignError(e), now), true)
  {
    var i := Asked(s.log[0], s.issuers[0].value, SignError(e), now);
    LostPlan(settings, consumers, s.log[0], s.issuers[0].value, e, now);
    steps, t := ReconciledOnce(ConfigOf(settings, consumers), s, i, true);
    NothingIsComing(t);
    ReadyToSignIsNotAtRest(settings, t.log[0], s.issuers[0].value);
  }

  /*** A custom condition of type Ready ***/

  function ReadyAsked(c: CustomCondition): SignResult {
    SignError(Finding(None, true, false, false, Some(c)))
  }

  lemma {:induction false} CustomReadyPlan(
    settings: Settings, consumers: set<GroupVersionKind>, r: Request, issuer: Issuer, c: CustomCondition, now: Time)
    requires IsReadyToSign(settings, r) && !issuer.NotReadyFor() && c.ctype == Ready && CustomTransitions(r, c)
    ensures var p := NotReadyPatch(r, CustomPatch(r, EMPTY_STATUS, now, c), now);
            && Plan(settings, consumers, Asked(r, issuer, ReadyAsked(c), now))
               == Outcome(StillPending, Some(p), false, NoError)
            && IsReadyToSign(settings, Patched(r, p, NOTHING_DROPPED))
            && !RequestUpdate(r, Patched(r, p, NOTHING_DROPPED))
  {
    var custom := CustomPatch(r, EMPTY_STATUS, now, c);
    SignIsAsked(settings, consumers, r, issuer, ReadyAsked(c), now);
    WithConditionGet(r, EMPTY_STATUS, now, Ready, c.status, c.reason);
    WithConditionGet(r, custom, now, Ready, False, Pending);
    var p := NotReadyPatch(r, custom, now);
    assert TypesOf(p.conditions) == {Ready};
    OnlyReadyChanges(r, p);
    CertificateRequestApply(r, p, NOTHING_DROPPED);
  }

  /** A pending error that asks for a changed condition of type Ready leaves every such request asleep. */
  lemma {:induction false} CustomReadyStrands(
    settings: Settings, consumers: set<GroupVersionKind>, s: State, c: CustomCondition, now: Time)
    returns (steps: seq<Step>, t: State)
    requires Init(s) && Shape(s) && IsReadyToSign(settings, s.log[0]) && c.ctype == Ready
    requires CustomTransitions(s.log[0], c)
    requires s.issuers[0].Some? && !s.issuers[0].value.NotReadyFor()
    ensures Run(ConfigOf(settings, consumers), s, steps, t)
    ensures EndsStranded(settings, t, Asked(s.log[0], s.issuers[0].value, ReadyAsked(c), now), false)
  {
    var i := Asked(s.log[0], s.issuers[0].value, ReadyAsked(c), now);
    CustomReadyPlan(settings, consumers, s.log[0], s.issuers[0].value, c, now);
    steps, t := ReconciledOnce(ConfigOf(settings, consumers), s, i, false);
    NothingIsComing(t);
    ReadyToSignIsNotAtRest(settings, t.log[1], s.issuers[0].value);
  }

  /*** An empty chain ***/

  /** An approved and open CertificateSigningRequest of ours. */
  ghost predicate IsSigningReady(settings: Settings, r: Request) {
    && r.SigningRequest? && UniqueTypes(r.status.conditions)
    && MatchIssuerType(settings.types, r).Some? && r.IsApproved() && PhaseOf(r) == Open
  }

  lemma {:induction false} EmptyChainIsSigned(
    settings: Settings, consumers: set<GroupVersionKind>, r: Request, issuer: Issuer, ca: Bytes, now: Time)
    requires IsSigningReady(settings, r) && !issuer.NotReadyFor()
    ensures Plan(settings, consumers, Asked(r, issuer, SignOk([], ca), now))
            == Outcome(Signed, Some(EMPTY_STATUS), false, NoError)
  {
  }

  lemma {:induction false} EmptyChainPlan(
    settings: Settings, consumers: set<GroupVersionKind>, r: Request, issuer: Issuer, ca: Bytes, now: Time)
    requires IsSigningReady(settings, r) && !issuer.NotReadyFor()
    ensures var i := Asked(r, issuer, SignOk([], ca), now);
            var o := Plan(settings, consumers, i);
            && o == Outcome(Signed, Some(EMPTY_STATUS), false, NoError)
            && IsSigningReady(settings, Patched(r, EMPTY_STATUS, NOTHING_DROPPED))
            && !RequestUpdate(r, Patched(r, EMPTY_STATUS, NOTHING_DROPPED))
  {
    var i := Asked(r, issuer, SignOk([], ca), now);
    var a, b := r.status.conditions, Patched(r, EMPTY_STATUS, NOTHING_DROPPED).status.conditions;
    EmptyChainIsSigned(settings, consumers, r, issuer, ca, now);
    EmptyChainPassesExactly(settings, consumers, r, i, NOTHING_DROPPED);
    MergeIsKeyed(a, [], {}, Approved);
    HasIsGet(a, Approved, True);
    HasIsGet(b, Approved, True);
  }

  /** A success with an empty chain leaves every approved and open CertificateSigningRequest asleep, open. */
  lemma {:induction false} EmptyChainStrands(
    settings: Settings, consumers: set<GroupVersionKind>, s: State, ca: Bytes, now: Time)
    returns (steps: seq<Step>, t: State)
    requires Init(s) && Shape(s) && IsSigningReady(settings, s.log[0])
    requires s.issuers[0].Some? && !s.issuers[0].value.NotReadyFor()
    ensures Run(ConfigOf(settings, consumers), s, steps, t)
    ensures EndsStranded(settings, t, Asked(s.log[0], s.issuers[0].value, SignOk([], ca), now), false)
  {
    var i := Asked(s.log[0], s.issuers[0].value, SignOk([], ca), now);
    EmptyChainPlan(settings, consumers, s.log[0], s.issuers[0].value, ca, now);
    steps, t := ReconciledOnce(ConfigOf(settings, consumers), s, i, false);
    NothingIsComing(t);
    assert IsSigningReady(settings, t.log[1]);
  }

  /*** An instance ***/

  const GVK := GroupVersionKind("example.org", "v1", "Issuer")

  const SETTINGS := Settings([IssuerType(GVK, "issuers.example.org", true)], 60, false)

  const REQUEST := CertificateRequest(
    Meta(NamespacedName("default", "leaf"), None, 0),
    IssuerRef("example.org", "Issuer", "ca"),
    RequestStatus([Condition(Approved, True, OtherReason("policy"), Some(0), 0),
                   Condition(Ready, Unknown, Initializing, Some(0), 0)], [], [], None))

  function ReadyIssuer(generation: int): Issuer {
    Issuer(generation, None, [Condition(Ready, True, Checked, Some(0), generation)])
  }

  lemma {:induction false} SuchRequestsExist()
    ensures IsReadyToSign(SETTINGS, REQUEST)
    ensures !ReadyIssuer(1).NotReadyFor() && !ReadyIssuer(2).NotReadyFor()
    ensures LinkedIssuerUpdate(Some(ReadyIssuer(1)), Some(ReadyIssuer(2)))
  {
    var l := REQUEST.status.conditions;
    assert l[1..] == [l[1]];
    assert UniqueTypes(l);
    GetUnique(l, l[0]);
    GetUnique(l, l[1]);
    HasIsGet(l, Approved, True);
    HasIsGet(l, Denied, True);
    HasIsGet(l, Ready, True);
    HasIsGet(l, Ready, False);
  }

  /** The initial state with this request and an issuer. */
  function Start(issuer: Option<Issuer>): State {
    State([REQUEST], 0, 0, 0, [issuer], 0, 0, false, false, Idle, 0, 0, false, None)
  }

  /** One request, stranded by stale reads, by a failed list call and by a terminal error. */
  lemma {:induction false} StrandedInstance()
    ensures exists steps, t :: Run(ConfigOf(SETTINGS, {GVK}), Start(Some(ReadyIssuer(1))), steps, t) && Shape(t)
                               && Asleep(t) && NothingComing(t) && !AtRest(SETTINGS, Last(t), Some(ReadyIssuer(2)))
    ensures exists steps, t :: Run(ConfigOf(SETTINGS, {GVK}), Start(None), steps, t) && Shape(t)
                               && Asleep(t) && NothingComing(t) && !AtRest(SETTINGS, Last(t), Some(ReadyIssuer(1)))
    ensures exists steps, t, i :: Run(ConfigOf(SETTINGS, {GVK}), Start(Some(ReadyIssuer(1))), steps, t)
                                  && EndsStranded(SETTINGS, t, i, false)
  {
    SuchRequestsExist();
    var one, t := StaleReads.StaleReadsCanStrand(SETTINGS, {GVK},
        Start(Some(ReadyIssuer(1))), ReadyIssuer(2), [], [], 1);
    var two, u := FailedListCanStrand(SETTINGS, {GVK}, Start(None), ReadyIssuer(1), 1);
    var three, v := TerminalErrorStrands(SETTINGS, {GVK}, Start(Some(ReadyIssuer(1))), 1);
  }
}
