/** Runs that leave an issuer asleep without a verdict for its generation, one for each excuse of the wake-up
    theorem of issuers but the hook.
 */
module StrandedIssuers {
  import opened Conditions
  import opened ControllerRuntime
  import opened ErrorOutcomes
  import opened IssuerController
  import opened IssuerWakeups
  import opened Reports
  import opened Requests
  import opened ServerSideApply
  import opened SignerErrors

  lemma {:induction false} OneMore(s: State, steps: seq<Step>, u: State, step: Step)
    requires Run(s, steps, u) && Shape(u) && Allowed(u, step) && Shape(Next(u, step))
    ensures Run(s, steps + [step], Next(u, step))
    decreases steps
  {
    var longer := steps + [step];
    if steps == [] {
      assert longer[1..] == [];
    } else {
      OneMore(Next(s, steps[0]), steps[1..], u, step);
      assert longer[1..] == steps[1..] + [step];
    }
  }

  /*** Whole reconciles ***/

  /** A reconcile with no hook and no report that reads `read`. */
  function Asked(read: Issuer, check: Option<Error>, now: Time): Inputs {
    Inputs(Found(read), NoHook, check, now)
  }

  /** The cache shows an issuer, and there is one to patch. */
  ghost predicate MayReconcile(u: State) {
    && Shape(u) && u.stage == Idle && u.dirty && u.cached > 0 && u.log[u.cached - 1].Some? && Last(u).Some?
  }

  /** The state after one whole reconcile of the cached version. */
  ghost function AfterReconcile(u: State, check: Option<Error>, now: Time, lost: bool): State
    requires MayReconcile(u)
  {
    var i := Asked(u.log[u.cached - 1].value, check, now);
    var o := Plan(i, None);
    var made := o.patch.Some? && !lost;
    var a := Act(i, None, o, lost, {}, made, u.own > 0 && u.cached <= u.own);
    u.(log := if made then u.log + [Some(Updated(Last(u).value, o.patch.value, {}))] else u.log,
       own := if made then |u.log| else u.own,
       dirty := false, stage := Idle, seen := u.cached, act := Some(a), retry := u.retry || Returns(a))
  }

  function AfterRead(u: State): State {
    u.(dirty := false, stage := HasRead, seen := u.cached, act := None)
  }

  lemma {:induction false} ReadStates(u: State)
    requires MayReconcile(u)
    ensures Allowed(u, Begin) && Shape(Next(u, Begin)) && Allowed(Next(u, Begin), ReadIssuer)
    ensures Next(Next(u, Begin), ReadIssuer) == AfterRead(u) && Shape(AfterRead(u))
  {
  }

  lemma {:induction false} ActStates(u: State, check: Option<Error>, now: Time, lost: bool)
    requires MayReconcile(u) && Shape(AfterRead(u))
    ensures var act := DoAct(Asked(u.log[u.cached - 1].value, check, now), None, lost, {});
            && Allowed(AfterRead(u), act)
            && var acted := Next(AfterRead(u), act);
               && Shape(acted) && Allowed(acted, End)
               && Next(acted, End) == AfterReconcile(u, check, now, lost) && Shape(AfterReconcile(u, check, now, lost))
  {
    var act := DoAct(Asked(u.log[u.cached - 1].value, check, now), None, lost, {});
    var acted := Next(AfterRead(u), act);
    assert acted.act == AfterReconcile(u, check, now, lost).act;
    assert acted.log == AfterReconcile(u, check, now, lost).log && acted.own == AfterReconcile(u, check, now, lost).own;
  }

  lemma {:induction false} OneReconcile(
    s: State, steps: seq<Step>, u: State, check: Option<Error>, now: Time, lost: bool)
    returns (longer: seq<Step>)
    requires Run(s, steps, u) && MayReconcile(u)
    ensures Shape(AfterReconcile(u, check, now, lost)) && Run(s, longer, AfterReconcile(u, check, now, lost))
  {
    var act := DoAct(Asked(u.log[u.cached - 1].value, check, now), None, lost, {});
    ReadStates(u);
    ActStates(u, check, now, lost);
    OneMore(s, steps, u, Begin);
    OneMore(s, steps + [Begin], Next(u, Begin), ReadIssuer);
    OneMore(s, steps + [Begin] + [ReadIssuer], AfterRead(u), act);
    OneMore(s, steps + [Begin] + [ReadIssuer] + [act], Next(AfterRead(u), act), End);
    longer := steps + [Begin] + [ReadIssuer] + [act] + [End];
  }

  /** What a patch makes of the stored issuer. */
  lemma {:induction false} VersionMade(read: Issuer, stored: Issuer, check: Option<Error>, now: Time)
    requires Plan(Asked(read, check, now), None).patch.Some?
    ensures var o := Plan(Asked(read, check, now), None);
            var n := Updated(stored, o.patch.value, {});
            && o.patch.value != [] && n.generation == stored.generation && n.annotations == stored.annotations
            && ReadyOf(n) == Some(o.patch.value[0]) && o.patch.value[0].stamp == read.generation
  {
    PlanWrites(Asked(read, check, now), None, read);
    MergeIsKeyed(stored.conditions, Plan(Asked(read, check, now), None).patch.value, {}, Ready);
  }

  /** The patch of an initialised issuer makes an update that does not pass. */
  lemma {:induction false} MadeSilently(read: Issuer, stored: Issuer, check: Option<Error>, now: Time)
    requires Plan(Asked(read, check, now), None).patch.Some? && ReadyOf(stored).Some?
    ensures var o := Plan(Asked(read, check, now), None);
            var n := Updated(stored, o.patch.value, {});
            && o.patch.value != [] && n.generation == stored.generation
            && ReadyOf(n) == Some(o.patch.value[0]) && o.patch.value[0].stamp == read.generation
            && !EventWakes(Some(stored), Some(n))
  {
    VersionMade(read, stored, check, now);
  }

  /*** Initialised and queued ***/

  /** The issuer was created and initialised, and is queued again because of that. */
  ghost predicate IsInitialised(s: State, u: State) {
    && s.log != [] && Shape(u) && u.stage == Idle && u.dirty && !u.retry
    && |u.log| == 2 && u.log[0] == s.log[0] && u.log[0].Some? && u.log[1].Some?
    && u.own == 1 && u.cached == 2 && u.handled == 2
    && u.log[1].value.generation == u.log[0].value.generation
    && ReadyOf(u.log[1].value).Some? && ReadyOf(u.log[1].value).value.status == Unknown
    && ReadyOf(u.log[1].value).value.stamp == u.log[1].value.generation
  }

  lemma {:induction false} CreatedStates(s: State)
    requires Init(s) && Shape(s)
    ensures Allowed(s, Cache) && Shape(Next(s, Cache)) && Allowed(Next(s, Cache), Handle)
    ensures var u := s.(cached := 1, handled := 1, dirty := true);
            Next(Next(s, Cache), Handle) == u && Shape(u)
  {
  }

  lemma {:induction false} InitialisedStates(s: State, now: Time)
    requires Init(s) && s.log[0].Some? && MayReconcile(s.(cached := 1, handled := 1, dirty := true))
    ensures var u := AfterReconcile(s.(cached := 1, handled := 1, dirty := true), None, now, false);
            && Shape(u) && Allowed(u, Cache) && Shape(Next(u, Cache)) && Allowed(Next(u, Cache), Handle)
            && IsInitialised(s, Next(Next(u, Cache), Handle))
  {
    VersionMade(s.log[0].value, s.log[0].value, None, now);
    var u := AfterReconcile(s.(cached := 1, handled := 1, dirty := true), None, now, false);
    assert u.log == [s.log[0], u.log[1]];
    assert Wakes(u.log, 1);
  }

  lemma {:induction false} Initialise(s: State, now: Time) returns (steps: seq<Step>, t: State)
    requires Init(s) && Shape(s) && s.log[0].Some?
    ensures Run(s, steps, t) && IsInitialised(s, t)
  {
    CreatedStates(s);
    assert Run(s, [], s);
    OneMore(s, [], s, Cache);
    OneMore(s, [] + [Cache], Next(s, Cache), Handle);
    var u := s.(cached := 1, handled := 1, dirty := true);
    steps := OneReconcile(s, [] + [Cache] + [Handle], u, None, now, false);
    InitialisedStates(s, now);
    var v := AfterReconcile(u, None, now, false);
    OneMore(s, steps, v, Cache);
    OneMore(s, steps + [Cache], Next(v, Cache), Handle);
    steps, t := steps + [Cache] + [Handle], Next(Next(v, Cache), Handle);
  }

  /** Asleep, with no wake-up under way, and without a verdict. */
  ghost predicate EndsStranded(t: State) {
    Shape(t) && Asleep(t) && NothingComing(t) && !AtRest(Last(t))
  }

  /*** One check ***/

  /** What the reconcile of an initialised issuer makes of an error of Check. */
  lemma {:induction false} PlanOfError(read: Issuer, e: Error, now: Time)
    requires ReadyOf(read).Some? && ReadyOf(read).value.status == Unknown
    ensures var o := Plan(Asked(read, Some(e), now), None);
            && o.patch.Some? && o.patch.value != [] && o.patch.value[0].status == False
            && (o.patch.value[0].reason == HasFailed <==> PermanentErr in Kinds(e))
            && o.error == if Kinds(e) !! {PermanentErr, TerminalErr} then RetryError else TerminalError
  {
    AsFindsKinds(e, PermanentErr);
    AsFindsKinds(e, TerminalErr);
  }

  lemma {:induction false} TerminalStates(s: State, u: State, e: Error, now: Time)
    requires IsInitialised(s, u) && MayReconcile(u) && TerminalErr in Kinds(e) && PermanentErr !in Kinds(e)
    ensures EndsStranded(AfterReconcile(u, Some(e), now, false))
  {
    var read := u.log[1].value;
    PlanOfError(read, e, now);
    MadeSilently(read, read, Some(e), now);
    var t := AfterReconcile(u, Some(e), now, false);
    assert t.log == u.log + [t.log[2]];
    assert !Wakes(t.log, 2);
  }

  lemma {:induction false} LostStates(s: State, u: State, e: Error, now: Time)
    requires IsInitialised(s, u) && MayReconcile(u) && PermanentErr in Kinds(e)
    ensures EndsStranded(AfterReconcile(u, Some(e), now, true))
  {
    PlanOfError(u.log[1].value, e, now);
    AggregateIsTerminalExactly(TerminalError);
  }

  /** An error of Check to retry that contains a terminal error leaves every issuer asleep, not ready. */
  lemma {:induction false} TerminalErrorStrands(s: State, e: Error, now: Time) returns (steps: seq<Step>, t: State)
    requires Init(s) && Shape(s) && s.log[0].Some? && TerminalErr in Kinds(e) && PermanentErr !in Kinds(e)
    ensures Run(s, steps, t) && EndsStranded(t) && t.act.Some? && !t.act.value.lost && !t.act.value.stale
  {
    var u;
    steps, u := Initialise(s, now);
    TerminalStates(s, u, e, now);
    steps := OneReconcile(s, steps, u, Some(e), now, false);
    t := AfterReconcile(u, Some(e), now, false);
  }

  /** A lost patch of a permanent error leaves every issuer asleep and initialising. */
  lemma {:induction false} LostPatchStrands(s: State, e: Error, now: Time) returns (steps: seq<Step>, t: State)
    requires Init(s) && Shape(s) && s.log[0].Some? && PermanentErr in Kinds(e)
    ensures Run(s, steps, t) && EndsStranded(t) && t.act.Some? && t.act.value.lost && !t.act.value.stale
  {
    var u;
    steps, u := Initialise(s, now);
    LostStates(s, u, e, now);
    steps := OneReconcile(s, steps, u, Some(e), now, true);
    t := AfterReconcile(u, Some(e), now, true);
  }

  /*** Stale reads ***/

  /** Failed by the first check, and queued again because of a report. */
  ghost predicate IsFailedAndQueued(u: State) {
    && Shape(u) && u.stage == Idle && u.dirty && !u.retry
    && |u.log| == 3 && u.own == 2 && u.cached == 2 && u.handled == 2
    && u.log[1].Some? && u.log[2].Some? && IsFailed(u.log[2].value)
    && ReadyOf(u.log[1].value).Some? && ReadyOf(u.log[1].value).value.status == Unknown
    && !Wakes(u.log, 2)
  }

  lemma {:induction false} FailedStates(s: State, u: State, e: Error, now: Time)
    requires IsInitialised(s, u) && MayReconcile(u) && PermanentErr in Kinds(e)
    ensures var v := AfterReconcile(u, Some(e), now, false);
            Shape(v) && Allowed(v, ReportArrives) && IsFailedAndQueued(Next(v, ReportArrives))
  {
    var read := u.log[1].value;
    PlanOfError(read, e, now);
    MadeSilently(read, read, Some(e), now);
    var v := AfterReconcile(u, Some(e), now, false);
    assert v.log == u.log + [v.log[2]];
  }

  /** Pending again, because a stale reconcile did not see the failure, and retried with the failure in the cache. */
  ghost predicate IsPendingAgain(u: State) {
    && Shape(u) && u.stage == Idle && u.dirty && !u.retry
    && |u.log| == 4 && u.own == 3 && u.cached == 3 && u.handled == 2
    && u.log[2].Some? && IsFailed(u.log[2].value) && u.log[3].Some? && !AtRest(u.log[3])
    && !Wakes(u.log, 2) && !Wakes(u.log, 3)
  }

  lemma {:induction false} PendingStates(u: State, e: Error, now: Time)
    requires IsFailedAndQueued(u) && MayReconcile(u) && Kinds(e) !! {PermanentErr, TerminalErr}
    ensures var v := AfterReconcile(u, Some(e), now, false);
            && Shape(v) && Allowed(v, Retry) && Shape(Next(v, Retry)) && Allowed(Next(v, Retry), Cache)
            && IsPendingAgain(Next(Next(v, Retry), Cache))
  {
    PlanOfError(u.log[1].value, e, now);
    MadeSilently(u.log[1].value, u.log[2].value, Some(e), now);
    var v := AfterReconcile(u, Some(e), now, false);
    assert v.log == u.log + [v.log[3]];
    assert Wakes(v.log, 2) == Wakes(u.log, 2);
  }

  lemma {:induction false} ForgottenStates(u: State, now: Time)
    requires IsPendingAgain(u) && MayReconcile(u)
    ensures var t := AfterReconcile(u, None, now, false);
            EndsStranded(t) && t.act.Some? && t.act.value.stale && !t.act.value.lost
  {
  }

  /** Stale reads can leave every issuer asleep with an error that is to be retried: a reconcile that did not see
      a permanent failure overwrites it, and the retry sees the failure and rests. */
  lemma {:induction false} StaleReadsCanStrand(s: State, permanent: Error, plain: Error, now: Time)
    returns (steps: seq<Step>, t: State)
    requires Init(s) && Shape(s) && s.log[0].Some?
    requires PermanentErr in Kinds(permanent) && Kinds(plain) !! {PermanentErr, TerminalErr}
    ensures Run(s, steps, t) && EndsStranded(t) && t.act.Some? && t.act.value.stale && !t.act.value.lost
  {
    var first, u := FailThenReport(s, permanent, now);
    var second, v := PendAgain(s, first, u, plain, now);
    ForgottenStates(v, now);
    steps := OneReconcile(s, second, v, None, now, false);
    t := AfterReconcile(v, None, now, false);
  }

  lemma {:induction false} FailThenReport(s: State, permanent: Error, now: Time) returns (steps: seq<Step>, t: State)
    requires Init(s) && Shape(s) && s.log[0].Some? && PermanentErr in Kinds(permanent)
    ensures Run(s, steps, t) && IsFailedAndQueued(t)
  {
    var u;
    steps, u := Initialise(s, now);
    FailedStates(s, u, permanent, now);
    steps := OneReconcile(s, steps, u, Some(permanent), now, false);
    var v := AfterReconcile(u, Some(permanent), now, false);
    OneMore(s, steps, v, ReportArrives);
    steps, t := steps + [ReportArrives], Next(v, ReportArrives);
  }

  lemma {:induction false} PendAgain(s: State, steps: seq<Step>, u: State, plain: Error, now: Time)
    returns (longer: seq<Step>, t: State)
    requires Run(s, steps, u) && IsFailedAndQueued(u) && Kinds(plain) !! {PermanentErr, TerminalErr}
    ensures Run(s, longer, t) && IsPendingAgain(t)
  {
    PendingStates(u, plain, now);
    longer := OneReconcile(s, steps, u, Some(plain), now, false);
    var v := AfterReconcile(u, Some(plain), now, false);
    OneMore(s, longer, v, Retry);
    OneMore(s, longer + [Retry], Next(v, Retry), Cache);
    longer, t := longer + [Retry] + [Cache], Next(Next(v, Retry), Cache);
  }
}
