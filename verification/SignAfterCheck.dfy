/** Both controllers around one issuer, interleaved in any order. Users edit the issuer; any number of
    issuer workers read a version, decide (perhaps calling Check) and patch in separate steps, and any
    number of requests are reconciled. Every read may return any older version.

    A call of Sign comes only after a successful Check at the same generation. A Ready condition that is True
    or False comes after some Check at its generation as well, except exactly where a report was used on a
    Ready condition of an older generation.
 */
module SignAfterCheck {
  import opened Conditions
  import opened ControllerRuntime
  import opened IssuerTypes
  import opened Reports
  import opened Requests
  import opened ServerSideApply
  import opened SignerErrors
  import IssuerController
  import RequestController

  datatype Worker = HasRead(index: nat) | HasDecided(patch: Option<seq<Condition>>)

  datatype CheckCall = CheckCall(generation: int, ok: bool)

  /** A call of Sign: the generation of the issuer it was given, and how many Check calls came before. */
  datatype SignCall = SignCall(generation: int, checksBefore: nat)

  datatype State = State(
    versions: seq<Issuer>,
    workers: map<nat, Worker>,
    checks: seq<CheckCall>,
    signs: seq<SignCall>,
    blind: set<int>)                 // the generations for which a report on an older one was used

  datatype Step =
    | Edit(issuer: Issuer)
    | ReadIssuer(worker: nat, index: nat)
    | Decide(worker: nat, reported: Option<Error>, hook: Hook, check: Option<Error>, now: Time)
    | Patch(worker: nat, dropped: set<ConditionType>)
    | ReconcileRequest(settings: RequestController.Settings, consumers: set<GroupVersionKind>, request: Read<Request>,
                       hook: Hook, index: nat, sign: RequestController.SignResult, now: Time)

  function ReadyOf(issuer: Issuer): Option<Condition> {
    Get(issuer.conditions, Ready)
  }

  function Latest(s: State): Issuer
    requires s.versions != []
  {
    s.versions[|s.versions| - 1]
  }

  ghost predicate Init(s: State) {
    && |s.versions| == 1
    && UniqueTypes(s.versions[0].conditions)
    && ReadyOf(s.versions[0]).None?
    && s.workers == map[] && s.checks == [] && s.signs == [] && s.blind == {}
  }

  /** Users never touch the Ready condition, and generations never decrease. */
  ghost predicate Allowed(s: State, step: Step) {
    && s.versions != []
    && match step
       case Edit(issuer) =>
         UniqueTypes(issuer.conditions) && issuer.generation >= Latest(s).generation
         && ReadyOf(issuer) == ReadyOf(Latest(s))
       case ReadIssuer(w, index) => w !in s.workers && index < |s.versions|
       case Decide(w, _, _, _, _) => w in s.workers && s.workers[w].HasRead? && s.workers[w].index < |s.versions|
       case Patch(w, _) => w in s.workers && s.workers[w].HasDecided?
       case ReconcileRequest(_, _, _, _, index, _, _) => index < |s.versions|
  }

  /** The version that a deciding worker has read. */
  function ReadBy(s: State, step: Step): Issuer
    requires step.Decide? && step.worker in s.workers
    requires s.workers[step.worker].HasRead? && s.workers[step.worker].index < |s.versions|
  {
    s.versions[s.workers[step.worker].index]
  }

  function InputsOf(read: Issuer, step: Step): IssuerController.Inputs
    requires step.Decide?
  {
    IssuerController.Inputs(Found(read), step.hook, step.check, step.now)
  }

  function IssuerOutcome(read: Issuer, step: Step): IssuerController.Outcome
    requires step.Decide?
  {
    IssuerController.Plan(InputsOf(read, step), step.reported)
  }

  /** A report is used on a Ready condition of an older generation. */
  predicate UsesOldReport(read: Issuer, step: Step)
    requires step.Decide?
  {
    step.reported.Some? && UsesReport(InputsOf(read, step)) && ReadyOf(read).value.stamp < read.generation
  }

  function RequestOutcome(s: State, step: Step): RequestController.Outcome
    requires step.ReconcileRequest? && step.index < |s.versions|
  {
    RequestController.Plan(step.settings, step.consumers,
      RequestController.Inputs(step.request, step.hook, Found(s.versions[step.index]), step.sign, step.now))
  }

  ghost function Next(s: State, step: Step): State
    requires Allowed(s, step)
  {
    match step
    case Edit(issuer) => s.(versions := s.versions + [issuer])
    case ReadIssuer(w, index) => s.(workers := s.workers[w := HasRead(index)])
    case Decide(w, _, _, check, _) =>
      var read := ReadBy(s, step);
      var o := IssuerOutcome(read, step);
      s.(workers := s.workers[w := HasDecided(o.patch)],
         checks := if o.calledCheck then s.checks + [CheckCall(read.generation, check.None?)] else s.checks,
         blind := if UsesOldReport(read, step) then s.blind + {read.generation} else s.blind)
    case Patch(w, dropped) =>
      var s1 := s.(workers := s.workers - {w});
      if s.workers[w].patch.None? then s1
      else s1.(versions := s.versions +
             [Latest(s).(conditions := Merge(Latest(s).conditions, s.workers[w].patch.value, dropped))])
    case ReconcileRequest(_, _, _, _, index, _, _) =>
      if RequestOutcome(s, step).exit.Signs()
      then s.(signs := s.signs + [SignCall(s.versions[index].generation, |s.checks|)])
      else s
  }

  ghost predicate Run(s: State, steps: seq<Step>, t: State)
    decreases steps
  {
    if steps == [] then s == t
    else Allowed(s, steps[0]) && Run(Next(s, steps[0]), steps[1..], t)
  }

  /** Check returned nil at this generation, among the first n calls. */
  ghost predicate CheckedAt(checks: seq<CheckCall>, n: nat, generation: int) {
    exists k :: 0 <= k < n && k < |checks| && checks[k] == CheckCall(generation, true)
  }

  /** Check was called at this generation. */
  ghost predicate AskedAt(checks: seq<CheckCall>, generation: int) {
    exists k :: 0 <= k < |checks| && checks[k].generation == generation
  }

  /** A Ready condition that tells the truth: it is not from the future, True means checked successfully, and
      False means checked or reported for an older generation. */
  ghost predicate Honest(c: Condition, generation: int, checks: seq<CheckCall>, blind: set<int>) {
    && c.stamp <= generation
    && (c.status == True ==> CheckedAt(checks, |checks|, c.stamp))
    && (c.status != Unknown ==> AskedAt(checks, c.stamp) || c.stamp in blind)
  }

  ghost predicate Inv(s: State) {
    && s.versions != []
    && (forall i, j :: 0 <= i <= j < |s.versions| ==> s.versions[i].generation <= s.versions[j].generation)
    && (forall i :: 0 <= i < |s.versions| && ReadyOf(s.versions[i]).Some? ==>
          Honest(ReadyOf(s.versions[i]).value, s.versions[i].generation, s.checks, s.blind))
    && (forall w :: w in s.workers ==> WorkerInv(s, s.workers[w]))
    && (forall k :: 0 <= k < |s.signs| ==> CheckedAt(s.checks, s.signs[k].checksBefore, s.signs[k].generation))
  }

  ghost predicate WorkerInv(s: State, worker: Worker)
    requires s.versions != []
  {
    match worker
    case HasRead(index) => index < |s.versions|
    case HasDecided(patch) =>
      patch.Some? ==> |patch.value| == 1 && patch.value[0].ctype == Ready
                      && Honest(patch.value[0], Latest(s).generation, s.checks, s.blind)
  }

  /** Longer logs keep what shorter ones show. */
  lemma {:induction false} LogsGrow(shorter: seq<CheckCall>, longer: seq<CheckCall>, n: nat, g: int)
    requires shorter <= longer
    ensures CheckedAt(shorter, n, g) ==> CheckedAt(longer, n, g)
    ensures CheckedAt(shorter, |shorter|, g) ==> CheckedAt(longer, |longer|, g)
    ensures AskedAt(shorter, g) ==> AskedAt(longer, g)
  {
    assert forall k :: 0 <= k < |shorter| ==> shorter[k] == longer[k];
  }

  lemma {:induction false} HonestyLasts(c: Condition, generation: int, s: State, t: State)
    requires Honest(c, generation, s.checks, s.blind) && s.checks <= t.checks && s.blind <= t.blind
    ensures Honest(c, generation, t.checks, t.blind)
  {
    LogsGrow(s.checks, t.checks, 0, c.stamp);
  }

  /** What a reconcile writes is honest: Check was called at the generation it read, or a report was used on a
      Ready condition that itself is honest. */
  lemma {:induction false} DecisionIsHonest(s: State, step: Step)
    requires Inv(s) && Allowed(s, step) && step.Decide?
    ensures WorkerInv(Next(s, step), HasDecided(IssuerOutcome(ReadBy(s, step), step).patch))
  {
    var t, read := Next(s, step), ReadBy(s, step);
    var o := IssuerOutcome(read, step);
    if o.calledCheck {
      assert t.checks[|s.checks|] == CheckCall(read.generation, step.check.None?);
    } else if o.patch.Some? && ReadyOf(read).Some? {
      CheckedIsAsked(s.checks, ReadyOf(read).value.stamp);
    }
  }

  lemma {:induction false} CheckedIsAsked(checks: seq<CheckCall>, g: int)
    ensures CheckedAt(checks, |checks|, g) ==> AskedAt(checks, g)
  {
  }

  lemma {:induction false} DecideStep(s: State, step: Step)
    requires Inv(s) && Allowed(s, step) && step.Decide?
    ensures Inv(Next(s, step))
  {
    var t := Next(s, step);
    DecisionIsHonest(s, step);
    forall c: Condition, g | Honest(c, g, s.checks, s.blind) ensures Honest(c, g, t.checks, t.blind) {
      HonestyLasts(c, g, s, t);
    }
    forall n: nat, g | CheckedAt(s.checks, n, g) ensures CheckedAt(t.checks, n, g) {
      LogsGrow(s.checks, t.checks, n, g);
    }
  }

  /** A reconcile that writes True or False leaves a generation without any Check exactly when it uses a report
      on a Ready condition of an older generation, and nobody has called Check for it before. */
  lemma {:induction false} DecidesUnaskedExactly(s: State, step: Step)
    requires Inv(s) && Allowed(s, step) && step.Decide?
    requires var o := IssuerOutcome(ReadBy(s, step), step); o.patch.Some? && o.patch.value[0].status != Unknown
    ensures var g := ReadBy(s, step).generation;
            !AskedAt(Next(s, step).checks, g) <==> UsesOldReport(ReadBy(s, step), step) && !AskedAt(s.checks, g)
  {
    var t, read := Next(s, step), ReadBy(s, step);
    if IssuerOutcome(read, step).calledCheck {
      assert t.checks[|s.checks|].generation == read.generation;
    } else {
      CheckedIsAsked(s.checks, ReadyOf(read).value.stamp);
    }
  }

  lemma {:induction false} PatchStep(s: State, step: Step)
    requires Inv(s) && Allowed(s, step) && step.Patch?
    ensures Inv(Next(s, step))
  {
    var patch := s.workers[step.worker].patch;
    if patch.Some? {
      MergeIsKeyed(Latest(s).conditions, patch.value, step.dropped, Ready);
      assert Get(patch.value, Ready) == Some(patch.value[0]);
      assert Ready in TypesOf(patch.value);
    }
  }

  /** Helper: a request that calls Sign was given an up-to-date issuer whose Ready condition is True. */
  lemma {:induction false} SignNeedsReadyIssuer(s: State, step: Step)
    requires Allowed(s, step) && step.ReconcileRequest? && RequestOutcome(s, step).exit.Signs()
    ensures var ready := ReadyOf(s.versions[step.index]);
            ready.Some? && ready.value.status == True && ready.value.stamp >= s.versions[step.index].generation
  {
  }

  lemma {:induction false} InvStep(s: State, step: Step)
    requires Inv(s) && Allowed(s, step)
    ensures Inv(Next(s, step))
  {
    match step
    case Edit(issuer) =>
    case ReadIssuer(_, _) =>
    case Decide(_, _, _, _, _) => DecideStep(s, step);
    case Patch(_, _) => PatchStep(s, step);
    case ReconcileRequest(_, _, _, _, _, _, _) =>
      if RequestOutcome(s, step).exit.Signs() {
        SignNeedsReadyIssuer(s, step);
      }
  }

  lemma {:induction false} InvRun(s: State, steps: seq<Step>, t: State)
    requires Inv(s) && Run(s, steps, t)
    ensures Inv(t)
    decreases steps
  {
    if steps != [] {
      InvStep(s, steps[0]);
      InvRun(Next(s, steps[0]), steps[1..], t);
    }
  }

  /** Every call of Sign with an issuer read at some generation comes after a Check of the issuer at
      exactly that generation which returned nil. */
  lemma {:induction false} SignOnlyAfterCheck(s: State, steps: seq<Step>, t: State)
    requires Init(s) && Run(s, steps, t)
    ensures forall k :: 0 <= k < |t.signs| ==> CheckedAt(t.checks, t.signs[k].checksBefore, t.signs[k].generation)
  {
    InvRun(s, steps, t);
  }

  /** In every run, a Ready condition that is True or False is stamped with a generation at which Check was
      called, or for which a report on an older one was used. */
  lemma {:induction false} StampedOnlyAfterCheckOrOldReport(s: State, steps: seq<Step>, t: State)
    requires Init(s) && Run(s, steps, t)
    ensures forall i :: 0 <= i < |t.versions| && ReadyOf(t.versions[i]).Some? ==>
              var ready := ReadyOf(t.versions[i]).value;
              ready.status != Unknown ==> AskedAt(t.checks, ready.stamp) || ready.stamp in t.blind
  {
    InvRun(s, steps, t);
  }

  /*** A permanent failure at a generation that was never checked ***/

  lemma {:induction false} OneMore(s: State, steps: seq<Step>, u: State, step: Step)
    requires Run(s, steps, u) && Allowed(u, step)
    ensures Run(s, steps + [step], Next(u, step))
    decreases steps
  {
    var longer := steps + [step];
    if steps == [] {
      assert longer[1..] == [];
    } else {
      OneMore(Next(s, steps[0]), steps[1..], u, step);
      assert longer[1..] == steps[1..] + [step];
    }
  }

  /** The state after a whole reconcile of the latest version by worker 0. */
  ghost function AfterReconcile(u: State, decide: Step): State
    requires u.versions != [] && decide.Decide? && decide.worker == 0
  {
    var read := Latest(u);
    var o := IssuerOutcome(read, decide);
    u.(versions := if o.patch.None? then u.versions else u.versions + [Updated(read, o.patch.value, {})],
       checks := if o.calledCheck then u.checks + [CheckCall(read.generation, decide.check.None?)] else u.checks,
       blind := if UsesOldReport(read, decide) then u.blind + {read.generation} else u.blind)
  }

  lemma {:induction false} ReconcileSteps(u: State, decide: Step)
    requires u.versions != [] && u.workers == map[] && decide.Decide? && decide.worker == 0
    ensures Allowed(u, ReadIssuer(0, |u.versions| - 1))
    ensures var u1 := Next(u, ReadIssuer(0, |u.versions| - 1));
            && Allowed(u1, decide)
            && Allowed(Next(u1, decide), Patch(0, {}))
            && Next(Next(u1, decide), Patch(0, {})) == AfterReconcile(u, decide)
  {
    var u1 := Next(u, ReadIssuer(0, |u.versions| - 1));
    var o := IssuerOutcome(Latest(u), decide);
    var u2 := u.(workers := map[0 := HasDecided(o.patch)], checks := AfterReconcile(u, decide).checks,
                 blind := AfterReconcile(u, decide).blind);
    assert ReadBy(u1, decide) == Latest(u);
    assert Next(u1, decide) == u2;
    assert u2.workers - {0} == map[];
  }

  lemma {:induction false} OneReconcile(s: State, steps: seq<Step>, u: State, decide: Step) returns (longer: seq<Step>)
    requires Run(s, steps, u) && u.versions != [] && u.workers == map[] && decide.Decide? && decide.worker == 0
    ensures Run(s, longer, AfterReconcile(u, decide))
  {
    var read := ReadIssuer(0, |u.versions| - 1);
    ReconcileSteps(u, decide);
    OneMore(s, steps, u, read);
    OneMore(s, steps + [read], Next(u, read), decide);
    OneMore(s, steps + [read] + [decide], Next(Next(u, read), decide), Patch(0, {}));
    longer := steps + [read] + [decide] + [Patch(0, {})];
  }

  /** What one reconcile of the latest version leaves. */
  ghost predicate Leaves(u: State, t: State, generation: int, status: Status, reason: Reason, checks: seq<CheckCall>) {
    && u.versions != [] && t.workers == map[] && |t.versions| > |u.versions|
    && UniqueTypes(Latest(t).conditions) && Latest(t).generation == generation && t.checks == checks
    && ReadyOf(Latest(t)).Some?
    && var c := ReadyOf(Latest(t)).value; c.status == status && c.reason == reason && c.stamp == generation
  }

  lemma {:induction false} ReconcileLeaves(u: State, decide: Step)
    requires u.versions != [] && u.workers == map[] && UniqueTypes(Latest(u).conditions) && decide.Decide?
    requires decide.worker == 0
    requires IssuerOutcome(Latest(u), decide).patch.Some?
    ensures var t, o := AfterReconcile(u, decide), IssuerOutcome(Latest(u), decide);
            && o.patch.value != []
            && Leaves(u, t, Latest(u).generation, o.patch.value[0].status, o.patch.value[0].reason, t.checks)
  {
    var p := IssuerOutcome(Latest(u), decide).patch.value;
    assert p == [p[0]] && Get(p, Ready) == Some(p[0]);
    MergeIsKeyed(Latest(u).conditions, p, {}, Ready);
  }

  /** Initialising and one successful check. */
  lemma {:induction false} CheckedOnce(s: State, now: Time) returns (steps: seq<Step>, t: State)
    requires Init(s)
    ensures Run(s, steps, t)
    ensures var g := s.versions[0].generation; Leaves(s, t, g, True, Checked, [CheckCall(g, true)])
  {
    var decide := Decide(0, None, NoHook, None, now);
    assert Run(s, [], s);
    steps := OneReconcile(s, [], s, decide);
    ReconcileLeaves(s, decide);
    var u := AfterReconcile(s, decide);
    steps := OneReconcile(s, steps, u, decide);
    ReconcileLeaves(u, decide);
    t := AfterReconcile(u, decide);
  }

  /** A used report of a permanent error, after the generation rose. */
  lemma {:induction false} FailsUnchecked(
    s: State, steps: seq<Step>, u: State, e: Error, now: Time) returns (longer: seq<Step>, t: State)
    requires Run(s, steps, u) && PermanentErr in Kinds(e) && u.versions != [] && u.workers == map[]
    requires UniqueTypes(Latest(u).conditions) && ReadyOf(Latest(u)).Some? && ReadyOf(Latest(u)).value.status == True
    ensures Run(s, longer, t) && Leaves(u, t, Latest(u).generation, False, HasFailed, u.checks)
  {
    var decide := Decide(0, Some(e), NoHook, None, now);
    AsFindsKinds(e, PermanentErr);
    longer := OneReconcile(s, steps, u, decide);
    ReconcileLeaves(u, decide);
    t := AfterReconcile(u, decide);
  }

  /** Every issuer can come to this: after a successful check and an edit, a report makes a permanent failure at
      the new generation, for which Check was never called. */
  lemma {:induction false} OldReportFailsUncheckedGeneration(s: State, generation: int, e: Error, now: Time)
    returns (steps: seq<Step>, t: State)
    requires Init(s) && PermanentErr in Kinds(e) && generation > s.versions[0].generation
    ensures Run(s, steps, t) && t.versions != [] && Latest(t).generation == generation
    ensures IssuerController.IsFailed(Latest(t)) && !AskedAt(t.checks, generation)
  {
    var u;
    steps, u := CheckedOnce(s, now);
    var edit := Edit(Latest(u).(generation := generation));
    OneMore(s, steps, u, edit);
    steps, t := FailsUnchecked(s, steps + [edit], Next(u, edit), e, now);
  }
}
