/** Runs of one issuer: spec and annotation edits by users, and reconciles, one after the other. A
    reconcile reads some version of the issuer, not older than the one read before, and its patch
    reaches the latest version, so edits may fall between read and patch. Only the controller writes
    the Ready condition. A reconcile that cannot read the issuer changes nothing and is not a step.
 */
module IssuerRuns {
  import opened Conditions
  import opened ControllerRuntime
  import opened IssuerController
  import opened Requests
  import opened ServerSideApply
  import opened SignerErrors
  import opened Transitions

  /** All versions of the issuer, the writes that led from each to the next, the version read last, and
      how often Check was called and a patch applied. */
  datatype State = State(versions: seq<Issuer>, turns: seq<Turn>, lastRead: nat, checks: nat, patches: nat)

  datatype Step =
    | Edit(issuer: Issuer)
    | Reconcile(index: nat, reported: Option<Error>, hook: Hook, check: Option<Error>,
                now: Time, dropped: set<ConditionType>)

  function Latest(s: State): Issuer
    requires s.versions != []
  {
    s.versions[|s.versions| - 1]
  }

  function ReadyOf(issuer: Issuer): Option<Condition> {
    Get(issuer.conditions, Ready)
  }

  ghost predicate Init(s: State) {
    && |s.versions| == 1
    && s.turns == []
    && s.lastRead == 0
    && UniqueTypes(s.versions[0].conditions)
    && ReadyOf(s.versions[0]).None?
  }

  ghost predicate Allowed(s: State, step: Step)
    requires s.versions != []
  {
    match step
    case Edit(issuer) =>
      && UniqueTypes(issuer.conditions)
      && issuer.generation >= Latest(s).generation
      && ReadyOf(issuer) == ReadyOf(Latest(s))
    case Reconcile(index, _, _, _, _, _) =>
      s.lastRead <= index < |s.versions|
  }

  function OutcomeOf(s: State, step: Step): Outcome
    requires step.Reconcile? && step.index < |s.versions|
  {
    Plan(Inputs(Found(s.versions[step.index]), step.hook, step.check, step.now), step.reported)
  }

  /** The writes behind an issuer patch. */
  function WritesOf(patch: seq<Condition>): seq<Write> {
    if patch == [] then [] else [Write(patch[0].ctype, patch[0].status, patch[0].reason, patch[0].stamp)]
  }

  function Next(s: State, step: Step): State
    requires s.versions != [] && (step.Reconcile? ==> step.index < |s.versions|)
  {
    match step
    case Edit(issuer) => s.(versions := s.versions + [issuer], turns := s.turns + [Turn(0, [])])
    case Reconcile(index, _, _, _, now, dropped) =>
      var o := OutcomeOf(s, step);
      var s1 := s.(lastRead := index, checks := s.checks + if o.calledCheck then 1 else 0);
      if o.patch.None? then s1
      else
        var latest := Latest(s);
        s1.(versions := s.versions + [latest.(conditions := Merge(latest.conditions, o.patch.value, dropped))],
            turns := s.turns + [Turn(now, WritesOf(o.patch.value))], patches := s.patches + 1)
  }

  /** s leads to t by the given steps. */
  ghost predicate Run(s: State, steps: seq<Step>, t: State)
    decreases steps
  {
    && s.versions != []
    && if steps == [] then s == t
       else Allowed(s, steps[0]) && Run(Next(s, steps[0]), steps[1..], t)
  }

  /*** The stamped generation ***/

  ghost predicate StampsBounded(versions: seq<Issuer>) {
    forall i :: 0 <= i < |versions| ==>
      && UniqueTypes(versions[i].conditions)
      && (ReadyOf(versions[i]).Some? ==> ReadyOf(versions[i]).value.stamp <= versions[i].generation)
  }

  /** Generations, and the stamps of the Ready condition, never decrease. */
  ghost predicate StampsOrdered(versions: seq<Issuer>) {
    forall i, j {:trigger NotBefore(versions[i], versions[j])} ::
      0 <= i <= j < |versions| ==> NotBefore(versions[i], versions[j])
  }

  /** A later version: neither its generation nor its stamp is smaller. */
  ghost predicate NotBefore(a: Issuer, b: Issuer) {
    && a.generation <= b.generation
    && (ReadyOf(a).Some? ==> ReadyOf(b).Some? && ReadyOf(a).value.stamp <= ReadyOf(b).value.stamp)
  }

  ghost predicate Inv(s: State) {
    && |s.versions| > s.lastRead
    && StampsBounded(s.versions)
    && StampsOrdered(s.versions)
    && (ReadyOf(Latest(s)).Some? ==> ReadyOf(Latest(s)).value.stamp <= s.versions[s.lastRead].generation)
  }

  /** A reconcile stamps the Ready condition, and nothing else, with the generation it read. */
  lemma {:induction false} PatchIsStamped(s: State, step: Step)
    requires Inv(s) && Allowed(s, step) && step.Reconcile? && OutcomeOf(s, step).patch.Some?
    ensures var t := Next(s, step);
            && t.versions == s.versions + [Latest(t)]
            && Latest(t).generation == Latest(s).generation
            && UniqueTypes(Latest(t).conditions)
            && ReadyOf(Latest(t)) == Some(OutcomeOf(s, step).patch.value[0])
            && ReadyOf(Latest(t)).value.stamp == s.versions[step.index].generation
  {
    var p := OutcomeOf(s, step).patch.value;
    PlanWritesReady(s.versions[step.index], step);
    MergeIsKeyed(Latest(s).conditions, p, step.dropped, Ready);
  }

  lemma {:induction false} PlanWritesReady(read: Issuer, step: Step)
    requires step.Reconcile? && Plan(Inputs(Found(read), step.hook, step.check, step.now), step.reported).patch.Some?
    ensures var p := Plan(Inputs(Found(read), step.hook, step.check, step.now), step.reported).patch.value;
            |p| == 1 && p[0].ctype == Ready && p[0].stamp == read.generation
  {
  }

  /** Adding a version that is not before the latest, stamped at most with a generation read. */
  lemma {:induction false} NewVersion(s: State, t: State, next: Issuer)
    requires Inv(s) && t.versions == s.versions + [next] && s.lastRead <= t.lastRead < |s.versions|
    requires UniqueTypes(next.conditions) && NotBefore(Latest(s), next)
    requires ReadyOf(next).Some? ==> ReadyOf(next).value.stamp <= s.versions[t.lastRead].generation
    ensures Inv(t)
  {
    var n := |s.versions|;
    assert t.versions[n] == next && forall i :: 0 <= i < n ==> t.versions[i] == s.versions[i];
    assert NotBefore(s.versions[t.lastRead], Latest(s));
    forall i, j | 0 <= i <= j <= n ensures NotBefore(t.versions[i], t.versions[j]) {
      if i < n {
        assert NotBefore(s.versions[i], if j < n then s.versions[j] else Latest(s));
      }
    }
  }

  lemma {:induction false} InvStep(s: State, step: Step)
    requires Inv(s) && Allowed(s, step)
    ensures Inv(Next(s, step))
    ensures NotBefore(Latest(s), Latest(Next(s, step)))
  {
    var t := Next(s, step);
    if step.Edit? {
      NewVersion(s, t, step.issuer);
    } else if OutcomeOf(s, step).patch.Some? {
      PatchIsStamped(s, step);
      assert NotBefore(s.versions[s.lastRead], s.versions[step.index]);
      NewVersion(s, t, Latest(t));
    } else {
      assert NotBefore(s.versions[s.lastRead], s.versions[step.index]);
    }
  }

  /** With serial reconciles and reads that never go back, the generation stamped on the Ready condition
      never decreases and never exceeds the real one, whatever the edits, reports and answers. */
  lemma {:induction false} StampNeverDecreases(s: State, steps: seq<Step>, t: State)
    requires Inv(s) && Run(s, steps, t)
    ensures Inv(t)
    ensures NotBefore(Latest(s), Latest(t))
    ensures ReadyOf(Latest(t)).Some? ==> ReadyOf(Latest(t)).value.stamp <= Latest(t).generation
    decreases steps
  {
    if steps != [] {
      var u := Next(s, steps[0]);
      InvStep(s, steps[0]);
      StampNeverDecreases(u, steps[1..], t);
    }
  }

  lemma {:induction false} InitInv(s: State)
    requires Init(s)
    ensures Inv(s)
  {
  }

  /** The Ready condition tells the verdict on the error the reconcile looked at, the one Check returned
      or the report, and only an error that is neither permanent nor terminal is retried. */
  ghost predicate TellsVerdict(read: Issuer, step: Step, o: Outcome, ready: Condition)
    requires step.Reconcile?
  {
    var err := if o.calledCheck then step.check else step.reported;
    && (ready.status == Unknown <==> ReadyOf(read).None?)
    && (ready.status == Unknown ==> ready.reason == Initializing && !o.calledCheck && !ComesBack(false, o.error))
    && (ready.status != Unknown ==>
          && (ready.status == True <==> err.None?)
          && ready.reason == (if err.None? then Reason.Checked
                              else if PermanentErr in Kinds(err.value) then HasFailed else Pending)
          && (ComesBack(false, o.error) <==> err.Some? && Kinds(err.value) !! {PermanentErr, TerminalErr}))
  }

  lemma {:induction false} VerdictIsRecorded(s: State, step: Step)
    requires Inv(s) && Allowed(s, step) && step.Reconcile? && OutcomeOf(s, step).patch.Some?
    ensures var ready := ReadyOf(Latest(Next(s, step)));
            ready.Some? && TellsVerdict(s.versions[step.index], step, OutcomeOf(s, step), ready.value)
  {
    PatchIsStamped(s, step);
    PlanWritesReady(s.versions[step.index], step);
    PlanTellsVerdict(s.versions[step.index], step);
  }

  lemma {:induction false} PlanTellsVerdict(read: Issuer, step: Step)
    requires step.Reconcile? && Plan(Inputs(Found(read), step.hook, step.check, step.now), step.reported).patch.Some?
    ensures var o := Plan(Inputs(Found(read), step.hook, step.check, step.now), step.reported);
            o.patch.value != [] && TellsVerdict(read, step, o, o.patch.value[0])
  {
    var o := Plan(Inputs(Found(read), step.hook, step.check, step.now), step.reported);
    var err := if o.calledCheck then step.check else step.reported;
    if err.Some? {
      AsFindsKinds(err.value, PermanentErr);
      AsFindsKinds(err.value, TerminalErr);
    }
  }

  /*** Permanent failure ***/

  /** From version n on, the issuer is permanently failed with one Ready condition and generation. */
  ghost predicate FrozenSince(versions: seq<Issuer>, n: nat) {
    n < |versions| && forall k :: n <= k < |versions| ==>
      && IsFailed(versions[k])
      && versions[k].generation == versions[n].generation
      && ReadyOf(versions[k]) == ReadyOf(versions[n])
  }

  /** The version that the reconcile reads failed permanently, or a hook holds it back. */
  predicate HeldBack(s: State, step: Step)
    requires step.Reconcile? && step.index < |s.versions|
  {
    IsFailed(s.versions[step.index]) || step.hook.HookError? || step.hook == HookSays(true)
  }

  ghost predicate AllHeldBack(s: State, steps: seq<Step>)
    decreases steps
  {
    steps != [] ==>
      && s.versions != []
      && (steps[0].Reconcile? ==> steps[0].index < |s.versions| && HeldBack(s, steps[0]))
      && AllHeldBack(Next(s, steps[0]), steps[1..])
  }

  /** Once failed permanently at the current generation, and as long as the generation stays: a run of reports,
      edits and reconciles applies no patch exactly when every reconcile reads a failed version or is held back
      by a hook. Then Check is not called and the Ready condition stays. It is so whenever every reconcile reads
      a version from after the failure. */
  lemma {:induction false} PermanentFailureIsFrozen(s: State, n: nat, steps: seq<Step>, t: State)
    requires Inv(s) && FrozenSince(s.versions, n)
    requires Run(s, steps, t) && Inv(t) && Latest(t).generation == s.versions[n].generation
    ensures AllHeldBack(s, steps) <==> t.patches == s.patches
    ensures AllHeldBack(s, steps) ==>
              t.checks == s.checks && n < |t.versions| && s.versions[n] == t.versions[n] && FrozenSince(t.versions, n)
    ensures (forall k :: 0 <= k < |steps| && steps[k].Reconcile? ==> n <= steps[k].index) ==> AllHeldBack(s, steps)
    decreases steps
  {
    if steps != [] {
      var u := Next(s, steps[0]);
      InvStep(s, steps[0]);
      StampNeverDecreases(u, steps[1..], t);
      if steps[0].Reconcile? && !HeldBack(s, steps[0]) {
        LeftAloneExactly(s, steps[0]);
        PatchesGrow(u, steps[1..], t);
      } else {
        FrozenStep(s, n, steps[0]);
        PermanentFailureIsFrozen(u, n, steps[1..], t);
      }
    }
  }

  lemma {:induction false} PatchesGrow(s: State, steps: seq<Step>, t: State)
    requires Run(s, steps, t)
    ensures s.patches <= t.patches
    decreases steps
  {
    if steps != [] {
      PatchesGrow(Next(s, steps[0]), steps[1..], t);
    }
  }

  lemma {:induction false} FrozenStep(s: State, n: nat, step: Step)
    requires Inv(s) && FrozenSince(s.versions, n) && Allowed(s, step)
    requires step.Reconcile? ==> HeldBack(s, step)
    requires Latest(Next(s, step)).generation <= s.versions[n].generation
    ensures var u := Next(s, step);
            && u.checks == s.checks && u.patches == s.patches && s.versions <= u.versions
            && FrozenSince(u.versions, n)
  {
    if step.Edit? {
      var u := Next(s, step);
      assert forall k :: 0 <= k < |s.versions| ==> u.versions[k] == s.versions[k];
    }
  }

  /** Helper: a reconcile that reads the issuer is held back exactly when it neither calls Check nor patches. */
  lemma {:induction false} LeftAloneExactly(s: State, step: Step)
    requires step.Reconcile? && step.index < |s.versions|
    ensures HeldBack(s, step) ==> Next(s, step) == s.(lastRead := step.index)
    ensures !HeldBack(s, step) ==> Next(s, step).patches == s.patches + 1
  {
  }

  /** Helper. Conversely, a rise of the generation is all it takes: a permanently failed issuer that no hook
      keeps back is checked again exactly when its stamp is behind its generation, reports or not. */
  lemma {:induction false} RecheckedExactlyAfterGenerationRise(
    issuer: Issuer, reported: Option<Error>, hook: Hook, check: Option<Error>, now: Time)
    requires ReadyOf(issuer).Some? && ReadyOf(issuer).value.status == False && ReadyOf(issuer).value.reason == HasFailed
    requires hook == NoHook || hook == HookSays(false)
    ensures Plan(Inputs(Found(issuer), hook, check, now), reported).calledCheck
            <==> ReadyOf(issuer).value.stamp < issuer.generation
  {
  }

  /*** Transition time ***/

  function Lists(versions: seq<Issuer>): seq<seq<Condition>> {
    seq(|versions|, i requires 0 <= i < |versions| => versions[i].conditions)
  }

  ghost predicate Recorded(s: State) {
    History(Lists(s.versions), s.turns, Ready)
  }

  lemma {:induction false} RecordedVersion(s: State, next: Issuer, turn: Turn)
    requires s.versions != [] && Recorded(s) && UniqueTypes(next.conditions)
    requires ReadyOf(next)
             == if Written(turn, Ready).Some? then Get(BuildPatch(turn.now, Latest(s).conditions, turn.writes), Ready)
                else ReadyOf(Latest(s))
    ensures History(Lists(s.versions + [next]), s.turns + [turn], Ready)
  {
    assert Lists(s.versions + [next]) == Lists(s.versions) + [next.conditions];
    ExtendHistory(Lists(s.versions), s.turns, Ready, next.conditions, turn);
  }

  /** The version read gives the same transition time as the latest one, for the status that is written. */
  ghost predicate DatesAlike(s: State, step: Step)
    requires s.versions != [] && step.Reconcile? && step.index < |s.versions|
  {
    var p := OutcomeOf(s, step).patch;
    p.Some? && p.value != [] ==>
      TransitionTime(step.now, s.versions[step.index].conditions, Ready, p.value[0].status)
      == TransitionTime(step.now, Latest(s).conditions, Ready, p.value[0].status)
  }

  /** So it is when the version read has the same Ready condition as the latest one, for instance because only
      users changed the issuer in between. */
  lemma {:induction false} SameReadyDatesAlike(s: State, step: Step)
    requires Inv(s) && Allowed(s, step) && step.Reconcile? && ReadyOf(s.versions[step.index]) == ReadyOf(Latest(s))
    ensures DatesAlike(s, step)
  {
    var p := OutcomeOf(s, step).patch;
    if p.Some? && p.value != [] {
      TransitionTimeOfUnique(step.now, s.versions[step.index].conditions, Ready, p.value[0].status);
      TransitionTimeOfUnique(step.now, Latest(s).conditions, Ready, p.value[0].status);
    }
  }

  lemma {:induction false} RecordedPatch(s: State, step: Step)
    requires Inv(s) && Recorded(s) && Allowed(s, step)
    requires step.Reconcile? && OutcomeOf(s, step).patch.Some? && DatesAlike(s, step)
    ensures Recorded(Next(s, step))
  {
    var t := Next(s, step);
    var p := OutcomeOf(s, step).patch.value;
    PatchIsStamped(s, step);
    PlanIsOneWrite(s.versions[step.index], step);
    SingleWrite(step.now, Latest(s).conditions, WritesOf(p)[0]);
    RecordedVersion(s, Latest(t), Turn(step.now, WritesOf(p)));
  }

  lemma {:induction false} PlanIsOneWrite(read: Issuer, step: Step)
    requires step.Reconcile? && Plan(Inputs(Found(read), step.hook, step.check, step.now), step.reported).patch.Some?
    ensures var p := Plan(Inputs(Found(read), step.hook, step.check, step.now), step.reported).patch.value;
            && p == BuildPatch(step.now, read.conditions, WritesOf(p))
            && Written(Turn(step.now, WritesOf(p)), Ready).Some?
            && Get(p, Ready) == Some(p[0])
  {
    var p := Plan(Inputs(Found(read), step.hook, step.check, step.now), step.reported).patch.value;
    PlanWritesReady(read, step);
    SingleWrite(step.now, read.conditions, WritesOf(p)[0]);
  }

  lemma {:induction false} RecordedStep(s: State, step: Step)
    requires Inv(s) && Recorded(s) && Allowed(s, step)
    requires step.Reconcile? ==> DatesAlike(s, step)
    ensures Recorded(Next(s, step))
  {
    if step.Edit? {
      RecordedVersion(s, step.issuer, Turn(0, []));
    } else if OutcomeOf(s, step).patch.Some? {
      RecordedPatch(s, step);
    }
  }

  /** Every reconcile of the run dates as one of the latest version would. */
  ghost predicate RunDatesAlike(s: State, steps: seq<Step>)
    decreases steps
  {
    steps != [] ==>
      && s.versions != []
      && (steps[0].Reconcile? ==> steps[0].index < |s.versions| && DatesAlike(s, steps[0]))
      && RunDatesAlike(Next(s, steps[0]), steps[1..])
  }

  /** In every such run, the Ready condition dates from the first write of the latest unbroken run of equal
      statuses. */
  lemma {:induction false} ReadySinceIsExact(s: State, steps: seq<Step>, t: State)
    requires Init(s) && Run(s, steps, t) && RunDatesAlike(s, steps)
    ensures t.versions != [] && DatesFromRunStart(ReadyOf(Latest(t)), t.turns, Ready)
  {
    RecordedRun(s, steps, t);
    RecordedIsExact(t);
  }

  lemma {:induction false} RecordedIsExact(t: State)
    requires t.versions != [] && Recorded(t) && ReadyOf(t.versions[0]).None?
    ensures DatesFromRunStart(ReadyOf(Latest(t)), t.turns, Ready)
  {
    TransitionTimeIsExact(Lists(t.versions), t.turns, Ready);
  }

  lemma {:induction false} RecordedRun(s: State, steps: seq<Step>, t: State)
    requires Inv(s) && Recorded(s) && Run(s, steps, t) && RunDatesAlike(s, steps)
    ensures Inv(t) && Recorded(t) && t.versions[0] == s.versions[0]
    decreases steps
  {
    if steps != [] {
      InvStep(s, steps[0]);
      RecordedStep(s, steps[0]);
      RecordedRun(Next(s, steps[0]), steps[1..], t);
    }
  }

  /** The requirement is exact: the first reconcile that does not date alike leaves a Ready condition whose time
      is not that of the first write. */
  lemma {:induction false} DatedWellExactly(s: State, step: Step)
    requires Inv(s) && Recorded(s) && ReadyOf(s.versions[0]).None? && Allowed(s, step)
    requires step.Reconcile? && OutcomeOf(s, step).patch.Some?
    ensures var t := Next(s, step);
            DatesFromRunStart(ReadyOf(Latest(t)), t.turns, Ready) <==> DatesAlike(s, step)
  {
    var p := OutcomeOf(s, step).patch.value;
    var read := s.versions[step.index];
    PatchIsStamped(s, step);
    PlanIsOneWrite(read, step);
    SingleWrite(step.now, read.conditions, WritesOf(p)[0]);
    DatedExactly(Lists(s.versions), s.turns, Ready, Turn(step.now, WritesOf(p)), p[0]);
  }

  /*** Where older versions are read ***/

  lemma {:induction false} OneMore(s: State, steps: seq<Step>, u: State, step: Step)
    requires Run(s, steps, u) && u.versions != [] && Allowed(u, step)
    ensures Run(s, steps + [step], Next(u, step))
    decreases steps
  {
    var longer := steps + [step];
    if steps == [] {
      assert longer[1..] == [];
    } else {
      OneMore(Next(s, steps[0]), steps[1..], u, step);
      assert longer[1..] == steps[1..] + [step];
    }
  }

  /** A reconcile with no hook and no report that reads version `index`. */
  function Checking(index: nat, check: Option<Error>, now: Time): Step {
    Reconcile(index, None, NoHook, check, now, {})
  }

  /** What such a reconcile writes. */
  function Verdict(read: Issuer, check: Option<Error>): (Status, Reason) {
    if ReadyOf(read).None? then (Unknown, Initializing)
    else if check.None? then (True, Reason.Checked)
    else if As(check.value, PermanentErr).Some? then (False, HasFailed)
    else (False, Pending)
  }

  lemma {:induction false} CheckingWrites(u: State, index: nat, check: Option<Error>, now: Time)
    requires Inv(u) && u.lastRead <= index < |u.versions| && !IsFailed(u.versions[index])
    ensures var t, read := Next(u, Checking(index, check, now)), u.versions[index];
            && Inv(t) && u.versions <= t.versions && |t.versions| == |u.versions| + 1 && t.lastRead == index
            && t.checks == u.checks + (if ReadyOf(read).None? then 0 else 1)
            && Latest(t).generation == Latest(u).generation
            && ReadyOf(Latest(t)) == Some(NewCondition(now, read.conditions, Ready, Verdict(read, check).0,
                                                       Verdict(read, check).1, read.generation))
  {
    var step := Checking(index, check, now);
    InvStep(u, step);
    PatchIsStamped(u, step);
  }

  /** A read from before a permanent failure can undo it: for every issuer and permanent error there is a run in
      which the failed issuer is checked once more, and made ready, at the same generation. */
  lemma {:induction false} StaleReadUndoesFailure(s: State, e: Error, now: Time) returns (steps: seq<Step>, t: State)
    requires Init(s) && PermanentErr in Kinds(e)
    ensures Run(s, steps, t) && |t.versions| == 4
    ensures IsFailed(t.versions[2]) && t.versions[3].generation == t.versions[2].generation
    ensures ReadyOf(t.versions[3]).Some? && ReadyOf(t.versions[3]).value.status == True
    ensures t.checks == s.checks + 2
  {
    InitInv(s);
    AsFindsKinds(e, PermanentErr);
    var u, v;
    steps, u := OneCheck(s, [], s, 0, None, now);
    steps, v := OneCheck(s, steps, u, 1, Some(e), now);
    steps, t := OneCheck(s, steps, v, 1, None, now);
  }

  /** One more check, of version `index`. */
  lemma {:induction false} OneCheck(s: State, steps: seq<Step>, u: State, index: nat, check: Option<Error>, now: Time)
    returns (longer: seq<Step>, t: State)
    requires Run(s, steps, u) && Inv(u) && u.lastRead <= index < |u.versions| && !IsFailed(u.versions[index])
    ensures Run(s, longer, t) && Inv(t) && u.versions <= t.versions && |t.versions| == |u.versions| + 1
    ensures t.lastRead == index && t.checks == u.checks + if ReadyOf(u.versions[index]).None? then 0 else 1
    ensures Latest(t).generation == Latest(u).generation && ReadyOf(Latest(t)).Some?
    ensures var ready := ReadyOf(Latest(t)).value;
            && (ready.status, ready.reason) == Verdict(u.versions[index], check)
            && ready.stamp == u.versions[index].generation
  {
    var step := Checking(index, check, now);
    CheckingWrites(u, index, check, now);
    OneMore(s, steps, u, step);
    longer, t := steps + [step], Next(u, step);
  }

  /** The states of the run below: initialised, ready, and not ready, each from a read of the latest version. */
  lemma {:induction false} ReadyThenPending(
    s: State, e: Error, first: Time, second: Time) returns (steps: seq<Step>, t: State)
    requires Init(s) && PermanentErr !in Kinds(e)
    ensures Run(s, steps, t) && Inv(t) && Recorded(t) && |t.versions| == 4 && t.lastRead == 2
    ensures ReadyOf(t.versions[0]).None? && !IsFailed(t.versions[2])
    ensures ReadyOf(t.versions[2]).Some? && ReadyOf(t.versions[2]).value.status == True
    ensures ReadyOf(t.versions[2]).value.lastTransition == Some(first)
    ensures ReadyOf(t.versions[3]).Some? && ReadyOf(t.versions[3]).value.status == False
  {
    AsFindsKinds(e, PermanentErr);
    var u;
    steps, u := ReadyOnce(s, first);
    steps, t := FreshCheck(s, steps, u, Some(e), second);
  }

  lemma {:induction false} ReadyOnce(s: State, now: Time) returns (steps: seq<Step>, t: State)
    requires Init(s)
    ensures Run(s, steps, t) && Inv(t) && Recorded(t) && |t.versions| == 3 && ReadyOf(t.versions[0]).None?
    ensures ReadyOf(t.versions[2]).Some? && ReadyOf(t.versions[2]).value.status == True
    ensures ReadyOf(t.versions[2]).value.lastTransition == Some(now)
  {
    InitInv(s);
    var u;
    steps, u := FreshCheck(s, [], s, None, now);
    steps, t := FreshCheck(s, steps, u, None, now);
  }

  /** One more check, of the latest version. */
  lemma {:induction false} FreshCheck(s: State, steps: seq<Step>, u: State, check: Option<Error>, now: Time)
    returns (longer: seq<Step>, t: State)
    requires Run(s, steps, u) && Inv(u) && Recorded(u) && !IsFailed(Latest(u))
    ensures Run(s, longer, t) && Inv(t) && Recorded(t) && u.versions <= t.versions && |t.versions| == |u.versions| + 1
    ensures t.lastRead == |u.versions| - 1
    ensures ReadyOf(Latest(t)).Some?
    ensures var before, after, verdict := ReadyOf(Latest(u)), ReadyOf(Latest(t)).value, Verdict(Latest(u), check);
            && (after.status, after.reason) == verdict
            && after.lastTransition
               == if before.Some? && before.value.status == verdict.0 then before.value.lastTransition else Some(now)
  {
    var step := Checking(|u.versions| - 1, check, now);
    TransitionTimeOfUnique(now, Latest(u).conditions, Ready, Verdict(Latest(u), check).0);
    CheckingWrites(u, |u.versions| - 1, check, now);
    OneMore(s, steps, u, step);
    RecordedStep(u, step);
    longer, t := steps + [step], Next(u, step);
  }

  /** A read of an older Ready condition can misdate the new one: for every issuer there is a run that makes it
      ready for the second time and gives the condition the date of the first time. */
  lemma {:induction false} StaleReadMisdates(s: State, e: Error, first: Time, second: Time, third: Time)
    returns (steps: seq<Step>, t: State)
    requires Init(s) && PermanentErr !in Kinds(e) && first != third
    ensures Run(s, steps, t) && t.versions != [] && ReadyOf(Latest(t)).Some?
    ensures ReadyOf(Latest(t)).value.lastTransition == Some(first)
    ensures !DatesFromRunStart(ReadyOf(Latest(t)), t.turns, Ready)
  {
    var u;
    steps, u := ReadyThenPending(s, e, first, second);
    var again := Checking(2, None, third);
    TransitionTimeOfUnique(third, u.versions[2].conditions, Ready, True);
    TransitionTimeOfUnique(third, u.versions[3].conditions, Ready, True);
    CheckingWrites(u, 2, None, third);
    DatedWellExactly(u, again);
    OneMore(s, steps, u, again);
    steps, t := steps + [again], Next(u, again);
  }
}
