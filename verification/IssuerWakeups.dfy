/** One issuer with everything that can wake its own reconciler: the cache, watch events filtered by the issuer
    predicate, reports, the work queue and retries, interleaved freely with edits by users. The cache may lag
    behind the stored versions, this controller's own last patch included.

    Assumed of the environment: users do not write the Ready condition, and an issuer is created without one;
    generations of an existing issuer do not decrease; and every stored version gives one watch event.
 */
module IssuerWakeups {
  import opened Conditions
  import opened ControllerRuntime
  import opened ErrorOutcomes
  import opened IssuerController
  import opened Predicates
  import opened Reports
  import opened Requests
  import opened Requirements
  import opened ServerSideApply
  import opened SignerErrors

  datatype Stage = Idle | Started | HasRead | Acted

  /** A reconcile as it happened; `made` says whether its patch made a new version, and `stale` whether it read a
      version from before this controller's own last patch. */
  datatype Act = Act(
    inputs: Inputs, reported: Option<Error>, outcome: Outcome, lost: bool, dropped: set<ConditionType>,
    made: bool, stale: bool)

  datatype State = State(
    log: seq<Option<Issuer>>,        // the stored versions; None while the issuer does not exist
    own: nat,                        // the version made by this controller's last patch, or 0
    cached: nat,                     // how many versions the cache has seen
    handled: nat,                    // how many of them were handled as watch events
    dirty: bool,                     // the issuer waits in the queue, or will when its worker is done
    retry: bool,                     // a delayed retry is due
    stage: Stage,
    seen: nat,                       // `cached` when the worker read the issuer
    act: Option<Act>)                // the last reconcile, once it has acted

  datatype Step =
    | Edit(issuer: Option<Issuer>)
    | Cache
    | Handle
    | ReportArrives
    | Begin
    | ReadIssuer
    | DoAct(inputs: Inputs, reported: Option<Error>, lost: bool, dropped: set<ConditionType>)
    | End
    | Retry

  function ReadyOf(issuer: Issuer): Option<Condition> {
    Get(issuer.conditions, Ready)
  }

  function Last(s: State): Option<Issuer>
    requires s.log != []
  {
    s.log[|s.log| - 1]
  }

  /** Creation and deletion wake the reconciler, and so does an update that passes. */
  predicate EventWakes(a: Option<Issuer>, b: Option<Issuer>) {
    if a.None? || b.None? then a.Some? || b.Some? else IssuerUpdate(a, b)
  }

  predicate Wakes(log: seq<Option<Issuer>>, j: nat)
    requires j < |log|
  {
    j == 0 || EventWakes(log[j - 1], log[j])
  }

  /** What users may do to an issuer. */
  ghost predicate UserEdit(a: Option<Issuer>, b: Option<Issuer>) {
    b.Some? ==>
      && UniqueTypes(b.value.conditions)
      && if a.None? then ReadyOf(b.value).None?
         else ReadyOf(b.value) == ReadyOf(a.value) && a.value.generation <= b.value.generation
  }

  ghost predicate Init(s: State) {
    && |s.log| == 1 && UserEdit(None, s.log[0])
    && s.own == 0 && s.cached == 0 && s.handled == 0
    && !s.dirty && !s.retry && s.stage == Idle && s.act.None?
  }

  ghost predicate Shape(s: State) {
    s.log != [] && s.own < |s.log| && s.handled <= s.cached <= |s.log| && s.seen <= s.cached
  }

  /** A read of the cache may fail; otherwise it shows the cached version. */
  ghost predicate ReadsCache(s: State, i: Inputs)
    requires s.seen <= |s.log|
  {
    || i.issuer.ReadError?
    || i.issuer == if s.seen == 0 || s.log[s.seen - 1].None? then NotFound else Found(s.log[s.seen - 1].value)
  }

  predicate Stale(s: State) {
    s.own > 0 && s.seen <= s.own
  }

  /** controller-runtime will retry this reconcile by itself. */
  predicate Returns(a: Act) {
    ComesBack(false, Finish(a.outcome, if a.lost then Rejected else Accepted))
  }

  ghost predicate Allowed(s: State, step: Step)
    requires Shape(s)
  {
    match step
    case Edit(issuer) => UserEdit(Last(s), issuer)
    case Cache => s.cached < |s.log|
    case Handle => s.handled < s.cached
    case ReportArrives => true
    case Begin => s.dirty && s.stage == Idle
    case ReadIssuer => s.stage == Started
    case DoAct(i, _, _, _) => s.stage == HasRead && ReadsCache(s, i)
    case End => s.stage == Acted && s.act.Some?
    case Retry => s.retry
  }

  /** The version that a patch makes of the latest one. */
  function PatchedVersion(s: State, patch: seq<Condition>, dropped: set<ConditionType>): Option<Issuer>
    requires s.log != []
  {
    if Last(s).None? then None else Some(Updated(Last(s).value, patch, dropped))
  }

  ghost function ActOf(s: State, step: Step): Act
    requires s.log != [] && step.DoAct?
  {
    var o := Plan(step.inputs, step.reported);
    Act(step.inputs, step.reported, o, step.lost, step.dropped,
        o.patch.Some? && !step.lost && Last(s).Some?, Stale(s))
  }

  ghost function Next(s: State, step: Step): State
    requires Shape(s) && Allowed(s, step)
  {
    match step
    case Edit(issuer) => s.(log := s.log + [issuer])
    case Cache => s.(cached := s.cached + 1)
    case Handle => s.(handled := s.handled + 1, dirty := s.dirty || Wakes(s.log, s.handled))
    case ReportArrives => s.(dirty := true)
    case Begin => s.(dirty := false, stage := Started, act := None)
    case ReadIssuer => s.(seen := s.cached, stage := HasRead)
    case DoAct(_, _, _, d) =>
      var a := ActOf(s, step);
      var s1 := s.(stage := Acted, act := Some(a));
      if !a.made then s1
      else s1.(log := s.log + [PatchedVersion(s, a.outcome.patch.value, d)], own := |s.log|)
    case End => s.(stage := Idle, retry := s.retry || Returns(s.act.value))
    case Retry => s.(retry := false, dirty := true)
  }

  ghost predicate Run(s: State, steps: seq<Step>, t: State)
    decreases steps
  {
    && Shape(s)
    && if steps == [] then s == t
       else Allowed(s, steps[0]) && Run(Next(s, steps[0]), steps[1..], t)
  }

  /*** The invariant ***/

  ghost predicate Edited(log: seq<Option<Issuer>>, k: int)
    requires 0 < k < |log|
  {
    UserEdit(log[k - 1], log[k])
  }

  ghost predicate EditsOnly(log: seq<Option<Issuer>>, i: int, j: int) {
    0 <= i <= j < |log| && forall k :: i < k <= j ==> Edited(log, k)
  }

  /** Since the worker read the issuer, nothing was handled that would have woken it, or it is dirty. */
  ghost predicate Watched(s: State)
    requires Shape(s)
  {
    s.dirty || forall j: nat :: s.seen <= j < s.handled ==> !Wakes(s.log, j)
  }

  /** Version m was made from version m - 1 by the given patch, between edits by users since version i. */
  ghost predicate PatchedChain(
    log: seq<Option<Issuer>>, i: int, m: int, patch: seq<Condition>, dropped: set<ConditionType>) {
    && 0 <= i < m < |log|
    && EditsOnly(log, i, m - 1)
    && log[m - 1].Some? && log[m] == Some(Updated(log[m - 1].value, patch, dropped))
    && EditsOnly(log, m, |log| - 1)
  }

  ghost predicate ActInv(s: State, a: Act)
    requires Shape(s)
  {
    && a.outcome == Plan(a.inputs, a.reported)
    && ReadsCache(s, a.inputs)
    && (a.made ==> a.outcome.patch.Some? && !a.lost)
    && (!a.stale && a.made ==>
          s.seen > 0 && PatchedChain(s.log, s.seen - 1, s.own, a.outcome.patch.value, a.dropped))
    && (!a.stale && !a.made ==> s.own < s.seen || s.own == 0)
    && (a.outcome.patch.Some? && !a.lost && !a.made ==> WasGone(s, a))
  }

  /** The patch found no issuer any more: some version since the one read is missing. */
  ghost predicate WasGone(s: State, a: Act)
    requires Shape(s)
  {
    exists k :: s.seen <= k < |s.log| && s.log[k].None?
  }

  ghost predicate Inv(s: State) {
    && Shape(s)
    && EditsOnly(s.log, s.own, |s.log| - 1)
    && (s.stage.Idle? && s.act.None? ==> s.dirty || s.handled == 0)
    && (s.stage.Started? ==> s.act.None?)
    && (s.stage.HasRead? ==> s.act.None? && Watched(s))
    && (s.stage.Acted? ==> s.act.Some?)
    && (s.act.Some? ==> Watched(s) && ActInv(s, s.act.value))
    && (s.stage.Idle? && s.act.Some? && Returns(s.act.value) ==> s.retry || s.dirty)
  }

  /*** Preservation ***/

  lemma {:induction false} EditsStay(log: seq<Option<Issuer>>, longer: seq<Option<Issuer>>, i: int, j: int)
    requires EditsOnly(log, i, j) && log <= longer
    ensures EditsOnly(longer, i, j)
  {
    forall k | i < k <= j ensures Edited(longer, k) {
      assert Edited(log, k);
    }
  }

  lemma {:induction false} WatchGrows(s: State, t: State)
    requires Shape(s) && Shape(t) && s.log <= t.log
    requires t.seen == s.seen && t.handled == s.handled && t.dirty == s.dirty && Watched(s)
    ensures Watched(t)
  {
    assert forall j: nat :: j < |s.log| ==> Wakes(t.log, j) == Wakes(s.log, j);
  }

  lemma {:induction false} ChainGrows(
    log: seq<Option<Issuer>>, i: int, m: int, p: seq<Condition>, d: set<ConditionType>, issuer: Option<Issuer>)
    requires PatchedChain(log, i, m, p, d) && UserEdit(log[|log| - 1], issuer)
    ensures PatchedChain(log + [issuer], i, m, p, d)
  {
    var longer := log + [issuer];
    EditsStay(log, longer, i, m - 1);
    EditsStay(log, longer, m, |log| - 1);
    assert Edited(longer, |log|);
  }

  lemma {:induction false} ActStays(s: State, t: State, a: Act, issuer: Option<Issuer>)
    requires Shape(s) && Shape(t) && ActInv(s, a) && UserEdit(Last(s), issuer)
    requires t == s.(log := s.log + [issuer])
    ensures ActInv(t, a)
  {
    assert forall k :: 0 <= k < |s.log| ==> t.log[k] == s.log[k];
    if !a.stale && a.made {
      ChainGrows(s.log, s.seen - 1, s.own, a.outcome.patch.value, a.dropped, issuer);
    }
    if a.outcome.patch.Some? && !a.lost && !a.made {
      var k :| s.seen <= k < |s.log| && s.log[k].None?;
      assert t.log[k].None?;
    }
  }

  lemma {:induction false} EditStep(s: State, issuer: Option<Issuer>)
    requires Inv(s) && UserEdit(Last(s), issuer)
    ensures Inv(Next(s, Edit(issuer)))
  {
    var t := Next(s, Edit(issuer));
    EditsStay(s.log, t.log, s.own, |s.log| - 1);
    assert Edited(t.log, |s.log|);
    if s.act.Some? {
      ActStays(s, t, s.act.value, issuer);
    }
    if Watched(s) {
      WatchGrows(s, t);
    }
  }

  /** The act of a step, in the state after it. */
  lemma {:induction false} ActHolds(s: State, step: Step, t: State)
    requires Inv(s) && Allowed(s, step) && step.DoAct? && t == Next(s, step)
    ensures Shape(t) && ActInv(t, ActOf(s, step)) && EditsOnly(t.log, t.own, |t.log| - 1)
  {
    var a := ActOf(s, step);
    PatchNeedsIssuer(step.inputs, step.reported);
    if a.made {
      MadeVersion(s, t, a);
    } else if a.outcome.patch.Some? && !a.lost {
      assert t.log[|s.log| - 1].None?;
    }
  }

  lemma {:induction false} PatchNeedsIssuer(i: Inputs, reported: Option<Error>)
    ensures Plan(i, reported).patch.Some? ==> i.issuer.Found?
  {
  }

  lemma {:induction false} MadeVersion(s: State, t: State, a: Act)
    requires Inv(s) && s.seen > 0 && a.outcome.patch.Some? && Last(s).Some?
    requires t.log == s.log + [PatchedVersion(s, a.outcome.patch.value, a.dropped)] && t.own == |s.log|
    ensures EditsOnly(t.log, t.own, |t.log| - 1)
    ensures !Stale(s) ==> PatchedChain(t.log, s.seen - 1, t.own, a.outcome.patch.value, a.dropped)
  {
    assert forall k :: 0 <= k < |s.log| ==> t.log[k] == s.log[k];
    EditsStay(s.log, t.log, s.own, |s.log| - 1);
  }

  lemma {:induction false} ActStep(s: State, step: Step)
    requires Inv(s) && Allowed(s, step) && step.DoAct?
    ensures Inv(Next(s, step))
  {
    var t := Next(s, step);
    ActHolds(s, step, t);
    WatchGrows(s, t);
  }

  lemma {:induction false} HandleStep(s: State)
    requires Inv(s) && s.handled < s.cached
    ensures Inv(Next(s, Handle))
  {
    assert s.handled == 0 ==> Next(s, Handle).dirty;
  }

  lemma {:induction false} InvStep(s: State, step: Step)
    requires Inv(s) && Allowed(s, step)
    ensures Inv(Next(s, step))
  {
    match step
    case Edit(issuer) => EditStep(s, issuer);
    case Handle => HandleStep(s);
    case DoAct(_, _, _, _) => ActStep(s, step);
    case Cache =>
    case ReportArrives =>
    case Begin =>
    case ReadIssuer =>
    case End =>
    case Retry =>
  }

  lemma {:induction false} InvRun(s: State, steps: seq<Step>, t: State)
    requires Inv(s) && Run(s, steps, t)
    ensures Inv(t)
    decreases steps
  {
    if steps != [] {
      InvStep(s, steps[0]);
      InvRun(Next(s, steps[0]), steps[1..], t);
    }
  }

  /*** The theorem ***/

  ghost predicate Asleep(s: State) {
    s.stage.Idle? && !s.dirty && !s.retry
  }

  ghost predicate NothingComing(s: State)
    requires Shape(s)
  {
    forall j: nat :: s.handled <= j < |s.log| ==> !Wakes(s.log, j)
  }

  /** The issuer does not exist, or its Ready condition holds the verdict for its generation: True, or failed for
      good. */
  ghost predicate AtRest(issuer: Option<Issuer>) {
    issuer.Some? ==>
      || IsFailed(issuer.value)
      || (ReadyOf(issuer.value).Some? && ReadyOf(issuer.value).value.status == True
          && ReadyOf(issuer.value).value.stamp >= issuer.value.generation)
  }

  /** The error a reconcile looks at: the report if it is used, and that of Check otherwise. */
  function LooksAt(i: Inputs, reported: Option<Error>): Option<Error> {
    if reported.Some? && UsesReport(i) then reported else i.check
  }

  /** The reconcile looks at an error that is permanent or contains a terminal error: what it returns is terminal. */
  ghost predicate StopsRetries(i: Inputs, reported: Option<Error>) {
    && i.issuer.Found? && ReadyOf(i.issuer.value).Some? && LooksAt(i, reported).Some?
    && !(Kinds(LooksAt(i, reported).value) !! {PermanentErr, TerminalErr})
  }

  /** The reconciles after which the issuer may sleep without a verdict for its generation. */
  ghost predicate Excused(a: Act) {
    || a.stale                                    // it read a version from before this controller's own last patch
    || a.outcome.exit.Ignored?                    // the hook asked for it
    || ((a.lost || a.outcome.exit.WillRetry?)     // a terminal error hides that the patch was lost,
        && StopsRetries(a.inputs, a.reported))    // or is contained in an error to retry
  }

  /** No event from version i to version j wakes the reconciler. */
  ghost predicate Silent(log: seq<Option<Issuer>>, i: int, j: int)
    requires 0 <= i <= j < |log|
  {
    forall k: nat :: i < k <= j ==> !Wakes(log, k)
  }

  /** What a silent chain of edits by users keeps. */
  lemma {:induction false} SilentEdits(log: seq<Option<Issuer>>, i: int, j: int)
    requires EditsOnly(log, i, j) && Silent(log, i, j)
    ensures log[i].Some? <==> log[j].Some?
    ensures log[i].Some? ==>
              log[j].value.generation == log[i].value.generation && ReadyOf(log[j].value) == ReadyOf(log[i].value)
    decreases j
  {
    if i < j {
      SilentEdits(log, i, j - 1);
      assert Edited(log, j) && !Wakes(log, j);
    }
  }

  /** A silent chain has an issuer throughout, or not at all. */
  lemma {:induction false} SilentPresence(log: seq<Option<Issuer>>, i: int, j: int, k: int)
    requires 0 <= i <= k <= j < |log| && Silent(log, i, j)
    ensures log[i].Some? <==> log[k].Some?
    decreases k
  {
    if i < k {
      SilentPresence(log, i, j, k - 1);
      assert !Wakes(log, k);
    }
  }

  /** Nothing woke the issuer since it was read, and nothing will. */
  lemma {:induction false} ChainIsSilent(s: State)
    requires Inv(s) && Asleep(s) && NothingComing(s)
    ensures s.act.Some? && s.seen > 0 && Silent(s.log, s.seen - 1, |s.log| - 1)
  {
    assert Wakes(s.log, 0);
    assert s.handled > 0;
    assert s.seen > 0;
  }

  /** No wake-up of an issuer is lost: in every interleaving, an issuer that sleeps with no wake-up under way does
      not exist or has the verdict for its generation, unless its last reconcile is one of the excused ones. */
  lemma {:induction false} NoLostWakeup(s: State, steps: seq<Step>, t: State)
    requires Init(s) && Run(s, steps, t)
    requires Shape(t) && Asleep(t) && NothingComing(t)
    ensures AtRest(Last(t)) || (t.act.Some? && Excused(t.act.value))
  {
    InvRun(s, steps, t);
    ChainIsSilent(t);
    if !Excused(t.act.value) {
      SleepIsRest(t, t.act.value);
    }
  }

  lemma {:induction false} SleepIsRest(t: State, a: Act)
    requires Inv(t) && Asleep(t) && t.act == Some(a) && t.seen > 0 && Silent(t.log, t.seen - 1, |t.log| - 1)
    requires !Excused(a)
    ensures AtRest(Last(t))
  {
    QuietEnds(a);
    if a.outcome.patch.None? {
      NoPatchIsRest(t, a);
    } else {
      PatchIsRest(t, a);
    }
  }

  /** The ends of a reconcile that controller-runtime does not retry, the excused ones aside. */
  lemma {:induction false} QuietEnds(a: Act)
    requires a.outcome == Plan(a.inputs, a.reported) && !Returns(a) && !Excused(a)
    ensures a.outcome.patch.None? ==> a.outcome.exit.Gone? || a.outcome.exit.PermanentlyFailed?
    ensures a.outcome.patch.Some? ==>
              !a.lost && (a.outcome.exit.Initialised? || a.outcome.exit.Checked? || a.outcome.exit.FailedForGood?)
  {
    TerminalExactly(a.inputs, a.reported);
    AggregateIsTerminalExactly(a.outcome.error);
  }

  /** A patch that is lost is retried exactly unless the reconcile looks at an error that stops retries. */
  lemma {:induction false} LostPatchIsRetriedExactly(i: Inputs, reported: Option<Error>, applied: Applied)
    requires Plan(i, reported).patch.Some? && (applied == NotEncoded || applied == Rejected)
    ensures ComesBack(false, Finish(Plan(i, reported), applied)) <==> !StopsRetries(i, reported)
  {
    TerminalExactly(i, reported);
    AggregateIsTerminalExactly(Plan(i, reported).error);
  }

  /** A reconcile whose patch is not lost is repeated exactly when it cannot read the issuer, or it finds one that
      has not failed for its generation, and the hook fails, or lets it through to an error, of Check or reported,
      that contains neither a permanent nor a terminal error. */
  lemma {:induction false} RepeatedExactly(i: Inputs, reported: Option<Error>)
    ensures ComesBack(false, Plan(i, reported).error)
            <==> || i.issuer.ReadError?
                 || (i.issuer.Found? && !HasFailedForItsGeneration(i.issuer.value)
                     && (|| i.hook.HookError?
                         || (i.hook != HookSays(true)
                             && (exists c :: c in i.issuer.value.conditions && c.ctype == Ready)
                             && LooksAt(i, reported).Some?
                             && Kinds(LooksAt(i, reported).value) !! {PermanentErr, TerminalErr})))
  {
    if i.issuer.Found? {
      FailedExactly(i.issuer.value);
    }
    RepeatedAtHand(i, reported);
  }

  lemma {:induction false} RepeatedAtHand(i: Inputs, reported: Option<Error>)
    ensures ComesBack(false, Plan(i, reported).error)
            <==> || i.issuer.ReadError?
                 || (i.issuer.Found? && !IsFailed(i.issuer.value)
                     && (|| i.hook.HookError?
                         || (i.hook != HookSays(true) && ReadyOf(i.issuer.value).Some? && LooksAt(i, reported).Some?
                             && Kinds(LooksAt(i, reported).value) !! {PermanentErr, TerminalErr})))
  {
    TerminalExactly(i, reported);
  }

  lemma {:induction false} TerminalExactly(i: Inputs, reported: Option<Error>)
    ensures var o := Plan(i, reported);
            && !o.error.Aggregate?
            && (o.error.TerminalError? <==> o.patch.Some? && StopsRetries(i, reported))
  {
    var err := LooksAt(i, reported);
    if err.Some? {
      AsFindsKinds(err.value, PermanentErr);
      AsFindsKinds(err.value, TerminalErr);
    }
  }

  lemma {:induction false} NoPatchIsRest(t: State, a: Act)
    requires Inv(t) && t.act == Some(a) && t.seen > 0 && Silent(t.log, t.seen - 1, |t.log| - 1) && !a.stale
    requires a.outcome.patch.None? && (a.outcome.exit.Gone? || a.outcome.exit.PermanentlyFailed?)
    ensures AtRest(Last(t))
  {
    assert EditsOnly(t.log, t.seen - 1, |t.log| - 1);
    SilentEdits(t.log, t.seen - 1, |t.log| - 1);
  }

  lemma {:induction false} PatchIsRest(t: State, a: Act)
    requires Inv(t) && t.act == Some(a) && t.seen > 0 && Silent(t.log, t.seen - 1, |t.log| - 1) && !a.stale
    requires a.outcome.patch.Some? && !a.lost
    requires a.outcome.exit.Initialised? || a.outcome.exit.Checked? || a.outcome.exit.FailedForGood?
    ensures AtRest(Last(t))
  {
    PatchNeedsIssuer(a.inputs, a.reported);
    PatchWasMade(t, a);
    MadeIsRest(t.log, t.seen - 1, t.own, a.inputs, a.reported, a.dropped);
  }

  /** In silence the issuer was not gone when the patch came. */
  lemma {:induction false} PatchWasMade(t: State, a: Act)
    requires Shape(t) && ActInv(t, a) && t.seen > 0 && Silent(t.log, t.seen - 1, |t.log| - 1)
    requires a.outcome.patch.Some? && !a.lost && a.inputs.issuer.Found?
    ensures a.made
  {
    if !a.made {
      var j :| t.seen <= j < |t.log| && t.log[j].None?;
      SilentPresence(t.log, t.seen - 1, |t.log| - 1, j);
    }
  }

  lemma {:induction false} MadeIsRest(
    log: seq<Option<Issuer>>, k: int, m: int, i: Inputs, reported: Option<Error>, dropped: set<ConditionType>)
    requires 0 <= k < |log| && log[k].Some? && i.issuer == Found(log[k].value) && Plan(i, reported).patch.Some?
    requires PatchedChain(log, k, m, Plan(i, reported).patch.value, dropped) && Silent(log, k, |log| - 1)
    requires var exit := Plan(i, reported).exit; exit.Initialised? || exit.Checked? || exit.FailedForGood?
    ensures AtRest(log[|log| - 1])
  {
    SilentEdits(log, k, m - 1);
    SilentEdits(log, m, |log| - 1);
    PlanWrites(i, reported, log[k].value);
    MergeIsKeyed(log[m - 1].value.conditions, Plan(i, reported).patch.value, dropped, Ready);
    assert !Wakes(log, m);
  }

  lemma {:induction false} PlanWrites(i: Inputs, reported: Option<Error>, read: Issuer)
    requires i.issuer == Found(read) && Plan(i, reported).patch.Some?
    ensures var o := Plan(i, reported);
            && |o.patch.value| == 1 && o.patch.value[0].stamp == read.generation
            && Get(o.patch.value, Ready) == Some(o.patch.value[0])
            && (o.exit.Initialised? <==> ReadyOf(read).None?)
            && (o.exit.Checked? ==> o.patch.value[0].status == True)
            && (o.exit.FailedForGood? ==> o.patch.value[0].status == False && o.patch.value[0].reason == HasFailed)
  {
    var p := Plan(i, reported).patch.value;
    assert p == [p[0]] && p[0].ctype == Ready;
  }
}
