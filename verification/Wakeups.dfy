/** One request and its issuer with everything that can wake the request: the cache, watch events
    filtered by the predicates, the work queue and retries. All of it interleaves freely with edits by
    others, and the cache may lag behind the stored versions and run ahead of the handled events.

    The cache may even lag behind this controller's own last patch, and the list call of an issuer event may
    fail.

    Assumed of the environment: others do not touch the fields the controller keeps the lifecycle in;
    generations of an existing issuer do not decrease; the request is not deleted; and every stored
    version gives one watch event.
 */
module Wakeups {
  import opened Conditions
  import opened ControllerRuntime
  import opened ErrorOutcomes
  import opened IssuerTypes
  import opened Lifecycle
  import opened Patches
  import opened Predicates
  import opened Reports
  import opened RequestController
  import opened RequestRuns
  import opened Requests
  import opened Resting
  import opened SignerErrors
  import opened SkippedRequeue
  import IssuerController
  import ServerSideApply

  datatype Stage = Idle | Started | HasRequest | HasIssuer | Acted

  /** A reconcile as it happened: what it saw, what it decided, whether its patch was lost, and whether
      it read a version from before this controller's own last patch. */
  datatype Act = Act(inputs: Inputs, outcome: Outcome, lost: bool, dropped: Dropped, stale: bool)

  datatype State = State(
    log: seq<Request>,               // the stored versions of the request
    own: nat,                        // the version made by this controller's last patch, or 0
    cached: nat,                     // how many versions of the request the cache has seen
    handled: nat,                    // how many of them were handled as watch events
    issuers: seq<Option<Issuer>>,    // the stored versions of the issuer; None while it does not exist
    issuerCached: nat,               // the version of the issuer in the cache
    issuerHandled: nat,              // the version of the issuer handled last as a watch event
    dirty: bool,                     // the request waits in the queue, or will when its worker is done
    retry: bool,                     // a delayed retry is due
    stage: Stage,
    seen: nat,                       // `cached` when the worker read the request
    issuerSeen: nat,                 // `issuerCached` when the worker read the issuer
    missed: bool,                    // since then, a list call failed that would have found the request
    act: Option<Act>)                // the last reconcile, once it has acted

  datatype Step =
    | EditRequest(request: Request)
    | EditIssuer(issuer: Option<Issuer>)
    | CacheRequest
    | CacheIssuer
    | HandleRequest
    | HandleIssuer(listed: bool)
    | Begin
    | ReadRequest
    | ReadIssuer
    | DoAct(inputs: Inputs, lost: bool, dropped: Dropped)
    | End
    | Retry

  /** The issuer types, and what a reconcile decides. The invariant needs only SoundPatches of it; the
      theorem takes the decisions of RequestController.Plan. */
  datatype Config = Config(types: seq<IssuerType>, plan: Inputs -> Outcome)

  /** Patches are made only for a request that was read, and hold no type twice. */
  ghost predicate SoundPatches(c: Config) {
    forall i :: c.plan(i).patch.Some? ==> i.request.Found? && UniqueTypes(c.plan(i).patch.value.conditions)
  }

  /** Handling the event of version j (counted from 0) wakes the request: it was created, or the update
      passes. */
  predicate Wakes(log: seq<Request>, j: nat)
    requires j < |log|
  {
    j == 0 || Passes(log, j)
  }

  function Last(s: State): Request
    requires s.log != []
  {
    s.log[|s.log| - 1]
  }

  /** The request refers to the issuer of this model, so the index finds it once it is cached. */
  predicate IsLinked(c: Config, s: State) {
    s.log != [] && MatchIssuerType(c.types, s.log[0]).Some?
  }

  ghost predicate Init(s: State) {
    && |s.log| == 1 && UniqueTypes(s.log[0].status.conditions)
    && s.own == 0 && s.cached == 0 && s.handled == 0
    && |s.issuers| == 1 && s.issuerCached == 0 && s.issuerHandled == 0
    && !s.dirty && !s.retry && !s.missed && s.stage == Idle && s.act.None?
  }

  /** A read of the cache may fail; otherwise it shows the cached version. */
  ghost predicate ReadsCache(s: State, i: Inputs)
    requires s.seen <= |s.log| && s.issuerSeen < |s.issuers|
  {
    && (i.request.ReadError? || i.request == if s.seen == 0 then NotFound else Found(s.log[s.seen - 1]))
    && (i.issuer.ReadError? || i.issuer == ReadOf(s.issuers[s.issuerSeen]))
  }

  ghost predicate Shape(s: State) {
    && s.log != [] && s.own < |s.log|
    && s.handled <= s.cached <= |s.log|
    && s.issuerHandled <= s.issuerCached < |s.issuers|
    && s.seen <= s.cached && s.issuerSeen <= s.issuerCached
  }

  ghost predicate Allowed(s: State, step: Step)
    requires Shape(s)
  {
    match step
    case EditRequest(request) => Respects(Last(s), request)
    case EditIssuer(issuer) =>
      Rises(s.issuers[|s.issuers| - 1], issuer)
    case CacheRequest => s.cached < |s.log|
    case CacheIssuer => s.issuerCached + 1 < |s.issuers|
    case HandleRequest => s.handled < s.cached
    case HandleIssuer(_) => s.issuerHandled < s.issuerCached
    case Begin => s.dirty && s.stage == Idle
    case ReadRequest => s.stage == Started
    case ReadIssuer => s.stage == HasRequest
    case DoAct(i, _, _) => s.stage == HasIssuer && ReadsCache(s, i)
    case End => s.stage == Acted && s.act.Some?
    case Retry => s.retry
  }

  ghost function Next(c: Config, s: State, step: Step): State
    requires Shape(s) && Allowed(s, step)
  {
    match step
    case EditRequest(request) => s.(log := s.log + [request])
    case EditIssuer(issuer) => s.(issuers := s.issuers + [issuer])
    case CacheRequest => s.(cached := s.cached + 1)
    case CacheIssuer => s.(issuerCached := s.issuerCached + 1)
    case HandleRequest => s.(handled := s.handled + 1, dirty := s.dirty || Wakes(s.log, s.handled))
    case HandleIssuer(listed) =>
      var found := s.cached > 0 && IsLinked(c, s) && IssuerPasses(s.issuers, s.issuerHandled + 1);
      s.(issuerHandled := s.issuerHandled + 1,
         dirty := s.dirty || (found && listed),
         missed := s.missed || (found && !listed))
    case Begin => s.(dirty := false, stage := Started, act := None)
    case ReadRequest => s.(seen := s.cached, stage := HasRequest)
    case ReadIssuer => s.(issuerSeen := s.issuerCached, missed := false, stage := HasIssuer)
    case DoAct(i, lost, d) =>
      var o := c.plan(i);
      var s1 := s.(stage := Acted, act := Some(Act(i, o, lost, d, Stale(s))));
      if o.patch.None? || lost then s1
      else s1.(log := s.log + [Patched(Last(s), o.patch.value, d)], own := |s.log|)
    case End => s.(stage := Idle, retry := s.retry || Returns(s.act.value))
    case Retry => s.(retry := false, dirty := true)
  }

  /** The worker read a version from before this controller's own last patch. */
  predicate Stale(s: State) {
    s.own > 0 && s.seen <= s.own
  }

  /** controller-runtime will retry this reconcile by itself. */
  predicate Returns(a: Act) {
    var (requeue, error) := Finish(a.outcome, if a.lost then Rejected else Accepted);
    ComesBack(requeue, error)
  }

  ghost predicate Run(c: Config, s: State, steps: seq<Step>, t: State)
    decreases steps
  {
    && Shape(s)
    && if steps == [] then s == t
       else Allowed(s, steps[0]) && Run(c, Next(c, s, steps[0]), steps[1..], t)
  }

  /*** The invariant ***/

  /** The versions: well-formed, of one kind and reference, and changed only by others after `own`. */
  ghost predicate LogInv(s: State)
    requires Shape(s)
  {
    && WellFormed(s.log)
    && EditsOnly(s.log, s.own, |s.log| - 1)
    && GenerationsRise(s.issuers)
    && (forall j :: 0 <= j < |s.log| ==> SameReference(s.log[0], s.log[j]))
  }

  /** Requests that resolve to the same issuer. */
  ghost predicate SameReference(a: Request, b: Request) {
    match a
    case CertificateRequest(m, ref, _) => b.CertificateRequest? && b.issuerRef == ref && b.meta.key == m.key
    case SigningRequest(_, name, _) => b.SigningRequest? && b.signerName == name
  }

  /** Since the worker read the request, nothing was handled that would have woken it, or it is dirty. */
  ghost predicate RequestWatched(s: State)
    requires Shape(s)
  {
    s.dirty || forall j: nat :: s.seen <= j < s.handled ==> !Wakes(s.log, j)
  }

  ghost predicate IssuerWatched(c: Config, s: State)
    requires Shape(s)
  {
    s.dirty || s.missed || s.seen == 0 || !IsLinked(c, s)
    || forall j: nat :: s.issuerSeen < j <= s.issuerHandled ==> !IssuerPasses(s.issuers, j)
  }

  /** The last reconcile did what was planned with what it read, and, unless it read too old a version,
      left its patch, if any, in the log after others' edits only. */
  ghost predicate ActInv(c: Config, s: State)
    requires Shape(s) && s.act.Some?
  {
    var a := s.act.value;
    && a.outcome == c.plan(a.inputs)
    && ReadsCache(s, a.inputs)
    && if a.stale then
         true
       else if a.outcome.patch.None? || a.lost then
         s.own < s.seen || s.own == 0
       else
         s.seen > 0 && s.own > 0 && PatchedChain(s.log, s.seen - 1, s.own, a.outcome.patch.value, a.dropped)
  }

  ghost predicate Inv(c: Config, s: State) {
    && Shape(s)
    && LogInv(s)
    && (s.stage.Idle? && s.act.None? ==> s.dirty || s.handled == 0)
    && (s.stage.Started? ==> s.act.None?)
    && (s.stage in {HasRequest, HasIssuer} ==> s.act.None? && RequestWatched(s))
    && (s.stage.HasIssuer? ==> IssuerWatched(c, s))
    && (s.stage.Acted? ==> s.act.Some?)
    && (s.act.Some? ==> RequestWatched(s) && IssuerWatched(c, s) && ActInv(c, s))
    && (s.stage.Idle? && s.act.Some? && Returns(s.act.value) ==> s.retry || s.dirty)
  }

  /*** Preservation ***/

  /** A longer log changes nothing about the versions handled so far. */
  lemma {:induction false} WatchGrows(c: Config, s: State, t: State)
    requires Shape(s) && Shape(t) && s.log <= t.log && s.issuers <= t.issuers
    requires t == s.(log := t.log, issuers := t.issuers, own := t.own, stage := t.stage, act := t.act)
    ensures RequestWatched(s) ==> RequestWatched(t)
    ensures IssuerWatched(c, s) ==> IssuerWatched(c, t)
  {
    assert forall j: nat :: j < |s.log| ==> Wakes(t.log, j) == Wakes(s.log, j);
    assert forall j: nat :: 0 < j < |s.issuers| ==> IssuerPasses(t.issuers, j) == IssuerPasses(s.issuers, j);
  }

  lemma {:induction false} EditRequestStep(c: Config, s: State, r: Request)
    requires Inv(c, s) && Respects(Last(s), r)
    ensures Inv(c, Next(c, s, EditRequest(r)))
  {
    var t := Next(c, s, EditRequest(r));
    LogGrows(s, r);
    WatchGrows(c, s, t);
    if s.act.Some? {
      ActStays(c, s, r);
    }
    SameProgress(c, s, t);
  }

  lemma {:induction false} ActStays(c: Config, s: State, r: Request)
    requires Shape(s) && s.act.Some? && ActInv(c, s) && Respects(Last(s), r)
    ensures ActInv(c, s.(log := s.log + [r]))
  {
    var a := s.act.value;
    assert s.seen > 0 ==> (s.log + [r])[s.seen - 1] == s.log[s.seen - 1];
    if !a.stale && !(a.outcome.patch.None? || a.lost) {
      ChainGrows(s.log, s.seen - 1, s.own, a.outcome.patch.value, a.dropped, r);
    }
  }

  /** All that the rest of the invariant needs to know about a step that leaves the worker alone. */
  lemma {:induction false} SameProgress(c: Config, s: State, t: State)
    requires Inv(c, s) && Shape(t) && LogInv(t) && t.stage == s.stage && t.act == s.act && t.seen == s.seen
    requires t.handled == s.handled && (s.dirty ==> t.dirty) && (s.retry ==> t.retry)
    requires RequestWatched(s) ==> RequestWatched(t)
    requires IssuerWatched(c, s) ==> IssuerWatched(c, t)
    requires s.act.Some? ==> ActInv(c, t)
    ensures Inv(c, t)
  {
  }

  lemma {:induction false} LogGrows(s: State, r: Request)
    requires Shape(s) && LogInv(s) && Respects(Last(s), r)
    ensures LogInv(s.(log := s.log + [r]))
  {
    var log := s.log + [r];
    assert forall j :: 0 <= j < |s.log| ==> log[j] == s.log[j];
    assert SameReference(s.log[0], Last(s));
    EditsStay(s.log, log, s.own, |s.log| - 1);
    assert Edited(log, |s.log|);
  }

  lemma {:induction false} ChainGrows(log: seq<Request>, i: int, m: int, p: RequestStatus, d: Dropped, r: Request)
    requires PatchedChain(log, i, m, p, d) && Respects(log[|log| - 1], r)
    ensures PatchedChain(log + [r], i, m, p, d)
  {
    var longer := log + [r];
    assert forall j :: 0 <= j < |log| ==> longer[j] == log[j];
    assert longer[m] == Patched(longer[m - 1], p, d);
    EditsStay(log, longer, i, m - 1);
    EditsStay(log, longer, m, |log| - 1);
    assert Edited(longer, |log|);
  }

  lemma {:induction false} EditIssuerStep(c: Config, s: State, issuer: Option<Issuer>)
    requires Inv(c, s) && Allowed(s, EditIssuer(issuer))
    ensures Inv(c, Next(c, s, EditIssuer(issuer)))
  {
    var t := Next(c, s, EditIssuer(issuer));
    forall k | 0 < k < |t.issuers| ensures RisesAt(t.issuers, k) {
      assert k < |s.issuers| ==> RisesAt(s.issuers, k);
    }
    WatchGrows(c, s, t);
    assert s.act.Some? ==> ActInv(c, t);
    SameProgress(c, s, t);
  }

  lemma {:induction false} HandleRequestStep(c: Config, s: State)
    requires Inv(c, s) && s.handled < s.cached
    ensures Inv(c, Next(c, s, HandleRequest))
  {
    var t := Next(c, s, HandleRequest);
    assert s.handled == 0 ==> t.dirty;
    RequestStaysWatched(s, t);
    MoreHandled(c, s, t);
  }

  lemma {:induction false} RequestStaysWatched(s: State, t: State)
    requires Shape(s) && s.handled < s.cached
    requires t == s.(handled := s.handled + 1, dirty := s.dirty || Wakes(s.log, s.handled))
    ensures RequestWatched(s) ==> RequestWatched(t)
  {
  }

  /** All that the rest of the invariant needs to know about a handled event. */
  lemma {:induction false} MoreHandled(c: Config, s: State, t: State)
    requires Inv(c, s) && s.handled < s.cached
    requires t == s.(handled := s.handled + 1, dirty := t.dirty) && (s.dirty ==> t.dirty)
    requires s.handled == 0 ==> t.dirty
    requires RequestWatched(s) ==> RequestWatched(t)
    ensures Inv(c, t)
  {
    assert IssuerWatched(c, s) ==> IssuerWatched(c, t);
    assert LogInv(t);
    assert s.act.Some? ==> ActInv(c, t);
  }

  lemma {:induction false} HandleIssuerStep(c: Config, s: State, listed: bool)
    requires Inv(c, s) && s.issuerHandled < s.issuerCached
    ensures Inv(c, Next(c, s, HandleIssuer(listed)))
  {
    var t := Next(c, s, HandleIssuer(listed));
    IssuerStaysWatched(c, s, t, listed);
    assert RequestWatched(s) ==> RequestWatched(t);
    assert LogInv(t);
    assert s.act.Some? ==> ActInv(c, t);
    SameProgress(c, s, t);
  }

  lemma {:induction false} IssuerStaysWatched(c: Config, s: State, t: State, listed: bool)
    requires Shape(s) && s.issuerHandled < s.issuerCached && t == Next(c, s, HandleIssuer(listed))
    ensures IssuerWatched(c, s) ==> IssuerWatched(c, t)
  {
  }

  lemma {:induction false} ActStep(c: Config, s: State, i: Inputs, lost: bool, d: Dropped)
    requires SoundPatches(c) && Inv(c, s) && s.stage.HasIssuer? && ReadsCache(s, i)
    ensures Inv(c, Next(c, s, DoAct(i, lost, d)))
  {
    if c.plan(i).patch.Some? && !lost {
      ActWithPatch(c, s, i, d);
    } else {
      var t := s.(stage := Acted, act := Some(Act(i, c.plan(i), lost, d, Stale(s))));
      WatchGrows(c, s, t);
      NoPatchKeepsInv(c, s, t, t.act.value);
    }
  }

  lemma {:induction false} ActWithPatch(c: Config, s: State, i: Inputs, d: Dropped)
    requires SoundPatches(c) && Inv(c, s) && s.stage.HasIssuer? && ReadsCache(s, i) && c.plan(i).patch.Some?
    ensures Inv(c, Next(c, s, DoAct(i, false, d)))
  {
    var p := c.plan(i).patch.value;
    var t := s.(stage := Acted, act := Some(Act(i, c.plan(i), false, d, Stale(s))),
                log := s.log + [Patched(Last(s), p, d)], own := |s.log|);
    WatchGrows(c, s, t);
    assert s.seen > 0;
    PatchKeepsLog(s, p, d);
    if !Stale(s) {
      PatchMakesChain(s, p, d);
    }
    PatchKeepsInv(c, s, t, t.act.value, p);
  }

  lemma {:induction false} NoPatchKeepsInv(c: Config, s: State, t: State, a: Act)
    requires Inv(c, s) && s.stage.HasIssuer? && t == s.(stage := Acted, act := Some(a))
    requires RequestWatched(t) && IssuerWatched(c, t)
    requires a.outcome == c.plan(a.inputs) && (a.outcome.patch.None? || a.lost) && ReadsCache(s, a.inputs)
    requires a.stale == Stale(s)
    ensures Inv(c, t)
  {
    assert LogInv(t);
    assert ActInv(c, t);
  }

  lemma {:induction false} PatchKeepsInv(c: Config, s: State, t: State, a: Act, p: RequestStatus)
    requires Inv(c, s) && s.seen > 0
    requires t == s.(stage := Acted, act := Some(a), log := t.log, own := |s.log|)
    requires |t.log| == |s.log| + 1 && s.log <= t.log
    requires RequestWatched(t) && IssuerWatched(c, t)
    requires a.outcome == c.plan(a.inputs) && !a.lost && a.outcome.patch == Some(p) && ReadsCache(s, a.inputs)
    requires WellFormed(t.log) && forall j :: 0 <= j < |t.log| ==> SameReference(t.log[0], t.log[j])
    requires !a.stale ==> PatchedChain(t.log, s.seen - 1, |s.log|, p, a.dropped)
    ensures Inv(c, t)
  {
    assert LogInv(t);
    assert ActInv(c, t);
  }

  /** A patch appends a well-formed version. */
  lemma {:induction false} PatchKeepsLog(s: State, p: RequestStatus, d: Dropped)
    requires Shape(s) && LogInv(s) && UniqueTypes(p.conditions)
    ensures var log := s.log + [Patched(Last(s), p, d)];
            WellFormed(log) && forall j :: 0 <= j < |log| ==> SameReference(log[0], log[j])
  {
    var n := Patched(Last(s), p, d);
    ServerSideApply.MergeIsKeyed(Last(s).status.conditions, p.conditions, d.conditions, Ready);
    var log := s.log + [n];
    assert forall j :: 0 <= j < |s.log| ==> log[j] == s.log[j];
    assert SameReference(s.log[0], Last(s));
    assert SameReference(s.log[0], n);
    assert SameKind(Last(s), n);
  }

  /** If the read was not stale, the patch follows others' edits of the version read. */
  lemma {:induction false} PatchMakesChain(s: State, p: RequestStatus, d: Dropped)
    requires Shape(s) && LogInv(s) && s.seen > 0 && !Stale(s)
    requires WellFormed(s.log + [Patched(Last(s), p, d)])
    ensures PatchedChain(s.log + [Patched(Last(s), p, d)], s.seen - 1, |s.log|, p, d)
  {
    var log := s.log + [Patched(Last(s), p, d)];
    EditsStay(s.log, log, s.own, |s.log| - 1);
  }

  lemma {:induction false} InvStep(c: Config, s: State, step: Step)
    requires SoundPatches(c) && Inv(c, s) && Allowed(s, step)
    ensures Inv(c, Next(c, s, step))
  {
    match step
    case EditRequest(r) => EditRequestStep(c, s, r);
    case EditIssuer(issuer) => EditIssuerStep(c, s, issuer);
    case HandleRequest => HandleRequestStep(c, s);
    case HandleIssuer(listed) => HandleIssuerStep(c, s, listed);
    case DoAct(i, lost, d) => ActStep(c, s, i, lost, d);
    case CacheRequest =>
    case CacheIssuer =>
    case Begin =>
    case ReadRequest =>
    case ReadIssuer =>
    case End =>
    case Retry =>
  }

  lemma {:induction false} InvRun(c: Config, s: State, steps: seq<Step>, t: State)
    requires SoundPatches(c) && Inv(c, s) && Run(c, s, steps, t)
    ensures Inv(c, t)
    decreases steps
  {
    if steps != [] {
      InvStep(c, s, steps[0]);
      InvRun(c, Next(c, s, steps[0]), steps[1..], t);
    }
  }

  /*** The theorem ***/

  /** Nobody will look at the request: it is not queued, not worked on, and no retry is due. */
  ghost predicate Asleep(s: State) {
    s.stage.Idle? && !s.dirty && !s.retry
  }

  /** No event that is still to be handled would wake the request. */
  ghost predicate NothingComing(s: State)
    requires Shape(s)
  {
    && (forall j: nat :: s.handled <= j < |s.log| ==> !Wakes(s.log, j))
    && (forall j: nat :: s.issuerHandled < j < |s.issuers| ==> !IssuerPasses(s.issuers, j))
  }

  /** Sign was called, and its error is the last word on the request. */
  predicate SignHasLastWord(settings: Settings, r: Request, i: Inputs) {
    && ReachesSign(r, i) && i.sign.SignError?
    && IsLastWord(KindsFound(i.sign.err), PastDeadline(settings.maxRetry, r, i.now), SkipsRequeue(r, i.sign.err))
  }

  /** The reconciles after which the request may sleep although it could go on. */
  ghost predicate Excused(settings: Settings, a: Act) {
    || a.stale                       // it read a version from before this controller's own last patch
    || a.outcome.exit.Ignored?       // the hook asked for it
    || (a.inputs.request.Found?
        && var r, i, exit := a.inputs.request.value, a.inputs, a.outcome.exit;
           // the patch was lost, and a terminal error hides it
           || (a.lost && SignHasLastWord(settings, r, i))
           // Sign returned an error to retry that contains a terminal error
           || (exit.WillRetry? && i.sign.SignError? && i.sign.err.terminal && !SkipsRequeue(r, i.sign.err))
           // a CertificateSigningRequest was signed with an empty chain
           || (exit.Signed? && r.SigningRequest? && i.sign.SignOk? && i.sign.chain == [])
           // the requeue was skipped for a custom condition of type Ready
           || ((exit.StillPending? || exit.WillRetry?) && r.CertificateRequest? && i.sign.SignError?
               && SkipsRequeue(r, i.sign.err) && i.sign.err.custom.value.ctype == Ready))
  }

  /** The next move is the issuer's: the request reported an error, and the issuer's Ready condition still is
      the one it saw; or the request waits or reported, and a failed list call hid an event of the issuer. */
  ghost predicate LeftToIssuer(a: Act, issuer: Option<Issuer>, missed: bool) {
    || (a.outcome.exit.Waiting? && missed)
    || (a.outcome.exit.Reported? && (missed || StillAsSeen(a.inputs.issuer, issuer)))
  }

  ghost predicate StillAsSeen(seen: Read<Issuer>, issuer: Option<Issuer>) {
    seen.Found? && issuer.Some? && ReadyView(issuer.value) == ReadyView(seen.value)
  }

  /** The reconciles of this system decide as the request controller does. */
  ghost predicate Decides(c: Config, settings: Settings, consumers: set<GroupVersionKind>) {
    && c.types == settings.types
    && forall i {:trigger Plan(settings, consumers, i)} :: c.plan(i) == Plan(settings, consumers, i)
  }

  function ConfigOf(settings: Settings, consumers: set<GroupVersionKind>): Config {
    Config(settings.types, i => Plan(settings, consumers, i))
  }

  lemma {:induction false} PlansAreSound(settings: Settings, consumers: set<GroupVersionKind>)
    ensures SoundPatches(ConfigOf(settings, consumers))
  {
    var c := ConfigOf(settings, consumers);
    forall i | c.plan(i).patch.Some? ensures i.request.Found? && UniqueTypes(c.plan(i).patch.value.conditions) {
      PatchIsUnique(settings, consumers, i);
    }
  }

  lemma {:induction false} PatchIsUnique(settings: Settings, consumers: set<GroupVersionKind>, i: Inputs)
    requires Plan(settings, consumers, i).patch.Some?
    ensures i.request.Found? && UniqueTypes(Plan(settings, consumers, i).patch.value.conditions)
  {
    var r := i.request.value;
    GatesPassed(settings, consumers, r, i);
    var key := MatchIssuerType(settings.types, r).value;
    if r.CertificateRequest? {
      CertificateRequestPatchShape(settings, consumers, key, r, i);
    } else {
      SigningRequestPatchShape(settings, consumers, key, r, i);
    }
  }

  /** Nothing woke the request since it was read, and nothing will: the chain of versions is silent. */
  lemma {:induction false} ChainIsSilent(c: Config, s: State)
    requires Inv(c, s) && Asleep(s) && NothingComing(s)
    ensures s.act.Some? && s.seen > 0 && Silent(s.log, s.seen - 1, |s.log| - 1)
  {
    assert Wakes(s.log, 0);
    assert s.handled > 0;
    assert s.seen > 0;
    forall k | s.seen <= k < |s.log| ensures !Passes(s.log, k) {
      assert !Wakes(s.log, k);
    }
  }

  lemma {:induction false} IssuerIsSilent(c: Config, s: State)
    requires Inv(c, s) && Asleep(s) && NothingComing(s) && s.seen > 0 && s.act.Some? && IsLinked(c, s) && !s.missed
    ensures IssuerSilent(s.issuers, s.issuerSeen, |s.issuers| - 1)
  {
  }

  /** Sleeping is right: there is nothing to do, it is the issuer's move, or the last reconcile is one of the
      excused ones. */
  ghost predicate MaySleep(
    settings: Settings, request: Request, issuer: Option<Issuer>, act: Option<Act>, missed: bool) {
    || AtRest(settings, request, issuer)
    || (act.Some? && (Excused(settings, act.value) || LeftToIssuer(act.value, issuer, missed)))
  }

  /** No wake-up is lost: in every interleaving, a request that sleeps with no wake-up under way has
      nothing to do, or it is the issuer's move, unless its last reconcile is one of the excused ones. */
  lemma {:induction false} NoLostWakeup(
    settings: Settings, consumers: set<GroupVersionKind>, s: State, steps: seq<Step>, t: State)
    requires Init(s) && Run(ConfigOf(settings, consumers), s, steps, t)
    requires Shape(t) && Asleep(t) && NothingComing(t)
    ensures MaySleep(settings, Last(t), t.issuers[|t.issuers| - 1], t.act, t.missed)
  {
    var c := ConfigOf(settings, consumers);
    PlansAreSound(settings, consumers);
    InitInv(c, s);
    InvRun(c, s, steps, t);
    SleepIsRight(settings, consumers, c, t);
  }

  lemma {:induction false} SleepIsRight(settings: Settings, consumers: set<GroupVersionKind>, c: Config, t: State)
    requires Decides(c, settings, consumers) && Inv(c, t) && Asleep(t) && NothingComing(t)
    ensures MaySleep(settings, Last(t), t.issuers[|t.issuers| - 1], t.act, t.missed)
  {
    ChainIsSilent(c, t);
    if !t.act.value.stale {
      SleepIsExplained(settings, consumers, c, t);
      SleepIsRest(settings, consumers, c, t.log, t.seen - 1, t.own, t.issuers[|t.issuers| - 1], t.act.value, t.missed);
    }
  }

  lemma {:induction false} InitInv(c: Config, s: State)
    requires Init(s) && Shape(s)
    ensures Inv(c, s)
  {
  }

  lemma {:induction false} SleepIsExplained(settings: Settings, consumers: set<GroupVersionKind>, c: Config, t: State)
    requires Decides(c, settings, consumers) && Inv(c, t) && Asleep(t) && NothingComing(t)
    requires t.act.Some? && !t.act.value.stale
    ensures Explains(c, t.log, t.seen - 1, t.own, t.issuers[|t.issuers| - 1], t.act.value, t.missed)
  {
    ChainIsSilent(c, t);
    var a := t.act.value;
    SleptThrough(settings, consumers, c, t, a);
    IssuerWhileAsleep(settings, consumers, c, t, a);
  }

  /** The ends of a reconcile that controller-runtime does not retry, the excused ones aside. */
  ghost predicate EndsQuietly(settings: Settings, r: Request, a: Act) {
    var o := a.outcome;
    if o.patch.None? then
      o.exit.Foreign? || o.exit.Unapproved? || o.exit.Finished?
    else
      && !a.lost
      && match o.exit
         case Initialised => true
         case Waiting => true
         case Signed => true
         case FailedForGood => true
         case Expired => true
         case StillPending => a.inputs.sign.SignError? && SkipsRequeue(r, a.inputs.sign.err)
         case WillRetry => a.inputs.sign.SignError? && SkipsRequeue(r, a.inputs.sign.err)
         case _ => false
  }

  lemma {:induction false} LastWordIsTerminal(
    settings: Settings, consumers: set<GroupVersionKind>, r: Request, i: Inputs)
    requires i.request == Found(r) && Plan(settings, consumers, i).patch.Some?
    ensures var o := Plan(settings, consumers, i);
            !o.error.Aggregate? && (o.error.TerminalError? <==> SignHasLastWord(settings, r, i))
  {
    GatesPassed(settings, consumers, r, i);
  }

  lemma {:induction false} QuietEnds(settings: Settings, consumers: set<GroupVersionKind>, r: Request, a: Act)
    requires a.outcome == Plan(settings, consumers, a.inputs) && a.inputs.request == Found(r)
    requires !Returns(a) && !Excused(settings, a) && !a.outcome.exit.Reported?
    ensures EndsQuietly(settings, r, a)
  {
    if a.outcome.patch.Some? && a.lost {
      LastWordIsTerminal(settings, consumers, r, a.inputs);
      AggregateIsTerminalExactly(a.outcome.error);
    } else {
      KeptPatchEnds(settings, consumers, r, a);
    }
  }

  lemma {:induction false} KeptPatchEnds(settings: Settings, consumers: set<GroupVersionKind>, r: Request, a: Act)
    requires a.outcome == Plan(settings, consumers, a.inputs) && a.inputs.request == Found(r)
    requires a.outcome.patch.Some? ==> !a.lost
    requires !ComesBack(a.outcome.requeue, a.outcome.error)
    requires !Excused(settings, a) && !a.outcome.exit.Reported?
    ensures EndsQuietly(settings, r, a)
  {
  }

  /** What the log shows about the reconcile before the sleep. */
  ghost predicate Followed(log: seq<Request>, k: int, m: int, a: Act) {
    && 0 <= k < |log| && WellFormed(log)
    && a.inputs.request == Found(log[k])
    && if a.outcome.patch.None? || a.lost then EditsOnly(log, k, |log| - 1)
       else PatchedChain(log, k, m, a.outcome.patch.value, a.dropped)
  }

  /** The last reconcile read version k of the log, perhaps made version m, and is followed by silence. */
  ghost predicate Explains(c: Config, log: seq<Request>, k: int, m: int, issuer: Option<Issuer>, a: Act, missed: bool) {
    && Followed(log, k, m, a)
    && Silent(log, k, |log| - 1)
    && a.outcome == c.plan(a.inputs)
    && !Returns(a)
    && (a.outcome.exit.Waiting? ==> missed || Waits(ReadOf(issuer)))
    && (a.outcome.exit.Reported? ==> missed || StillAsSeen(a.inputs.issuer, issuer))
  }

  lemma {:induction false} SleepIsRest(
    settings: Settings, consumers: set<GroupVersionKind>, c: Config,
    log: seq<Request>, k: int, m: int, issuer: Option<Issuer>, a: Act, missed: bool)
    requires Decides(c, settings, consumers) && Explains(c, log, k, m, issuer, a, missed)
    ensures MaySleep(settings, log[|log| - 1], issuer, Some(a), missed)
  {
    if !Excused(settings, a) && !LeftToIssuer(a, issuer, missed) {
      assert a.outcome == Plan(settings, consumers, a.inputs);
      QuietEnds(settings, consumers, log[k], a);
      if a.outcome.patch.None? {
        NoPatchIsRest(settings, consumers, log, k, issuer, a);
      } else {
        PatchIsRest(settings, consumers, log, k, m, issuer, a);
      }
    }
  }

  /** What the issuer is like when the request sleeps after waiting or reporting. */
  lemma {:induction false} IssuerWhileAsleep(
    settings: Settings, consumers: set<GroupVersionKind>, c: Config, t: State, a: Act)
    requires Decides(c, settings, consumers) && Inv(c, t) && Asleep(t) && NothingComing(t)
    requires t.act == Some(a) && t.seen > 0
    requires a.outcome == Plan(settings, consumers, a.inputs) && a.inputs.request == Found(t.log[t.seen - 1])
    ensures a.outcome.exit.Waiting? ==> t.missed || Waits(ReadOf(t.issuers[|t.issuers| - 1]))
    ensures a.outcome.exit.Reported? ==> t.missed || StillAsSeen(a.inputs.issuer, t.issuers[|t.issuers| - 1])
  {
    if !t.missed && (a.outcome.exit.Waiting? || a.outcome.exit.Reported?) {
      LinkedWhilePlanned(settings, consumers, c, t, a);
      IssuerIsSilent(c, t);
      if a.outcome.exit.Waiting? {
        WaitingLasts(t.issuers, t.issuerSeen, |t.issuers| - 1);
      } else {
        ViewLasts(t.issuers, t.issuerSeen, |t.issuers| - 1);
      }
    }
  }

  /** The reconcile before the sleep read the request and is not retried. */
  lemma {:induction false} SleptThrough(
    settings: Settings, consumers: set<GroupVersionKind>, c: Config, t: State, a: Act)
    requires Decides(c, settings, consumers) && Inv(c, t) && Asleep(t) && t.act == Some(a) && t.seen > 0 && !a.stale
    ensures a.outcome == Plan(settings, consumers, a.inputs) && !Returns(a)
    ensures Followed(t.log, t.seen - 1, t.own, a)
  {
    assert a.outcome == c.plan(a.inputs) == Plan(settings, consumers, a.inputs) && !Returns(a);
    UnreadableReturns(settings, consumers, a);
    if a.outcome.patch.None? || a.lost {
      EditsSinceOwn(t);
    }
  }

  lemma {:induction false} UnreadableReturns(settings: Settings, consumers: set<GroupVersionKind>, a: Act)
    requires a.outcome == Plan(settings, consumers, a.inputs)
    ensures a.inputs.request.ReadError? ==> Returns(a)
  {
  }

  lemma {:induction false} EditsSinceOwn(t: State)
    requires Shape(t) && LogInv(t) && t.seen > 0 && (t.own < t.seen || t.own == 0)
    ensures EditsOnly(t.log, t.seen - 1, |t.log| - 1)
  {
  }

  lemma {:induction false} NoPatchIsRest(
    settings: Settings, consumers: set<GroupVersionKind>, log: seq<Request>, k: int, issuer: Option<Issuer>, a: Act)
    requires 0 <= k < |log| && WellFormed(log) && Silent(log, k, |log| - 1) && EditsOnly(log, k, |log| - 1)
    requires a.outcome == Plan(settings, consumers, a.inputs) && a.inputs.request == Found(log[k])
    requires a.outcome.patch.None? && EndsQuietly(settings, log[k], a)
    ensures AtRest(settings, log[|log| - 1], issuer)
  {
    RestAfterNoPatch(settings, log, k, issuer);
  }

  /** A reconcile that waits for the issuer, or reports to it, has matched the request to it and read it. */
  lemma {:induction false} LinkedWhilePlanned(
    settings: Settings, consumers: set<GroupVersionKind>, c: Config, t: State, a: Act)
    requires Decides(c, settings, consumers) && Inv(c, t) && t.seen > 0 && t.act == Some(a)
    requires a.outcome == Plan(settings, consumers, a.inputs) && a.inputs.request == Found(t.log[t.seen - 1])
    requires a.outcome.exit.Waiting? || a.outcome.exit.Reported?
    ensures IsLinked(c, t) && a.inputs.issuer == ReadOf(t.issuers[t.issuerSeen])
    ensures a.outcome.exit.Waiting? <==> Waits(a.inputs.issuer)
  {
    assert SameReference(t.log[0], t.log[t.seen - 1]);
    assert MatchIssuerType(settings.types, t.log[0]) == MatchIssuerType(settings.types, t.log[t.seen - 1]);
  }

  lemma {:induction false} PatchIsRest(
    settings: Settings, consumers: set<GroupVersionKind>, log: seq<Request>, k: int, m: int, issuer: Option<Issuer>,
    a: Act)
    requires a.outcome.patch.Some? && PatchedChain(log, k, m, a.outcome.patch.value, a.dropped)
    requires Silent(log, k, |log| - 1)
    requires a.outcome == Plan(settings, consumers, a.inputs)
    requires a.inputs.request == Found(log[k]) && EndsQuietly(settings, log[k], a) && !Excused(settings, a)
    requires a.outcome.exit.Waiting? ==> Waits(ReadOf(issuer))
    ensures AtRest(settings, log[|log| - 1], issuer)
  {
    var r, i, o := log[k], a.inputs, a.outcome;
    GatesPassed(settings, consumers, r, i);
    var key := MatchIssuerType(settings.types, r).value;
    if o.exit.Initialised? {
      RestAfterInitialising(settings, log, k, m, i.now, a.dropped, issuer);
    } else if o.exit.Waiting? {
      RestAfterWaiting(settings, log, k, m, i.now, a.dropped, issuer);
    } else if o.exit.StillPending? || o.exit.WillRetry? {
      NoSkippedSilence(settings, consumers, key, log, k, m, a);
    } else {
      if r.CertificateRequest? {
        CertificateRequestPatchShape(settings, consumers, key, r, i);
      } else {
        SigningRequestPatchShape(settings, consumers, key, r, i);
      }
      RestAfterFinishing(settings, log, k, m, o.patch.value, a.dropped, issuer);
    }
  }

  lemma {:induction false} NoSkippedSilence(
    settings: Settings, consumers: set<GroupVersionKind>, key: IssuerKey, log: seq<Request>, k: int, m: int, a: Act)
    requires a.outcome.patch.Some? && PatchedChain(log, k, m, a.outcome.patch.value, a.dropped)
    requires a.inputs.request == Found(log[k]) && a.outcome == PlanOwned(settings, consumers, key, log[k], a.inputs)
    requires (a.outcome.exit.StillPending? || a.outcome.exit.WillRetry?) && EndsQuietly(settings, log[k], a)
    requires !Excused(settings, a)
    ensures !Silent(log, k, |log| - 1)
  {
    var r, e := log[k], a.inputs.sign.err;
    assert a.outcome == PlanError(settings.maxRetry, consumers, key, r, a.inputs.now, e);
    SkippingPatchCarries(settings.maxRetry, consumers, key, r, a.inputs.now, e);
    assert r.CertificateRequest? ==> Get(r.status.conditions, Ready).Some?;
    SkippingIsSafe(log, k, m, a.outcome.patch.value, a.dropped, e.custom.value);
  }

  /*** After a report ***/

  /** Version b of the issuer is version a with the status patch of a reconcile that used a report. */
  ghost predicate ReportApplied(a: Option<Issuer>, b: Option<Issuer>) {
    a.Some? && b.Some? && exists i: IssuerController.Inputs, e: Error, d: set<ConditionType> ::
      UsesReport(i) && IssuerController.Plan(i, Some(e)).patch.Some?
      && b.value == Updated(a.value, IssuerController.Plan(i, Some(e)).patch.value, d)
  }

  /** A request that reported an error sleeps only until a report is used: as long as it sleeps, and no list
      call failed, no patch of a used report has been applied since it read the issuer. */
  lemma {:induction false} UsedReportEndsSleep(
    settings: Settings, consumers: set<GroupVersionKind>, s: State, steps: seq<Step>, t: State)
    requires Init(s) && Run(ConfigOf(settings, consumers), s, steps, t)
    requires Shape(t) && Asleep(t) && NothingComing(t) && !t.missed
    requires t.act.Some? && t.act.value.outcome.exit.Reported?
    ensures forall k :: t.issuerSeen < k < |t.issuers| ==> !ReportApplied(t.issuers[k - 1], t.issuers[k])
  {
    var c := ConfigOf(settings, consumers);
    PlansAreSound(settings, consumers);
    InitInv(c, s);
    InvRun(c, s, steps, t);
    NoReportAppliedAsleep(settings, consumers, c, t);
  }

  lemma {:induction false} NoReportAppliedAsleep(
    settings: Settings, consumers: set<GroupVersionKind>, c: Config, t: State)
    requires Decides(c, settings, consumers) && Inv(c, t) && Asleep(t) && NothingComing(t) && !t.missed
    requires t.act.Some? && t.act.value.outcome.exit.Reported?
    ensures forall k :: t.issuerSeen < k < |t.issuers| ==> !ReportApplied(t.issuers[k - 1], t.issuers[k])
  {
    IssuerSinceReport(settings, consumers, c, t);
    forall k | t.issuerSeen < k < |t.issuers| ensures !ReportApplied(t.issuers[k - 1], t.issuers[k]) {
      SilenceAppliesNoReport(t.issuers, t.issuerSeen, k);
    }
  }

  /** Ready=True, as a request sees it. */
  ghost predicate SeenReady(issuer: Option<Issuer>) {
    issuer.Some? && ReadyView(issuer.value).Some? && ReadyView(issuer.value).value.0 == True
  }

  lemma {:induction false} IssuerSinceReport(
    settings: Settings, consumers: set<GroupVersionKind>, c: Config, t: State)
    requires Decides(c, settings, consumers) && Inv(c, t) && Asleep(t) && NothingComing(t) && !t.missed
    requires t.act.Some? && t.act.value.outcome.exit.Reported?
    ensures SeenReady(t.issuers[t.issuerSeen]) && IssuerSilent(t.issuers, t.issuerSeen, |t.issuers| - 1)
  {
    ReporterIsLinked(settings, consumers, c, t);
    IssuerIsSilent(c, t);
  }

  lemma {:induction false} ReporterIsLinked(
    settings: Settings, consumers: set<GroupVersionKind>, c: Config, t: State)
    requires Decides(c, settings, consumers) && Inv(c, t) && t.act.Some? && t.act.value.outcome.exit.Reported?
    ensures t.seen > 0 && IsLinked(c, t) && SeenReady(t.issuers[t.issuerSeen])
  {
    var a := t.act.value;
    assert a.outcome == c.plan(a.inputs) == Plan(settings, consumers, a.inputs);
    ReporterSawReady(settings, consumers, a.inputs);
    LinkedWhilePlanned(settings, consumers, c, t, a);
  }

  lemma {:induction false} SilenceAppliesNoReport(issuers: seq<Option<Issuer>>, q: int, k: int)
    requires 0 <= q < k < |issuers| && IssuerSilent(issuers, q, |issuers| - 1) && SeenReady(issuers[q])
    ensures !ReportApplied(issuers[k - 1], issuers[k])
  {
    ViewLasts(issuers, q, k - 1);
    assert !IssuerPasses(issuers, k);
    SilentIsNoReport(issuers[k - 1], issuers[k]);
  }

  lemma {:induction false} ReporterSawReady(settings: Settings, consumers: set<GroupVersionKind>, i: Inputs)
    requires Plan(settings, consumers, i).exit.Reported?
    ensures i.request.Found? && i.issuer.Found? && !i.issuer.value.NotReadyFor()
  {
  }

  lemma {:induction false} SilentIsNoReport(a: Option<Issuer>, b: Option<Issuer>)
    requires SeenReady(a) && !IssuerWakes(a, b)
    ensures !ReportApplied(a, b)
  {
    if ReportApplied(a, b) {
      var i: IssuerController.Inputs, e: Error, d: set<ConditionType> :|
        UsesReport(i) && IssuerController.Plan(i, Some(e)).patch.Some?
        && b.value == Updated(a.value, IssuerController.Plan(i, Some(e)).patch.value, d);
      UsedReportWakes(i, e, a.value, d);
    }
  }

  /*** Stale reads ***/

  lemma {:induction false} EditsKeepPhase(log: seq<Request>, i: int, j: int)
    requires EditsOnly(log, i, j) && WellFormed(log) && log[0].CertificateRequest?
    ensures PhaseOf(log[i]) == PhaseOf(log[j])
    decreases j
  {
    if i < j {
      EditsKeepPhase(log, i, j - 1);
      assert Edited(log, j);
      EditKeepsPhase(log[j - 1], log[j]);
    }
  }

  /** A reconcile that did not read a stale version finds a finished CertificateRequest finished. */
  lemma {:induction false} FreshReadMakesNoPatch(
    settings: Settings, consumers: set<GroupVersionKind>, s: State, i: Inputs)
    requires Shape(s) && LogInv(s) && !Stale(s) && ReadsCache(s, i)
    requires Last(s).CertificateRequest? && PhaseOf(Last(s)) != Open
    ensures Plan(settings, consumers, i).patch.None?
  {
    if i.request.Found? {
      EditsSinceOwn(s);
      EditsKeepPhase(s.log, s.seen - 1, |s.log| - 1);
      TerminalIsLeftAlone(settings, consumers, i.request.value, i);
    }
  }

  lemma {:induction false} OtherStepsKeepPhase(c: Config, s: State, step: Step)
    requires Inv(c, s) && Allowed(s, step) && !step.DoAct? && Last(s).CertificateRequest? && PhaseOf(Last(s)) != Open
    ensures PhaseOf(Last(Next(c, s, step))) == PhaseOf(Last(s))
    ensures Next(c, s, step).log != s.log <==> step.EditRequest?
  {
    if step.EditRequest? {
      assert |Next(c, s, step).log| == |s.log| + 1;
      assert Last(Next(c, s, step)) == step.request;
      EditKeepsPhase(Last(s), step.request);
    } else {
      assert Next(c, s, step).log == s.log;
    }
  }

  /** What a reconcile is given makes it patch the request: the gates and the hook let it through, and there is
      something to initialise, or the issuer can be read, and it is waited for, or Sign answers anything but an
      issuer error that nobody takes. */
  predicate MakesPatch(settings: Settings, consumers: set<GroupVersionKind>, r: Request, i: Inputs) {
    && PassesGates(settings, r) && !i.hook.HookError? && i.hook != HookSays(true)
    && (|| InitialPatch(r, i.now).Some?
        || (!i.issuer.ReadError?
            && (|| Waits(i.issuer) || i.sign.SignOk? || i.sign.err.issuer.None?
                || MatchIssuerType(settings.types, r).value.gvk in consumers)))
  }

  /** The phase to which such a patch leads a CertificateRequest. */
  function PhaseMade(settings: Settings, r: Request, i: Inputs): Phase {
    if InitialPatch(r, i.now).Some? then if Has(r.status.conditions, Denied, True) then IsDeniedForGood else Open
    else if Waits(i.issuer) then Open
    else match i.sign
      case SignOk(_, _) => IsIssued
      case SignError(e) =>
        if e.issuer.None? && !e.pending && (e.permanent || PastDeadline(settings.maxRetry, r, i.now))
        then HasFailedForGood else Open
  }

  lemma {:induction false} PatchIsMadeExactly(
    settings: Settings, consumers: set<GroupVersionKind>, r: Request, i: Inputs)
    requires i.request == Found(r)
    ensures Plan(settings, consumers, i).patch.Some? <==> MakesPatch(settings, consumers, r, i)
    ensures r.CertificateRequest? && MakesPatch(settings, consumers, r, i) ==>
              PhaseAfter(r, Plan(settings, consumers, i)) == PhaseMade(settings, r, i)
  {
    if PassesGates(settings, r) && !i.hook.HookError? && i.hook != HookSays(true) {
      OwnedPatchIsMadeExactly(settings, consumers, r, i);
    }
  }

  lemma {:induction false} OwnedPatchIsMadeExactly(
    settings: Settings, consumers: set<GroupVersionKind>, r: Request, i: Inputs)
    requires PassesGates(settings, r) && !i.hook.HookError? && i.hook != HookSays(true)
    ensures var o := PlanOwned(settings, consumers, MatchIssuerType(settings.types, r).value, r, i);
            && (o.patch.Some? <==> MakesPatch(settings, consumers, r, i))
            && (r.CertificateRequest? && o.patch.Some? ==> PhaseAfter(r, o) == PhaseMade(settings, r, i))
  {
    if InitialPatch(r, i.now).None? && !i.issuer.ReadError? && !Waits(i.issuer) && i.sign.SignError? {
      ErrorPatchIsMadeExactly(settings, consumers, MatchIssuerType(settings.types, r).value, r, i.now, i.sign.err);
    }
  }

  lemma {:induction false} ErrorPatchIsMadeExactly(
    settings: Settings, consumers: set<GroupVersionKind>, key: IssuerKey, r: Request, now: Time, e: Finding)
    ensures var o := PlanError(settings.maxRetry, consumers, key, r, now, e);
            && (o.patch.Some? <==> e.issuer.None? || key.gvk in consumers)
            && (r.CertificateRequest? && o.patch.Some? ==>
                  PhaseAfter(r, o)
                  == if e.issuer.None? && !e.pending && (e.permanent || PastDeadline(settings.maxRetry, r, now))
                     then HasFailedForGood else Open)
  {
  }

  /** A step changes a finished CertificateRequest exactly when it is an edit by others, which keeps the phase,
      or a reconcile that read a stale version, is given what makes it patch the request, and does not lose its
      patch. Then the phase is the one that these inputs lead to, whatever it was. */
  lemma {:induction false} FinishedIsChangedExactly(
    settings: Settings, consumers: set<GroupVersionKind>, c: Config, s: State, step: Step)
    requires Decides(c, settings, consumers) && Inv(c, s) && Allowed(s, step)
    requires Last(s).CertificateRequest? && PhaseOf(Last(s)) != Open
    ensures var t := Next(c, s, step);
            var overwrites := step.DoAct? && Stale(s) && !step.lost && step.inputs.request.Found?
                              && MakesPatch(settings, consumers, step.inputs.request.value, step.inputs);
            && (t.log != s.log <==> step.EditRequest? || overwrites)
            && PhaseOf(Last(t)) == if overwrites then PhaseMade(settings, step.inputs.request.value, step.inputs)
                                   else PhaseOf(Last(s))
  {
    if step.DoAct? {
      OverwritingAct(settings, consumers, c, s, step);
    } else {
      OtherStepsKeepPhase(c, s, step);
    }
  }

  lemma {:induction false} OverwritingAct(
    settings: Settings, consumers: set<GroupVersionKind>, c: Config, s: State, step: Step)
    requires Decides(c, settings, consumers) && Shape(s) && LogInv(s) && Allowed(s, step) && step.DoAct?
    requires Last(s).CertificateRequest? && PhaseOf(Last(s)) != Open
    ensures var t := Next(c, s, step);
            var overwrites := Stale(s) && !step.lost && step.inputs.request.Found?
                              && MakesPatch(settings, consumers, step.inputs.request.value, step.inputs);
            && (t.log != s.log <==> overwrites)
            && PhaseOf(Last(t)) == if overwrites then PhaseMade(settings, step.inputs.request.value, step.inputs)
                                   else PhaseOf(Last(s))
  {
    var o := Plan(settings, consumers, step.inputs);
    assert c.plan(step.inputs) == o;
    if !Stale(s) {
      FreshReadMakesNoPatch(settings, consumers, s, step.inputs);
    }
    if step.inputs.request.Found? {
      var r := step.inputs.request.value;
      PatchIsMadeExactly(settings, consumers, r, step.inputs);
      if o.patch.Some? {
        PatchDecidesPhase(settings, consumers, r, Last(s), step.inputs, step.dropped);
      }
    }
  }

  /** The patch of a reconcile decides the phase of the CertificateRequest it is applied to, whatever that
      request was. */
  lemma {:induction false} PatchDecidesPhase(
    settings: Settings, consumers: set<GroupVersionKind>, r: Request, stored: Request, i: Inputs, d: Dropped)
    requires i.request == Found(r) && r.CertificateRequest? && stored.CertificateRequest?
    requires UniqueTypes(stored.status.conditions) && Plan(settings, consumers, i).patch.Some?
    ensures PhaseOf(r) == Open
    ensures PhaseOf(Patched(stored, Plan(settings, consumers, i).patch.value, d))
                == PhaseAfter(r, Plan(settings, consumers, i))
  {
    GatesPassed(settings, consumers, r, i);
    CertificateRequestPatchShape(settings, consumers, MatchIssuerType(settings.types, r).value, r, i);
    CertificateRequestApply(stored, Plan(settings, consumers, i).patch.value, d);
  }
}
