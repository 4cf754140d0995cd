/** Runs of one request with fresh reads: reconciles, whose patches may be lost, and edits by others.
    Others may change every condition and annotation except the fields this controller keeps the
    lifecycle in.
 */
module RequestRuns {
  import opened Conditions
  import opened ControllerRuntime
  import opened IssuerTypes
  import opened Lifecycle
  import opened Patches
  import opened RequestController
  import opened Requests
  import opened Transitions

  datatype Step =
    | Edit(request: Request)
    | Reconcile(inputs: Inputs, applied: bool, dropped: Dropped)

  /** The request, the chains and CAs of the Sign successes that were recorded, when a failure or denial was
      recorded last, the numbers of Sign calls, of patches applied, of reconciles that controller-runtime repeats
      and of late Sign calls (see IsLate), and the past condition lists with the writes that led from each to the
      next. */
  datatype State = State(
    request: Request, successes: seq<(Bytes, Bytes)>, failedAt: Option<Time>,
    signs: nat, patches: nat, repeats: nat, late: nat,
    lists: seq<seq<Condition>>, turns: seq<Turn>)

  /** Others leave the lifecycle alone: Ready, certificate, CA and failure time of a CertificateRequest;
      certificate, Failed and Denied of a CertificateSigningRequest. */
  ghost predicate Respects(a: Request, b: Request) {
    && UniqueTypes(b.status.conditions)
    && b.meta.key == a.meta.key
    && b.meta.creation == a.meta.creation
    && b.status.certificate == a.status.certificate
    && b.status.ca == a.status.ca
    && b.status.failureTime == a.status.failureTime
    && match a
       case CertificateRequest(_, ref, _) =>
         b.CertificateRequest? && b.issuerRef == ref
         && Get(b.status.conditions, Ready) == Get(a.status.conditions, Ready)
       case SigningRequest(_, name, _) =>
         && b.SigningRequest? && b.signerName == name
         && Get(b.status.conditions, Failed) == Get(a.status.conditions, Failed)
         && (a.IsDenied() ==> b.IsDenied())
  }

  ghost predicate Allowed(s: State, step: Step) {
    match step
    case Edit(request) => Respects(s.request, request)
    case Reconcile(i, _, _) => i.request == Found(s.request)
  }

  /** A Sign call after the retry deadline that was neither pending nor the issuer's fault, with its patch
      applied. A CertificateSigningRequest counts as signed only with a certificate. */
  predicate IsLate(settings: Settings, r: Request, step: Step, exit: Exit) {
    && step.Reconcile?
    && step.applied
    && step.inputs.now > r.meta.creation + settings.maxRetry
    && (exit.FailedForGood? || exit.Expired? || exit.WillRetry?
        || (exit.Signed? && (r.CertificateRequest? || (step.inputs.sign.SignOk? && step.inputs.sign.chain != []))))
  }

  /** The conditions a reconcile with this exit writes to its patch, in order. */
  function WritesOf(r: Request, i: Inputs, exit: Exit): seq<Write> {
    CustomWrites(r, i, exit) + OwnWrites(r, i.now, exit)
  }

  function CustomWrites(r: Request, i: Inputs, exit: Exit): seq<Write> {
    match CustomOfExit(i, exit)
    case Some(c) => [Write(c.ctype, c.status, c.reason, StampFor(r, i.now))]
    case None => []
  }

  function OwnWrites(r: Request, now: Time, exit: Exit): seq<Write> {
    if r.CertificateRequest? then [Write(Ready, ReadyWritten(r, exit).0, ReadyWritten(r, exit).1, StampFor(r, now))]
    else if exit.FailedForGood? || exit.Expired? then [Write(Failed, True, HasFailed, StampFor(r, now))]
    else []
  }

  ghost function Next(settings: Settings, consumers: set<GroupVersionKind>, s: State, step: Step): State {
    match step
    case Edit(request) =>
      s.(request := request, lists := s.lists + [request.status.conditions], turns := s.turns + [Turn(0, [])])
    case Reconcile(i, applied, d) =>
      var o := Plan(settings, consumers, i);
      var (requeue, error) := Finish(o, if applied then Accepted else Rejected);
      var s1 := s.(signs := s.signs + (if o.exit.Signs() then 1 else 0),
                   repeats := s.repeats + (if ComesBack(requeue, error) then 1 else 0),
                   late := s.late + (if IsLate(settings, s.request, step, o.exit) then 1 else 0));
      if o.patch.None? || !applied then s1
      else
        s1.(request := After(s.request, o, d),
            patches := s.patches + 1,
            lists := s.lists + [After(s.request, o, d).status.conditions],
            turns := s.turns + [Turn(i.now, WritesOf(s.request, i, o.exit))],
            successes := if o.exit.Signed? && i.sign.SignOk? then s.successes + [(i.sign.chain, i.sign.ca)]
                         else s.successes,
            failedAt := if Fails(o.exit) || (o.exit.Initialised? && Has(s.request.status.conditions, Denied, True))
                        then Some(i.now) else s.failedAt)
  }

  ghost predicate Run(settings: Settings, consumers: set<GroupVersionKind>, s: State, steps: seq<Step>, t: State)
    decreases steps
  {
    if steps == [] then s == t
    else Allowed(s, steps[0]) && Run(settings, consumers, Next(settings, consumers, s, steps[0]), steps[1..], t)
  }

  /*** Finished for good ***/

  /** Edits by others keep a finished request finished, and a CertificateRequest in its phase. */
  lemma {:induction false} EditKeepsPhase(a: Request, b: Request)
    requires UniqueTypes(a.status.conditions) && Respects(a, b)
    ensures a.CertificateRequest? || PhaseOf(a) != Open ==> PhaseOf(b) == PhaseOf(a)
  {
    var x, y := a.status.conditions, b.status.conditions;
    if a.CertificateRequest? {
      HasIsGet(x, Ready, True);
      HasIsGet(y, Ready, True);
      HasIsGet(x, Ready, False);
      HasIsGet(y, Ready, False);
    } else {
      HasIsGet(x, Failed, True);
      HasIsGet(y, Failed, True);
    }
  }

  /** A finished request is never signed, patched, requeued or moved to another phase again, and it keeps
      its certificate, CA and failure time. */
  lemma {:induction false} FinishedForGood(
    settings: Settings, consumers: set<GroupVersionKind>, s: State, steps: seq<Step>, t: State)
    requires UniqueTypes(s.request.status.conditions) && PhaseOf(s.request) != Open
    requires Run(settings, consumers, s, steps, t)
    ensures PhaseOf(t.request) == PhaseOf(s.request)
    ensures t.signs == s.signs && t.patches == s.patches && t.repeats == s.repeats
    ensures t.successes == s.successes && t.failedAt == s.failedAt && t.late == s.late
    ensures t.request.status.certificate == s.request.status.certificate && t.request.status.ca == s.request.status.ca
    ensures t.request.status.failureTime == s.request.status.failureTime
    decreases steps
  {
    if steps != [] {
      var u := Next(settings, consumers, s, steps[0]);
      if steps[0].Edit? {
        EditKeepsPhase(s.request, u.request);
      } else {
        TerminalIsLeftAlone(settings, consumers, s.request, steps[0].inputs);
      }
      FinishedForGood(settings, consumers, u, steps[1..], t);
    }
  }

  /*** Recorded successes and failures ***/

  /** Issued means one recorded success, whose chain is the certificate and whose CA is the CA where it is to be
      set; and failed or denied means one recorded failure or denial, whose time is the failure time. */
  ghost predicate Bookkeeping(settings: Settings, s: State) {
    var r := s.request;
    && UniqueTypes(r.status.conditions)
    && (PhaseOf(r) == IsIssued <==> |s.successes| == 1)
    && |s.successes| <= 1
    && r.status.certificate == (if s.successes == [] then [] else s.successes[0].0)
    && r.status.ca == (if s.successes == [] || !settings.setCA then [] else s.successes[0].1)
    && r.status.failureTime == s.failedAt
    && (s.failedAt.Some? <==> PhaseOf(r) in {HasFailedForGood, IsDeniedForGood})
  }

  lemma {:induction false} BookkeepingStep(settings: Settings, consumers: set<GroupVersionKind>, s: State, step: Step)
    requires s.request.CertificateRequest? && Bookkeeping(settings, s) && Allowed(s, step)
    ensures var t := Next(settings, consumers, s, step); Bookkeeping(settings, t) && t.request.CertificateRequest?
  {
    var r := s.request;
    if step.Edit? {
      EditBookkeeping(settings, s, step.request);
    } else {
      var o := Plan(settings, consumers, step.inputs);
      if o.patch.Some? && step.applied {
        GatesPassed(settings, consumers, r, step.inputs);
        CertificateRequestPatchShape(settings, consumers, MatchIssuerType(settings.types, r).value, r, step.inputs);
        PatchBookkeeping(settings, s, Next(settings, consumers, s, step), o.exit, o.patch.value,
                         step.inputs, step.dropped);
      }
    }
  }

  lemma {:induction false} EditBookkeeping(settings: Settings, s: State, request: Request)
    requires s.request.CertificateRequest? && Bookkeeping(settings, s) && Respects(s.request, request)
    ensures Bookkeeping(settings, s.(request := request))
  {
    EditKeepsPhase(s.request, request);
  }

  /** A patch of the shape proved in Lifecycle keeps the books. */
  lemma {:induction false} PatchBookkeeping(
    settings: Settings, s: State, t: State, exit: Exit, p: RequestStatus, i: Inputs, d: Dropped)
    requires s.request.CertificateRequest? && Bookkeeping(settings, s) && PhaseOf(s.request) == Open
    requires CertificateRequestPatch(s.request, exit, p, ChainOf(i, exit), CAOf(settings, i, exit),
                                     CustomOfExit(i, exit), i.now)
    requires t.request == s.request.WithStatus(Apply(s.request.status, p, d)) && (exit.Signed? ==> i.sign.SignOk?)
    requires t.successes == if exit.Signed? then s.successes + [(i.sign.chain, i.sign.ca)] else s.successes
    requires t.failedAt
             == if Fails(exit) || (exit.Initialised? && Has(s.request.status.conditions, Denied, True)) then Some(i.now)
                else s.failedAt
    ensures Bookkeeping(settings, t)
  {
    CertificateRequestApply(s.request, p, d);
    assert s.successes == [];
    var phase := PhaseOf(t.request);
    assert phase == IsIssued <==> exit.Signed?;
    assert phase in {HasFailedForGood, IsDeniedForGood} <==> p.failureTime.Some?;
  }

  /** Over every run of a CertificateRequest that starts untouched. */
  lemma {:induction false} OneSuccessOneCertificate(
    settings: Settings, consumers: set<GroupVersionKind>, s: State, steps: seq<Step>, t: State)
    requires s.request.CertificateRequest? && Bookkeeping(settings, s) && Run(settings, consumers, s, steps, t)
    ensures Bookkeeping(settings, t)
    decreases steps
  {
    if steps != [] {
      BookkeepingStep(settings, consumers, s, steps[0]);
      OneSuccessOneCertificate(settings, consumers, Next(settings, consumers, s, steps[0]), steps[1..], t);
    }
  }

  lemma {:induction false} UntouchedIsInOrder(settings: Settings, r: Request)
    requires r.CertificateRequest? && UniqueTypes(r.status.conditions) && Get(r.status.conditions, Ready).None?
    requires r.status.certificate == [] && r.status.ca == [] && r.status.failureTime.None?
    ensures Bookkeeping(settings, State(r, [], None, 0, 0, 0, 0, [r.status.conditions], []))
  {
    HasIsGet(r.status.conditions, Ready, True);
    HasIsGet(r.status.conditions, Ready, False);
  }

  /*** Bounded retry ***/

  /** A late Sign call that counts finishes the request. */
  lemma {:induction false} LateCallFinishes(settings: Settings, consumers: set<GroupVersionKind>, s: State, step: Step)
    requires UniqueTypes(s.request.status.conditions) && Allowed(s, step)
    ensures var t := Next(settings, consumers, s, step);
            && UniqueTypes(t.request.status.conditions)
            && (t.late > s.late ==> t.late == s.late + 1 && PhaseOf(t.request) != Open)
  {
    if step.Reconcile? {
      var o := Plan(settings, consumers, step.inputs);
      ReconcileRefinesLifecycle(settings, consumers, s.request, step.inputs, step.dropped);
      if IsLate(settings, s.request, step, o.exit) {
        LateExits(settings, consumers, s.request, step.inputs);
      }
    }
  }

  lemma {:induction false} LateExits(settings: Settings, consumers: set<GroupVersionKind>, r: Request, i: Inputs)
    requires i.request == Found(r) && i.now > r.meta.creation + settings.maxRetry
    requires Plan(settings, consumers, i).exit.Signs()
    ensures var o := Plan(settings, consumers, i);
            && PhaseOf(r) == Open
            && !o.exit.WillRetry?
            && (o.exit.Signed? || o.exit.FailedForGood? || o.exit.Expired? ==> o.patch.Some?)
            && (o.exit.Signed? && r.SigningRequest? ==> i.sign.SignOk? && o.patch.value.certificate == i.sign.chain)
  {
    SignsOnlyOpen(settings, consumers, r, i);
  }

  /** At most one Sign call after the deadline counts: a signer that is never pending and never blames the
      issuer is called at most once more with its answer recorded. */
  lemma {:induction false} BoundedRetry(
    settings: Settings, consumers: set<GroupVersionKind>, s: State, steps: seq<Step>, t: State)
    requires UniqueTypes(s.request.status.conditions) && s.late == 0
    requires Run(settings, consumers, s, steps, t)
    ensures t.late <= 1
    decreases steps
  {
    if steps != [] {
      var u := Next(settings, consumers, s, steps[0]);
      LateCallFinishes(settings, consumers, s, steps[0]);
      if u.late == 0 {
        BoundedRetry(settings, consumers, u, steps[1..], t);
      } else {
        FinishedForGood(settings, consumers, u, steps[1..], t);
      }
    }
  }

  /*** Transition time ***/

  /** The conditions of the patch are the given writes, upserted one after the other. */
  ghost predicate Built(r: Request, now: Time, p: RequestStatus, writes: seq<Write>) {
    p.conditions == BuildPatch(now, r.status.conditions, writes)
  }

  lemma {:induction false} OneMoreWrite(
    r: Request, now: Time, p: RequestStatus, writes: seq<Write>, t: ConditionType, s: Status, reason: Reason)
    requires Built(r, now, p, writes)
    ensures Built(r, now, WithCondition(r, p, now, t, s, reason), writes + [Write(t, s, reason, StampFor(r, now))])
  {
    var longer := writes + [Write(t, s, reason, StampFor(r, now))];
    assert longer[..|longer| - 1] == writes;
  }

  /** The patch before the controller's own write: empty, or the custom condition. */
  function BaseOf(r: Request, i: Inputs, exit: Exit): RequestStatus {
    match CustomOfExit(i, exit)
    case Some(c) => CustomPatch(r, EMPTY_STATUS, i.now, c)
    case None => EMPTY_STATUS
  }

  lemma {:induction false} BaseIsBuilt(r: Request, i: Inputs, exit: Exit)
    ensures Built(r, i.now, BaseOf(r, i, exit), CustomWrites(r, i, exit))
  {
    match CustomOfExit(i, exit)
    case Some(c) =>
      OneMoreWrite(r, i.now, EMPTY_STATUS, [], c.ctype, c.status, c.reason);
      assert [] + CustomWrites(r, i, exit) == CustomWrites(r, i, exit);
    case None =>
  }

  /** After the custom condition, the controller writes Ready on a CertificateRequest, and Failed on a
      CertificateSigningRequest that failed. */
  lemma {:induction false} OwnWriteComesLast(
    settings: Settings, consumers: set<GroupVersionKind>, key: IssuerKey, r: Request, i: Inputs)
    requires PlanOwned(settings, consumers, key, r, i).patch.Some?
    ensures var o := PlanOwned(settings, consumers, key, r, i);
            var base, ready := BaseOf(r, i, o.exit), ReadyWritten(r, o.exit);
            o.patch.value.conditions
            == if r.CertificateRequest? then WithCondition(r, base, i.now, Ready, ready.0, ready.1).conditions
               else if o.exit.FailedForGood? || o.exit.Expired? then
                    WithCondition(r, base, i.now, Failed, True, HasFailed).conditions
               else base.conditions
  {
    if InitialPatch(r, i.now).None? && !Waits(i.issuer) && i.sign.SignError? {
      ErrorWriteComesLast(settings, consumers, key, r, i);
    }
  }

  lemma {:induction false} ErrorWriteComesLast(
    settings: Settings, consumers: set<GroupVersionKind>, key: IssuerKey, r: Request, i: Inputs)
    requires i.sign.SignError? && PlanError(settings.maxRetry, consumers, key, r, i.now, i.sign.err).patch.Some?
    ensures var o := PlanError(settings.maxRetry, consumers, key, r, i.now, i.sign.err);
            var base := BaseOf(r, i, o.exit);
            o.patch.value
            == if o.exit.FailedForGood? || o.exit.Expired? then PermanentPatch(r, base, i.now)
               else NotReadyPatch(r, base, i.now)
  {
  }

  /** Every patch consists of its writes, upserted one after the other. */
  lemma {:induction false} PatchIsBuilt(
    settings: Settings, consumers: set<GroupVersionKind>, key: IssuerKey, r: Request, i: Inputs)
    requires PlanOwned(settings, consumers, key, r, i).patch.Some?
    ensures var o := PlanOwned(settings, consumers, key, r, i);
            o.patch.value.conditions == BuildPatch(i.now, r.status.conditions, WritesOf(r, i, o.exit))
  {
    var exit := PlanOwned(settings, consumers, key, r, i).exit;
    OwnWriteComesLast(settings, consumers, key, r, i);
    BaseIsBuilt(r, i, exit);
    var base, writes, ready := BaseOf(r, i, exit), CustomWrites(r, i, exit), ReadyWritten(r, exit);
    OneMoreWrite(r, i.now, base, writes, Ready, ready.0, ready.1);
    OneMoreWrite(r, i.now, base, writes, Failed, True, HasFailed);
    assert writes + [] == writes;
  }

  /** The recorded lists are a history of the Ready condition. */
  ghost predicate Recorded(s: State) {
    && s.request.CertificateRequest?
    && History(s.lists, s.turns, Ready)
    && s.lists[|s.turns|] == s.request.status.conditions
  }

  lemma {:induction false} RecordedStep(settings: Settings, consumers: set<GroupVersionKind>, s: State, step: Step)
    requires Recorded(s) && Allowed(s, step)
    ensures Recorded(Next(settings, consumers, s, step))
  {
    var r := s.request;
    if step.Edit? {
      ExtendHistory(s.lists, s.turns, Ready, step.request.status.conditions, Turn(0, []));
    } else {
      var o := Plan(settings, consumers, step.inputs);
      if o.patch.Some? && step.applied {
        RecordedReconcile(settings, consumers, s, step.inputs, step.dropped);
      }
    }
  }

  lemma {:induction false} RecordedReconcile(
    settings: Settings, consumers: set<GroupVersionKind>, s: State, i: Inputs, d: Dropped)
    requires Recorded(s) && i.request == Found(s.request) && Plan(settings, consumers, i).patch.Some?
    ensures var o := Plan(settings, consumers, i);
            && After(s.request, o, d).CertificateRequest?
            && History(s.lists + [After(s.request, o, d).status.conditions],
                       s.turns + [Turn(i.now, WritesOf(s.request, i, o.exit))], Ready)
  {
    var o := Plan(settings, consumers, i);
    GatesPassed(settings, consumers, s.request, i);
    PatchIsBuilt(settings, consumers, MatchIssuerType(settings.types, s.request).value, s.request, i);
    RecordedPatch(s, i, o.exit, o.patch.value, d);
  }

  lemma {:induction false} RecordedPatch(s: State, i: Inputs, exit: Exit, p: RequestStatus, d: Dropped)
    requires Recorded(s)
    requires p.conditions == BuildPatch(i.now, s.request.status.conditions, WritesOf(s.request, i, exit))
    ensures var next := Apply(s.request.status, p, d).conditions;
            History(s.lists + [next], s.turns + [Turn(i.now, WritesOf(s.request, i, exit))], Ready)
  {
    var turn := Turn(i.now, WritesOf(s.request, i, exit));
    assert Written(turn, Ready).Some?;
    ApplyIsTurn(s.request.status.conditions, turn, d.conditions, Ready);
    ExtendHistory(s.lists, s.turns, Ready, Apply(s.request.status, p, d).conditions, turn);
  }

  /** In every run of a CertificateRequest, the Ready condition dates from the first write of the latest
      unbroken run of equal statuses. */
  lemma {:induction false} ReadySinceIsExact(
    settings: Settings, consumers: set<GroupVersionKind>, s: State, steps: seq<Step>, t: State)
    requires s.request.CertificateRequest? && UniqueTypes(s.request.status.conditions)
    requires Get(s.request.status.conditions, Ready).None?
    requires s.lists == [s.request.status.conditions] && s.turns == []
    requires Run(settings, consumers, s, steps, t)
    ensures DatesFromRunStart(Get(t.request.status.conditions, Ready), t.turns, Ready)
  {
    RecordedRun(settings, consumers, s, steps, t);
    TransitionTimeIsExact(t.lists, t.turns, Ready);
  }

  lemma {:induction false} RecordedRun(
    settings: Settings, consumers: set<GroupVersionKind>, s: State, steps: seq<Step>, t: State)
    requires Recorded(s) && Run(settings, consumers, s, steps, t)
    ensures Recorded(t) && t.lists[0] == s.lists[0]
    decreases steps
  {
    if steps != [] {
      RecordedStep(settings, consumers, s, steps[0]);
      RecordedRun(settings, consumers, Next(settings, consumers, s, steps[0]), steps[1..], t);
    }
  }
}
