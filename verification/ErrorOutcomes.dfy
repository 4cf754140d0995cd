/** What an error of Sign leads to, on the request and on the issuer, for arbitrarily nested errors. */
module ErrorOutcomes {
  import opened Conditions
  import opened ControllerRuntime
  import opened ErrorPaths
  import opened IssuerTypes
  import opened Lifecycle
  import opened Patches
  import opened Requests
  import opened Requirements
  import opened SignerErrors
  import IssuerController
  import opened RequestController

  datatype Verdict = BlameIssuer | KeepPending | FailNow | FailLate | TryAgain

  /** The documented precedence: issuer, pending, permanent, deadline, retry. */
  ghost function Judge(kinds: set<Kind>, late: bool): Verdict {
    if IssuerErr in kinds then BlameIssuer
    else if PendingErr in kinds then KeepPending
    else if PermanentErr in kinds then FailNow
    else if late then FailLate
    else TryAgain
  }

  function VerdictOf(exit: Exit): Option<Verdict> {
    match exit
    case Reported(_, _) => Some(BlameIssuer)
    case ReportRefused => Some(BlameIssuer)
    case StillPending => Some(KeepPending)
    case FailedForGood => Some(FailNow)
    case Expired => Some(FailLate)
    case WillRetry => Some(TryAgain)
    case _ => None
  }

  /** The outcome depends only on which kinds of wrappers occur, wherever they are. */
  lemma {:induction false} OutcomeDependsOnKinds(
    maxRetry: int, consumers: set<GroupVersionKind>, key: IssuerKey, r: Request, now: Time, e: Error)
    ensures VerdictOf(PlanError(maxRetry, consumers, key, r, now, Inspect(e)).exit)
            == Some(Judge(Kinds(e), now > r.meta.creation + maxRetry))
  {
    InspectFindsKinds(e);
  }

  /** A reported error fails a Ready issuer permanently exactly when a permanent error occurs inside the outermost
      issuer error; otherwise the issuer is retried. Check is not asked either way. */
  lemma {:induction false} ReportFailsIssuerExactly(
    maxRetry: int, consumers: set<GroupVersionKind>, key: IssuerKey, r: Request, now: Time, e: Error,
    issuer: Issuer, i: IssuerController.Inputs)
    requires PlanError(maxRetry, consumers, key, r, now, Inspect(e)).exit.Reported?
    requires i.issuer == Found(issuer) && (i.hook == NoHook || i.hook == HookSays(false))
    requires Get(issuer.conditions, Ready).Some? && Get(issuer.conditions, Ready).value.status == True
    ensures exists p :: IsOutermost(e, p, IssuerErr)
                        && PlanError(maxRetry, consumers, key, r, now, Inspect(e)).exit
                           == Reported(key, At(e, p).value.err)
                        && var o := IssuerController.Plan(i, Some(At(e, p).value.err));
                           && !o.calledCheck
                           && o.exit == if Contains(At(e, p).value.err, PermanentErr)
                                        then IssuerController.FailedForGood
                                        else IssuerController.WillRetry
  {
    PayloadIsOutermost(e);
    AsFindsKinds(e, IssuerErr);
    var p := AsIsOutermost(e, IssuerErr);
    AsFindsKinds(At(e, p).value.err, PermanentErr);
    KindsAreThoseThatOccur(At(e, p).value.err, PermanentErr);
  }

  /*** Which reconciles are repeated, in terms of what they are given ***/

  /** The request is one to work on: ours, approved and open. */
  predicate PassesGates(s: Settings, r: Request) {
    MatchIssuerType(s.types, r).Some? && (r.IsApproved() || r.IsDenied()) && !r.IsTerminal()
  }

  /** The request is initialised, and its issuer is there, ready and current. */
  predicate ReachesSign<E>(r: Request, i: InputsOf<E>) {
    InitialPatch(r, i.now).None? && i.issuer.Found? && !i.issuer.value.NotReadyFor()
  }

  /** The outermost condition error asks for a status that the first condition of its type, if there is one, does
      not have. */
  ghost predicate AsksForChange(r: Request, e: Error) {
    exists p :: IsOutermost(e, p, ConditionErr)
                && var c := At(e, p).value.custom;
                   forall k :: IsFirst(r.status.conditions, k, c.ctype) ==> r.status.conditions[k].status != c.status
  }

  lemma {:induction false} SkipsExactly(r: Request, e: Error)
    ensures SkipsRequeue(r, Inspect(e)) <==> AsksForChange(r, e)
  {
    CustomIsOutermost(e);
    AsFindsKinds(e, ConditionErr);
    if As(e, ConditionErr).Some? {
      var p := AsIsOutermost(e, ConditionErr);
      TransitionsExactly(r, At(e, p).value.custom);
      forall q | IsOutermost(e, q, ConditionErr) ensures q == p {
        OutermostIsUnique(e, p, q, ConditionErr);
      }
    }
  }

  /** The last word, which is returned as a terminal error: neither the issuer's fault nor pending, and
      permanent, late, left to the update that the custom condition makes, or terminal in itself. */
  predicate IsLastWord(kinds: set<Kind>, late: bool, asksForChange: bool) {
    && IssuerErr !in kinds && PendingErr !in kinds
    && (PermanentErr in kinds || late || asksForChange || TerminalErr in kinds)
  }

  ghost predicate HasLastWord(s: Settings, r: Request, e: Error, now: Time) {
    IsLastWord(Kinds(e), now > r.meta.creation + s.maxRetry, AsksForChange(r, e))
  }

  /** An error of Sign after which the request is requeued. */
  ghost predicate AsksForRepeat(s: Settings, consumers: set<GroupVersionKind>, r: Request, e: Error, now: Time)
    requires MatchIssuerType(s.types, r).Some?
  {
    if IssuerErr in Kinds(e) then MatchIssuerType(s.types, r).value.gvk !in consumers
    else !AsksForChange(r, e) && !HasLastWord(s, r, e, now)
  }

  ghost predicate AsksForReconcile(s: Settings, consumers: set<GroupVersionKind>, i: InputsOf<Error>) {
    || i.request.ReadError?
    || (i.request.Found?
        && var r := i.request.value;
           && MatchIssuerType(s.types, r).Some? && Shows(r.status.conditions, Approved, True) && HasNoVerdict(r)
           && (|| i.hook.HookError?
               || (i.hook != HookSays(true) && !NeedsInitialising(r)
                   && (|| i.issuer.ReadError?
                       || (i.issuer.Found? && IsCurrent(i.issuer.value) && i.sign.SignError?
                           && AsksForRepeat(s, consumers, r, i.sign.err, i.now))))))
  }

  /** A reconcile whose patch is not lost is repeated exactly when its inputs ask for it. */
  lemma {:induction false} RepeatedExactly(s: Settings, consumers: set<GroupVersionKind>, i: InputsOf<Error>)
    ensures var o := Plan(s, consumers, Inspected(i));
            ComesBack(o.requeue, o.error) <==> AsksForReconcile(s, consumers, i)
  {
    if i.request.Found? {
      TestsReadTheStatus(i.request.value);
      InitialisesExactly(i.request.value, i.now);
    }
    if i.issuer.Found? {
      ReadyForExactly(i.issuer.value);
    }
    if i.request.Found? && PassesGates(s, i.request.value) && !i.hook.HookError? && i.hook != HookSays(true) {
      OwnedIsRepeatedExactly(s, consumers, i.request.value, i);
    }
  }

  lemma {:induction false} OwnedIsRepeatedExactly(
    s: Settings, consumers: set<GroupVersionKind>, r: Request, i: InputsOf<Error>)
    requires MatchIssuerType(s.types, r).Some?
    ensures var o := PlanOwned(s, consumers, MatchIssuerType(s.types, r).value, r, Inspected(i));
            ComesBack(o.requeue, o.error)
            <==> InitialPatch(r, i.now).None?
                 && (|| i.issuer.ReadError?
                     || (ReachesSign(r, i) && i.sign.SignError? && AsksForRepeat(s, consumers, r, i.sign.err, i.now)))
  {
    if ReachesSign(r, i) && i.sign.SignError? {
      RepeatedAfterError(s, consumers, r, i.sign.err, i.now);
    }
  }

  lemma {:induction false} RepeatedAfterError(
    s: Settings, consumers: set<GroupVersionKind>, r: Request, e: Error, now: Time)
    requires MatchIssuerType(s.types, r).Some?
    ensures var o := PlanError(s.maxRetry, consumers, MatchIssuerType(s.types, r).value, r, now, Inspect(e));
            && (ComesBack(o.requeue, o.error) <==> AsksForRepeat(s, consumers, r, e, now))
            && (o.error.TerminalError? <==> HasLastWord(s, r, e, now))
  {
    InspectFindsKinds(e);
    SkipsExactly(r, e);
  }

  /** A lost patch is retried exactly unless Sign was reached and its error is the last word: then the
      terminal error hides the loss. */
  lemma {:induction false} LostPatchIsRetriedExactly(
    s: Settings, consumers: set<GroupVersionKind>, r: Request, i: InputsOf<Error>, applied: Applied)
    requires i.request == Found(r) && Plan(s, consumers, Inspected(i)).patch.Some?
    requires applied == NotEncoded || applied == Rejected
    ensures var (requeue, error) := Finish(Plan(s, consumers, Inspected(i)), applied);
            ComesBack(requeue, error)
            <==> !(&& !NeedsInitialising(r) && i.issuer.Found? && IsCurrent(i.issuer.value)
                   && i.sign.SignError? && HasLastWord(s, r, i.sign.err, i.now))
  {
    InitialisesExactly(r, i.now);
    if i.issuer.Found? {
      ReadyForExactly(i.issuer.value);
    }
    GatesPassed(s, consumers, r, Inspected(i));
    OwnedIsTerminalExactly(s, consumers, r, i);
    AggregateIsTerminalExactly(Plan(s, consumers, Inspected(i)).error);
  }

  /** A patch that finds no request any more is not lost: the result is that of the reconcile itself. */
  lemma {:induction false} GoneIsNotLost(o: Outcome, applied: Applied)
    requires applied == Accepted || applied == ObjectGone
    ensures Finish(o, applied) == (o.requeue, o.error)
  {
  }

  lemma {:induction false} OwnedIsTerminalExactly(
    s: Settings, consumers: set<GroupVersionKind>, r: Request, i: InputsOf<Error>)
    requires MatchIssuerType(s.types, r).Some?
    ensures var o := PlanOwned(s, consumers, MatchIssuerType(s.types, r).value, r, Inspected(i));
            && !o.error.Aggregate?
            && (o.error.TerminalError?
                <==> ReachesSign(r, i) && i.sign.SignError? && HasLastWord(s, r, i.sign.err, i.now))
  {
    if ReachesSign(r, i) && i.sign.SignError? {
      RepeatedAfterError(s, consumers, r, i.sign.err, i.now);
    }
  }

  lemma {:induction false} AggregateIsTerminalExactly(e: Returned)
    requires !e.Aggregate?
    ensures ComesBack(false, Aggregate([RetryError, e])) <==> !e.TerminalError?
  {
    var both := Aggregate([RetryError, e]);
    assert both.errs[1] == e;
    assert IsTerminalError(both) <==> IsTerminalError(e);
  }
}
