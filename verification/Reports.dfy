/** What becomes of a report on the issuer's side: when the reconcile that consumed it uses it, and which
    updates then wake the linked requests.
 */
module Reports {
  import opened Conditions
  import opened ControllerRuntime
  import opened IssuerController
  import opened Predicates
  import opened Requests
  import opened ServerSideApply
  import opened SignerErrors

  /** The issuer was found with Ready=True, and no hook holds the reconcile back. */
  predicate UsesReport(i: Inputs) {
    && i.issuer.Found?
    && (i.hook == NoHook || i.hook == HookSays(false))
    && Get(i.issuer.value.conditions, Ready).Some?
    && Get(i.issuer.value.conditions, Ready).value.status == True
  }

  /** A consumed report decides the status exactly when it is used; otherwise the reconcile does what it
      would have done without the report, which is gone. */
  lemma {:induction false} ReportDecidesExactly(i: Inputs, e: Error)
    ensures var o := Plan(i, Some(e));
            && (UsesReport(i) <==> !o.calledCheck && o.patch.Some?
                                    && o.patch.value != [] && o.patch.value[0].status == False)
            && (!UsesReport(i) ==> o == Plan(i, None))
            && (UsesReport(i) ==>
                  o.patch.value[0].reason == if PermanentErr in Kinds(e) then HasFailed else Pending)
  {
    AsFindsKinds(e, PermanentErr);
  }

  /** The issuer after a status patch was applied to its latest stored version. */
  function Updated(stored: Issuer, patch: seq<Condition>, dropped: set<ConditionType>): Issuer {
    stored.(conditions := Merge(stored.conditions, patch, dropped))
  }

  /** A status patch wakes the linked requests exactly when the stored Ready condition had another status
      or was stamped with another generation than the one read. */
  lemma {:induction false} PatchWakesExactly(
    i: Inputs, reported: Option<Error>, read: Issuer, stored: Issuer, dropped: set<ConditionType>)
    requires i.issuer == Found(read) && Plan(i, reported).patch.Some?
    ensures var p := Plan(i, reported).patch.value;
            && p != []
            && (LinkedIssuerUpdate(Some(stored), Some(Updated(stored, p, dropped)))
                <==> ReadyView(stored) != Some((p[0].status, read.generation)))
  {
    var p := Plan(i, reported).patch.value;
    assert p == [p[0]] && p[0].ctype == Ready && p[0].stamp == read.generation;
    assert Get(p, Ready) == Some(p[0]);
    MergeIsKeyed(stored.conditions, p, dropped, Ready);
    LinkedIssuerUpdateExact(Some(stored), Some(Updated(stored, p, dropped)));
  }

  /** The update of a used report always passes on a stored Ready=True. */
  lemma {:induction false} UsedReportWakes(i: Inputs, e: Error, stored: Issuer, dropped: set<ConditionType>)
    requires UsesReport(i) && Get(stored.conditions, Ready).Some? && Get(stored.conditions, Ready).value.status == True
    ensures Plan(i, Some(e)).patch.Some?
    ensures LinkedIssuerUpdate(Some(stored), Some(Updated(stored, Plan(i, Some(e)).patch.value, dropped)))
  {
    ReportDecidesExactly(i, e);
    PatchWakesExactly(i, Some(e), i.issuer.value, stored, dropped);
  }

  /** The reconcile that consumes a report, and finds the stored issuer or nothing, wakes the requests of an issuer
      that is Ready exactly when it uses the report; otherwise it goes on as without it. A later reconcile whose
      Check succeeds wakes nobody, so an unused report has vanished. */
  lemma {:induction false} ConsumedReportWakesExactly(
    first: Inputs, e: Error, later: Inputs, stored: Issuer, dropped: set<ConditionType>)
    requires ReadyView(stored) == Some((True, stored.generation))
    requires first.issuer.Found? ==> first.issuer.value == stored
    requires later.issuer == Found(stored) && (later.hook == NoHook || later.hook == HookSays(false))
    requires later.check.None?
    ensures var o := Plan(first, Some(e));
            o.patch.Some? && LinkedIssuerUpdate(Some(stored), Some(Updated(stored, o.patch.value, dropped)))
            <==> UsesReport(first)
    ensures !UsesReport(first) ==> Plan(first, Some(e)) == Plan(first, None)
    ensures var retry := Plan(later, None);
            && retry.calledCheck && retry.patch.Some?
            && !LinkedIssuerUpdate(Some(stored), Some(Updated(stored, retry.patch.value, dropped)))
  {
    ReportDecidesExactly(first, e);
    if UsesReport(first) {
      UsedReportWakes(first, e, stored, dropped);
    }
    PatchWakesExactly(later, None, stored, stored, dropped);
  }
}
