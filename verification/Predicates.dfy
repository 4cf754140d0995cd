/** The four update predicates that decide which watch events wake a reconciler
    (controllers/predicates.go), what a filtered event leaves unchanged, and what a whole chain of
    filtered events leaves unchanged. A None argument is a missing or mistyped object.
 */
module Predicates {
  import opened Conditions
  import opened Requests

  /** A condition of `before` that is missing from `after` or has another status there. */
  predicate Changed(c: Condition, after: seq<Condition>) {
    var n := Get(after, c.ctype);
    n.None? || n.value.status != c.status
  }

  predicate CertificateRequestUpdate(before: Option<Request>, after: Option<Request>) {
    if before.None? || after.None? then true
    else if !before.value.CertificateRequest? || !after.value.CertificateRequest? then true
    else
      var o, n := before.value.status.conditions, after.value.status.conditions;
      if |o| != |n| then true
      else if exists c :: c in o && c.ctype != Ready && Changed(c, n) then true
      else before.value.meta.annotations != after.value.meta.annotations
  }

  predicate SigningRequestUpdate(before: Option<Request>, after: Option<Request>) {
    if before.None? || after.None? then true
    else if !before.value.SigningRequest? || !after.value.SigningRequest? then true
    else
      var o, n := before.value.status.conditions, after.value.status.conditions;
      if |o| != |n| then true
      else if exists c :: c in o && Changed(c, n) then true
      else before.value.meta.annotations != after.value.meta.annotations
  }

  /** The predicate of the controller that reconciles requests of this kind. */
  predicate RequestUpdate(before: Request, after: Request) {
    if before.CertificateRequest? then CertificateRequestUpdate(Some(before), Some(after))
    else SigningRequestUpdate(Some(before), Some(after))
  }

  predicate LinkedIssuerUpdate(before: Option<Issuer>, after: Option<Issuer>) {
    if before.None? || after.None? then true
    else
      var o, n := Get(before.value.conditions, Ready), Get(after.value.conditions, Ready);
      if o.None? || n.None? then o.Some? || n.Some?
      else n.value.status != o.value.status || n.value.stamp != o.value.stamp
  }

  predicate IssuerUpdate(before: Option<Issuer>, after: Option<Issuer>) {
    if before.None? || after.None? then true
    else if after.value.generation != before.value.generation then true
    else
      var o, n := Get(before.value.conditions, Ready), Get(after.value.conditions, Ready);
      o.None? != n.None? || before.value.annotations != after.value.annotations
  }

  /*** Lists as maps: counting types ***/

  lemma {:induction false} TypeCount(l: seq<Condition>)
    requires UniqueTypes(l)
    ensures |StatusMap(l)| == |TypesOf(l)| == |l|
  {
    assert StatusMap(l).Keys == TypesOf(l);
    if l != [] {
      TypeCount(l[1..]);
      assert Get(l[1..], l[0].ctype).None?;
    }
  }

  lemma {:induction false} SubsetOfSameSize<T>(a: set<T>, b: set<T>)
    requires a <= b && |a| == |b|
    ensures a == b
  {
    assert |b - a| == |b| - |a|;
  }

  /** Every status of `a`, except that of the skipped types, is the same in `b`. */
  ghost predicate Included(a: map<ConditionType, Status>, b: map<ConditionType, Status>, skip: set<ConditionType>) {
    forall t :: t in a && t !in skip ==> t in b && a[t] == b[t]
  }

  /** Checking the old conditions against the new list is checking maps for inclusion. */
  lemma {:induction false} UnchangedIsInclusion(o: seq<Condition>, n: seq<Condition>)
    requires UniqueTypes(o)
    ensures !(exists c :: c in o && Changed(c, n)) <==> Included(StatusMap(o), StatusMap(n), {})
    ensures !(exists c :: c in o && c.ctype != Ready && Changed(c, n))
            <==> Included(StatusMap(o), StatusMap(n), {Ready})
  {
    forall c | c in o ensures StatusMap(o)[c.ctype] == c.status {
      GetUnique(o, c);
    }
    forall t | t in StatusMap(o)
      ensures Get(o, t).value in o
      ensures Changed(Get(o, t).value, n) <==> !(t in StatusMap(n) && StatusMap(o)[t] == StatusMap(n)[t])
    {
    }
  }

  lemma {:induction false} InclusionOfSameSize(a: map<ConditionType, Status>, b: map<ConditionType, Status>)
    requires |a| == |b| && Included(a, b, {})
    ensures a == b
  {
    assert |a.Keys| == |a| && |b.Keys| == |b|;
    SubsetOfSameSize(a.Keys, b.Keys);
  }

  /** One direction suffices, because unique lists of equal length have equally many types. */
  lemma {:induction false} SigningRequestUpdateExact(before: Request, after: Request)
    requires before.SigningRequest? && after.SigningRequest?
    requires UniqueTypes(before.status.conditions) && UniqueTypes(after.status.conditions)
    ensures !SigningRequestUpdate(Some(before), Some(after))
            <==> StatusMap(before.status.conditions) == StatusMap(after.status.conditions)
                 && before.meta.annotations == after.meta.annotations
  {
    var o, n := before.status.conditions, after.status.conditions;
    TypeCount(o);
    TypeCount(n);
    UnchangedIsInclusion(o, n);
    if |o| == |n| && Included(StatusMap(o), StatusMap(n), {}) {
      InclusionOfSameSize(StatusMap(o), StatusMap(n));
    }
  }

  /** The one change outside Ready that the CertificateRequest predicate misses: Ready is replaced by
      one condition of a new type. */
  ghost predicate ReadyReplaced(a: map<ConditionType, Status>, b: map<ConditionType, Status>) {
    && Ready in a
    && Ready !in b
    && exists t :: t !in a && t in b && b - {t} == a - {Ready}
  }

  ghost predicate SameOutsideReady(a: map<ConditionType, Status>, b: map<ConditionType, Status>) {
    (Ready in a <==> Ready in b) && a - {Ready} == b - {Ready}
  }

  lemma {:induction false} CertificateRequestUpdateExact(before: Request, after: Request)
    requires before.CertificateRequest? && after.CertificateRequest?
    requires UniqueTypes(before.status.conditions) && UniqueTypes(after.status.conditions)
    ensures var a, b := StatusMap(before.status.conditions), StatusMap(after.status.conditions);
            !CertificateRequestUpdate(Some(before), Some(after))
            <==> before.meta.annotations == after.meta.annotations && (SameOutsideReady(a, b) || ReadyReplaced(a, b))
  {
    var o, n := before.status.conditions, after.status.conditions;
    TypeCount(o);
    TypeCount(n);
    UnchangedIsInclusion(o, n);
    InclusionOutsideReady(StatusMap(o), StatusMap(n));
  }

  lemma {:induction false} InclusionOutsideReady(a: map<ConditionType, Status>, b: map<ConditionType, Status>)
    ensures |a| == |b| && Included(a, b, {Ready}) <==> SameOutsideReady(a, b) || ReadyReplaced(a, b)
  {
    if |a| == |b| && Included(a, b, {Ready}) {
      if Ready !in a || Ready in b {
        assert |a.Keys| == |b.Keys|;
        SubsetOfSameSize(a.Keys, b.Keys);
        assert a - {Ready} == b - {Ready};
      } else {
        ExtraType(a, b);
      }
    }
    if SameOutsideReady(a, b) {
      InclusionAgain(a, b, Ready);
    } else if ReadyReplaced(a, b) {
      var t :| t !in a && t in b && b - {t} == a - {Ready};
      InclusionAgain(a, b, t);
    }
  }

  lemma {:induction false} ExtraType(a: map<ConditionType, Status>, b: map<ConditionType, Status>)
    requires |a| == |b| && Included(a, b, {Ready}) && Ready in a && Ready !in b
    ensures ReadyReplaced(a, b)
  {
    var kept := a.Keys - {Ready};
    assert |a.Keys| == |b.Keys| && kept <= b.Keys;
    var extra := b.Keys - kept;
    assert |kept| == |a.Keys| - 1 && |extra| == |b.Keys| - |kept|;
    var t :| t in extra;
    SubsetOfSameSize({t}, extra);
    assert b.Keys - {t} == kept;
    assert b - {t} == a - {Ready};
  }

  lemma {:induction false} InclusionAgain(
    a: map<ConditionType, Status>, b: map<ConditionType, Status>, t: ConditionType)
    requires b - {t} == a - {Ready} && (t in b <==> Ready in a)
    ensures |a| == |b| && Included(a, b, {Ready})
  {
    Without(a, Ready);
    Without(b, t);
  }

  lemma {:induction false} Without(m: map<ConditionType, Status>, t: ConditionType)
    ensures |m| == |m - {t}| + (if t in m then 1 else 0)
    ensures forall u :: u in m && u != t ==> u in m - {t} && (m - {t})[u] == m[u]
    ensures forall u :: u in m - {t} ==> u in m && (m - {t})[u] == m[u]
  {
    var n := m - {t};
    assert n.Keys == m.Keys - {t};
    assert |n.Keys| == |n| && |m.Keys| == |m|;
  }

  /** Helper: a missing or mistyped object always passes. */
  lemma {:induction false} WrongObjectsPass(before: Option<Request>, after: Option<Request>)
    ensures !CertificateRequestUpdate(before, after) ==>
              before.Some? && before.value.CertificateRequest? && after.Some? && after.value.CertificateRequest?
    ensures !SigningRequestUpdate(before, after) ==>
              before.Some? && before.value.SigningRequest? && after.Some? && after.value.SigningRequest?
  {
  }

  /** What a linked request sees of an issuer. */
  function ReadyView(issuer: Issuer): Option<(Status, int)> {
    var ready := Get(issuer.conditions, Ready);
    if ready.Some? then Some((ready.value.status, ready.value.stamp)) else None
  }

  /** Helper: what the predicate for linked issuers compares. */
  lemma {:induction false} LinkedIssuerUpdateExact(before: Option<Issuer>, after: Option<Issuer>)
    ensures !LinkedIssuerUpdate(before, after)
            <==> before.Some? && after.Some? && ReadyView(before.value) == ReadyView(after.value)
  {
  }

  /** Helper: what the predicate for issuers compares. */
  lemma {:induction false} IssuerUpdateExact(before: Option<Issuer>, after: Option<Issuer>)
    ensures !IssuerUpdate(before, after)
            <==> && before.Some? && after.Some?
                 && before.value.generation == after.value.generation
                 && before.value.annotations == after.value.annotations
                 && ReadyView(before.value).Some? == ReadyView(after.value).Some?
  {
  }

  /*** Chains of filtered events ***/

  ghost predicate SameKind(a: Request, b: Request) {
    a.CertificateRequest? <==> b.CertificateRequest?
  }

  ghost predicate WellFormed(log: seq<Request>) {
    forall i :: 0 <= i < |log| ==> UniqueTypes(log[i].status.conditions) && SameKind(log[0], log[i])
  }

  /** The update that made version k passes its controller's predicate. */
  predicate Passes(log: seq<Request>, k: int)
    requires 0 < k < |log|
  {
    RequestUpdate(log[k - 1], log[k])
  }

  /** No update from version i to version j passes. */
  ghost predicate Silent(log: seq<Request>, i: int, j: int)
    requires 0 <= i <= j < |log|
  {
    forall k :: i < k <= j ==> !Passes(log, k)
  }

  /** What a silent chain keeps. For a CertificateRequest, Ready is never added, and as long as it is
      not removed the statuses outside it stay equal. */
  lemma {:induction false} SilentChain(log: seq<Request>, i: int, j: int)
    requires 0 <= i <= j < |log| && WellFormed(log) && Silent(log, i, j)
    ensures var first, last := log[i], log[j];
            var o, n := first.status.conditions, last.status.conditions;
            && first.meta.annotations == last.meta.annotations
            && (first.SigningRequest? ==> StatusMap(o) == StatusMap(n))
            && (first.CertificateRequest? ==>
                  && (Ready in TypesOf(n) ==> Ready in TypesOf(o))
                  && ((Ready in TypesOf(n) <==> Ready in TypesOf(o)) ==> SameOutsideReady(StatusMap(o), StatusMap(n))))
    decreases j
  {
    if i < j {
      SilentChain(log, i, j - 1);
      assert !Passes(log, j);
      if log[0].CertificateRequest? {
        CertificateRequestUpdateExact(log[j - 1], log[j]);
      } else {
        SigningRequestUpdateExact(log[j - 1], log[j]);
      }
    }
  }

  /** A silent chain of updates of the linked issuer leaves a waiting request waiting. */
  lemma {:induction false} LinkedSilenceKeepsWaiting(log: seq<Issuer>)
    requires |log| > 0
    requires forall i :: 0 < i < |log| ==> log[i - 1].generation <= log[i].generation
    requires forall i :: 0 < i < |log| ==> !LinkedIssuerUpdate(Some(log[i - 1]), Some(log[i]))
    ensures log[0].NotReadyFor() ==> log[|log| - 1].NotReadyFor()
  {
    var k := |log| - 1;
    if k > 0 {
      LinkedSilenceKeepsWaiting(log[..k]);
      assert !LinkedIssuerUpdate(Some(log[k - 1]), Some(log[k]));
    }
  }

  /** A silent chain of updates of the issuer itself never makes an initialised, up-to-date issuer
      need initialising or rechecking. */
  lemma {:induction false} IssuerSilenceKeepsUpToDate(log: seq<Issuer>)
    requires |log| > 0
    requires forall i :: 0 < i < |log| ==> !IssuerUpdate(Some(log[i - 1]), Some(log[i]))
    requires forall i :: 0 < i < |log| && Get(log[i - 1].conditions, Ready).Some? && Get(log[i].conditions, Ready).Some?
               ==> Get(log[i - 1].conditions, Ready).value.stamp <= Get(log[i].conditions, Ready).value.stamp
    ensures var first, last := Get(log[0].conditions, Ready), Get(log[|log| - 1].conditions, Ready);
            && (first.Some? <==> last.Some?)
            && log[0].annotations == log[|log| - 1].annotations
            && (first.Some? && first.value.stamp >= log[0].generation ==> last.value.stamp >= log[|log| - 1].generation)
  {
    var k := |log| - 1;
    if k > 0 {
      IssuerSilenceKeepsUpToDate(log[..k]);
      assert !IssuerUpdate(Some(log[k - 1]), Some(log[k]));
      assert log[..k][k - 1] == log[k - 1];
    }
  }
}
