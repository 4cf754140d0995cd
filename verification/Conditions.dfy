/** Status condition lists and the keyed upsert that every controller writes through
    (conditions/issuer.go, conditions/certificaterequest.go, conditions/certificatesigningrequest.go).

    The three upserts of the source differ only in one extra field, here `stamp`: the observed
    generation of an issuer condition, the last update time of a CertificateSigningRequest
    condition, and 0 for a CertificateRequest condition, which has neither.
 */
module Conditions {

  datatype Option<+T> = None | Some(value: T)

  type Time = int

  datatype Status = True | False | Unknown

  datatype ConditionType = Ready | Approved | Denied | Failed | Custom(name: string)

  datatype Reason =
    | Initializing
    | Pending
    | Checked
    | Issued
    | HasFailed
    | WasDenied
    | OtherReason(name: string)

  datatype Condition = Condition(
    ctype: ConditionType,
    status: Status,
    reason: Reason,
    lastTransition: Option<Time>,
    stamp: int)

  ghost predicate UniqueTypes(l: seq<Condition>) {
    forall i, j :: 0 <= i < j < |l| ==> l[i].ctype != l[j].ctype
  }

  function TypesOf(l: seq<Condition>): (types: set<ConditionType>)
    ensures forall c :: c in l ==> c.ctype in types
  {
    if l == [] then {}
    else
      assert forall c :: c in l ==> c == l[0] || c in l[1..];
      {l[0].ctype} + TypesOf(l[1..])
  }

  /** The first condition of a type. */
  function Get(l: seq<Condition>, t: ConditionType): (r: Option<Condition>)
    ensures r.Some? ==> r.value in l && r.value.ctype == t
    ensures r.None? <==> t !in TypesOf(l)
  {
    if l == [] then None
    else if l[0].ctype == t then Some(l[0])
    else Get(l[1..], t)
  }

  /** What a list means to a reader: one status per type. */
  ghost function StatusMap(l: seq<Condition>): map<ConditionType, Status> {
    map t | t in TypesOf(l) :: Get(l, t).value.status
  }

  /** Some condition of a type has the status. */
  predicate Has(l: seq<Condition>, t: ConditionType, s: Status) {
    l != [] && ((l[0].ctype == t && l[0].status == s) || Has(l[1..], t, s))
  }

  predicate HasWithReason(l: seq<Condition>, t: ConditionType, s: Status, reason: Reason) {
    l != [] && ((l[0].ctype == t && l[0].status == s && l[0].reason == reason) || HasWithReason(l[1..], t, s, reason))
  }

  /** Position k holds the first condition of the type. */
  ghost predicate IsFirst(l: seq<Condition>, k: int, t: ConditionType) {
    0 <= k < |l| && l[k].ctype == t && forall j :: 0 <= j < k ==> l[j].ctype != t
  }

  /** A search for a type finds the first condition of it, and nothing exactly when there is none. */
  lemma {:induction false} GetIsFirst(l: seq<Condition>, t: ConditionType)
    ensures forall k :: IsFirst(l, k, t) ==> Get(l, t) == Some(l[k])
    ensures Get(l, t).None? <==> forall c :: c in l ==> c.ctype != t
  {
    if l != [] {
      GetIsFirst(l[1..], t);
      forall k | IsFirst(l, k, t) ensures Get(l, t) == Some(l[k]) {
        if k > 0 {
          assert l[0].ctype != t;
          assert forall j :: 0 <= j < k - 1 ==> l[1..][j] == l[j + 1];
          assert IsFirst(l[1..], k - 1, t);
        }
      }
      assert forall c :: c in l <==> c == l[0] || c in l[1..];
    }
  }

  /** A search for a status, or for a status and reason, looks at every condition of the list. */
  lemma {:induction false} HasLooksEverywhere(l: seq<Condition>, t: ConditionType, s: Status)
    ensures Has(l, t, s) <==> exists c :: c in l && c.ctype == t && c.status == s
    ensures forall r :: HasWithReason(l, t, s, r)
                        <==> exists c :: c in l && c.ctype == t && c.status == s && c.reason == r
  {
    if l != [] {
      HasLooksEverywhere(l[1..], t, s);
      assert forall c :: c in l <==> c == l[0] || c in l[1..];
    }
  }

  /** With unique types a search through the whole list sees only the first match. */
  lemma {:induction false} GetUnique(l: seq<Condition>, c: Condition)
    requires UniqueTypes(l) && c in l
    ensures Get(l, c.ctype) == Some(c)
  {
    if l[0] != c {
      var i :| 0 <= i < |l| && l[i] == c;
      assert l[0].ctype != l[i].ctype;
      assert l[1..][i - 1] == c;
      GetUnique(l[1..], c);
    }
  }

  lemma {:induction false} HasIsGet(l: seq<Condition>, t: ConditionType, s: Status)
    requires UniqueTypes(l)
    ensures Has(l, t, s) <==> Get(l, t).Some? && Get(l, t).value.status == s
    ensures forall r :: HasWithReason(l, t, s, r)
                        <==> Get(l, t).Some? && Get(l, t).value.status == s && Get(l, t).value.reason == r
  {
    if l != [] {
      HasIsGet(l[1..], t, s);
      if l[0].ctype == t {
        assert Get(l[1..], t).None?;
      }
    }
  }

  /*** The upsert ***/

  /** The transition time of a new condition: that of the last existing condition of the same type
      and status, or now when there is none. */
  function TransitionTime(now: Time, existing: seq<Condition>, t: ConditionType, s: Status): Option<Time> {
    if existing == [] then Some(now)
    else
      var c := existing[|existing| - 1];
      if c.ctype == t && c.status == s then c.lastTransition
      else TransitionTime(now, existing[..|existing| - 1], t, s)
  }

  /** Position k holds the last condition of the type that has the status. */
  ghost predicate IsLast(l: seq<Condition>, k: int, t: ConditionType, s: Status) {
    && 0 <= k < |l| && l[k].ctype == t && l[k].status == s
    && forall j :: k < j < |l| ==> l[j].ctype != t || l[j].status != s
  }

  lemma {:induction false} TransitionTimeIsLast(now: Time, l: seq<Condition>, t: ConditionType, s: Status)
    ensures forall k :: IsLast(l, k, t, s) ==> TransitionTime(now, l, t, s) == l[k].lastTransition
    ensures (forall c :: c in l ==> c.ctype != t || c.status != s) ==> TransitionTime(now, l, t, s) == Some(now)
  {
    forall k | IsLast(l, k, t, s) ensures TransitionTime(now, l, t, s) == l[k].lastTransition {
      TransitionTimeAt(now, l, t, s, k);
    }
    if forall c :: c in l ==> c.ctype != t || c.status != s {
      TransitionTimeIsNow(now, l, t, s);
    }
  }

  lemma {:induction false} TransitionTimeAt(now: Time, l: seq<Condition>, t: ConditionType, s: Status, k: int)
    requires IsLast(l, k, t, s)
    ensures TransitionTime(now, l, t, s) == l[k].lastTransition
  {
    var n := |l| - 1;
    if k < n {
      assert l[n].ctype != t || l[n].status != s;
      TransitionTimeAt(now, l[..n], t, s, k);
    }
  }

  lemma {:induction false} TransitionTimeIsNow(now: Time, l: seq<Condition>, t: ConditionType, s: Status)
    requires forall c :: c in l ==> c.ctype != t || c.status != s
    ensures TransitionTime(now, l, t, s) == Some(now)
  {
    if l != [] {
      var n := |l| - 1;
      assert l[n] in l;
      TransitionTimeIsNow(now, l[..n], t, s);
    }
  }

  function NewCondition(
    now: Time, existing: seq<Condition>, t: ConditionType, s: Status, reason: Reason, stamp: int): Condition {
    Condition(t, s, reason, TransitionTime(now, existing, t, s), stamp)
  }

  function Upsert(l: seq<Condition>, c: Condition): seq<Condition> {
    if l == [] then [c]
    else if l[0].ctype == c.ctype then [c] + l[1..]
    else [l[0]] + Upsert(l[1..], c)
  }

  method SetStatusCondition(
    now: Time, existing: seq<Condition>, patch: seq<Condition>,
    t: ConditionType, s: Status, reason: Reason, stamp: int)
    returns (updated: seq<Condition>, condition: Condition, updatedAt: Time)
    ensures condition == NewCondition(now, existing, t, s, reason, stamp)
    ensures (condition.ctype, condition.status, condition.reason, condition.stamp) == (t, s, reason, stamp)
    ensures forall k :: IsLast(existing, k, t, s) ==> condition.lastTransition == existing[k].lastTransition
    ensures (forall c :: c in existing ==> c.ctype != t || c.status != s) ==> condition.lastTransition == Some(now)
    ensures updated == Upsert(patch, condition)
    ensures updatedAt == now
  {
    TransitionTimeIsLast(now, existing, t, s);
    updatedAt := now;
    condition := Condition(t, s, reason, Some(now), stamp);
    for i := 0 to |existing|
      invariant condition == NewCondition(now, existing[..i], t, s, reason, stamp)
    {
      assert existing[..i + 1][..i] == existing[..i];
      if existing[i].ctype == t && existing[i].status == s {
        condition := condition.(lastTransition := existing[i].lastTransition);
      }
    }
    assert existing[..|existing|] == existing;
    updated := OverwriteOrAppend(patch, condition);
  }

  /** The second loop of the upsert. */
  method OverwriteOrAppend(patch: seq<Condition>, condition: Condition) returns (updated: seq<Condition>)
    ensures updated == Upsert(patch, condition)
  {
    for i := 0 to |patch|
      invariant Upsert(patch, condition) == patch[..i] + Upsert(patch[i..], condition)
    {
      if patch[i].ctype == condition.ctype {
        updated := patch[i := condition];
        assert updated == patch[..i] + ([condition] + patch[i..][1..]);
        return;
      }
      assert patch[i..] == [patch[i]] + patch[i + 1..];
      assert patch[..i + 1] + Upsert(patch[i + 1..], condition)
             == patch[..i] + ([patch[i]] + Upsert(patch[i + 1..], condition));
    }
    updated := patch + [condition];
  }

  /** An upsert overwrites the first condition of its type in place, or appends. */
  lemma {:induction false} UpsertInPlace(l: seq<Condition>, c: Condition)
    ensures c.ctype !in TypesOf(l) ==> Upsert(l, c) == l + [c]
    ensures c.ctype in TypesOf(l) ==>
              exists k :: 0 <= k < |l| && l[k].ctype == c.ctype && Upsert(l, c) == l[k := c]
                          && forall i :: 0 <= i < k ==> l[i].ctype != c.ctype
  {
    if l != [] && l[0].ctype != c.ctype {
      var rest := l[1..];
      UpsertInPlace(rest, c);
      if c.ctype in TypesOf(rest) {
        var k :| 0 <= k < |rest| && rest[k].ctype == c.ctype && Upsert(rest, c) == rest[k := c]
                 && forall i :: 0 <= i < k ==> rest[i].ctype != c.ctype;
        assert l[k + 1] == rest[k];
        assert Upsert(l, c) == l[k + 1 := c];
        assert forall i :: 1 <= i < k + 1 ==> l[i] == rest[i - 1];
      } else {
        assert forall d :: d in l <==> d == l[0] || d in rest;
      }
    } else if l != [] {
      assert Upsert(l, c) == l[0 := c];
    }
  }

  lemma {:induction false} UpsertGet(l: seq<Condition>, c: Condition, t: ConditionType)
    ensures Get(Upsert(l, c), t) == if t == c.ctype then Some(c) else Get(l, t)
  {
    if l != [] && l[0].ctype != c.ctype {
      UpsertGet(l[1..], c, t);
      assert Upsert(l, c)[1..] == Upsert(l[1..], c);
    } else if l != [] {
      assert Upsert(l, c)[1..] == l[1..];
    }
  }

  /** An upsert is a map update: every other type keeps its condition and its place. */
  lemma {:induction false} UpsertIsMapUpdate(l: seq<Condition>, c: Condition)
    ensures forall t :: Get(Upsert(l, c), t) == if t == c.ctype then Some(c) else Get(l, t)
    ensures TypesOf(Upsert(l, c)) == TypesOf(l) + {c.ctype}
    ensures UniqueTypes(l) ==> UniqueTypes(Upsert(l, c))
    ensures forall i :: 0 <= i < |l| && l[i].ctype != c.ctype ==> i < |Upsert(l, c)| && Upsert(l, c)[i] == l[i]
  {
    forall t ensures Get(Upsert(l, c), t) == if t == c.ctype then Some(c) else Get(l, t) {
      UpsertGet(l, c, t);
    }
    forall t ensures t in TypesOf(Upsert(l, c)) <==> t in TypesOf(l) + {c.ctype} {
      assert t in TypesOf(l) <==> Get(l, t).Some?;
      assert t in TypesOf(Upsert(l, c)) <==> Get(Upsert(l, c), t).Some?;
    }
    UpsertInPlace(l, c);
    if c.ctype !in TypesOf(l) {
      assert forall i :: 0 <= i < |l| ==> l[i].ctype in TypesOf(l);
    }
  }

  /** Only conditions of the written type matter to a transition time, and with unique types only one. */
  lemma {:induction false} TransitionTimeOfUnique(now: Time, l: seq<Condition>, t: ConditionType, s: Status)
    requires UniqueTypes(l)
    ensures TransitionTime(now, l, t, s)
            == match Get(l, t)
               case Some(c) => if c.status == s then c.lastTransition else Some(now)
               case None => Some(now)
  {
    if l != [] {
      var k := |l| - 1;
      TransitionTimeOfUnique(now, l[..k], t, s);
      GetFromFront(l, t);
    }
  }

  lemma {:induction false} GetFromFront(l: seq<Condition>, t: ConditionType)
    requires l != [] && UniqueTypes(l)
    ensures var k := |l| - 1;
            Get(l, t) == if l[k].ctype == t then Some(l[k]) else Get(l[..k], t)
  {
    var k := |l| - 1;
    if l[k].ctype == t {
      GetUnique(l, l[k]);
    } else if Get(l, t).Some? {
      GetUnique(l[..k], Get(l, t).value);
    } else if Get(l[..k], t).Some? {
      GetUnique(l, Get(l[..k], t).value);
    }
  }
}
