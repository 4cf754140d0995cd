/** How long a status has lasted. Every controller builds its patch from the conditions it read and
    then applies it. This module shows that the stored transition time of a type is exactly the time of
    the first write in the latest unbroken run of writes with the same status, whatever else happens
    to the other conditions of the list in between.
 */
module Transitions {
  import opened Conditions
  import opened ServerSideApply

  datatype Write = Write(ctype: ConditionType, status: Status, reason: Reason, stamp: int)

  /** One change of a stored list: the time and the writes of the patch behind it. A change made by
      somebody else has no writes. */
  datatype Turn = Turn(now: Time, writes: seq<Write>)

  function BuildPatch(now: Time, existing: seq<Condition>, writes: seq<Write>): seq<Condition> {
    if writes == [] then []
    else
      var w := writes[|writes| - 1];
      Upsert(BuildPatch(now, existing, writes[..|writes| - 1]),
             NewCondition(now, existing, w.ctype, w.status, w.reason, w.stamp))
  }

  /** The status a turn finally gives a type, if it writes the type at all. */
  function Written(turn: Turn, t: ConditionType): Option<Status> {
    LastWrite(turn.writes, t)
  }

  function LastWrite(writes: seq<Write>, t: ConditionType): Option<Status> {
    if writes == [] then None
    else if writes[|writes| - 1].ctype == t then Some(writes[|writes| - 1].status)
    else LastWrite(writes[..|writes| - 1], t)
  }

  lemma {:induction false} BuildPatchGet(now: Time, existing: seq<Condition>, writes: seq<Write>, t: ConditionType)
    requires UniqueTypes(existing)
    ensures UniqueTypes(BuildPatch(now, existing, writes))
    ensures t in TypesOf(BuildPatch(now, existing, writes)) <==> LastWrite(writes, t).Some?
    ensures LastWrite(writes, t).Some? ==>
              var c := Get(BuildPatch(now, existing, writes), t).value;
              && c.status == LastWrite(writes, t).value
              && c.lastTransition == TransitionTime(now, existing, t, c.status)
  {
    if writes != [] {
      var w := writes[|writes| - 1];
      var rest := writes[..|writes| - 1];
      BuildPatchGet(now, existing, rest, t);
      UpsertIsMapUpdate(BuildPatch(now, existing, rest),
                        NewCondition(now, existing, w.ctype, w.status, w.reason, w.stamp));
    }
  }

  /** Turn k starts the latest unbroken run of equal statuses of type t. */
  ghost predicate StartsRun(turns: seq<Turn>, t: ConditionType, k: int) {
    && 0 <= k < |turns|
    && Written(turns[k], t).Some?
    && (forall j :: k <= j < |turns| ==> Written(turns[j], t) in {None, Written(turns[k], t)})
    && (forall i :: 0 <= i < k && Written(turns[i], t) == Written(turns[k], t) ==>
          exists m :: i < m < k && Written(turns[m], t) !in {None, Written(turns[k], t)})
  }

  /** The condition has the status of the latest unbroken run and the time of that run's first write. */
  ghost predicate DatesFromRunStart(condition: Option<Condition>, turns: seq<Turn>, t: ConditionType) {
    match condition
    case None => forall k :: 0 <= k < |turns| ==> Written(turns[k], t).None?
    case Some(c) =>
      exists k :: StartsRun(turns, t, k)
        && Written(turns[k], t) == Some(c.status) && c.lastTransition == Some(turns[k].now)
  }

  /** A history of stored lists in which type t changes only by the writes of the turns. */
  ghost predicate History(lists: seq<seq<Condition>>, turns: seq<Turn>, t: ConditionType) {
    && |lists| == |turns| + 1
    && (forall k :: 0 <= k < |lists| ==> UniqueTypes(lists[k]))
    && (forall k :: 0 <= k < |turns| ==>
          Get(lists[k + 1], t)
          == if Written(turns[k], t).Some? then Get(BuildPatch(turns[k].now, lists[k], turns[k].writes), t)
             else Get(lists[k], t))
  }

  lemma {:induction false} TransitionTimeIsExact(lists: seq<seq<Condition>>, turns: seq<Turn>, t: ConditionType)
    requires History(lists, turns, t) && Get(lists[0], t).None?
    ensures DatesFromRunStart(Get(lists[|turns|], t), turns, t)
  {
    if turns != [] {
      var n := |turns| - 1;
      var turn, past := turns[n], turns[..n];
      var before := lists[n];
      assert History(lists[..n + 1], past, t) && lists[..n + 1][n] == before;
      TransitionTimeIsExact(lists[..n + 1], past, t);
      BuildPatchGet(turn.now, before, turn.writes, t);
      ExtendRun(past, turn, t);
      assert turns == past + [turn];
      if Written(turn, t).Some? {
        TransitionTimeOfUnique(turn.now, before, t, Written(turn, t).value);
        if Get(before, t).None? || Get(before, t).value.status != Written(turn, t).value {
          StartNewRun(turns, t, Get(before, t));
        }
      }
    }
  }

  lemma {:induction false} ExtendHistory(
    lists: seq<seq<Condition>>, turns: seq<Turn>, t: ConditionType, next: seq<Condition>, turn: Turn)
    requires History(lists, turns, t) && UniqueTypes(next)
    requires Get(next, t)
             == if Written(turn, t).Some? then Get(BuildPatch(turn.now, lists[|turns|], turn.writes), t)
                else Get(lists[|turns|], t)
    ensures History(lists + [next], turns + [turn], t)
  {
  }

  lemma {:induction false} SingleWrite(now: Time, existing: seq<Condition>, w: Write)
    ensures BuildPatch(now, existing, [w]) == [NewCondition(now, existing, w.ctype, w.status, w.reason, w.stamp)]
    ensures LastWrite([w], w.ctype) == Some(w.status)
  {
    assert [w][..0] == [];
  }

  /** Applying a patch built from the stored list is a turn of the history. */
  lemma {:induction false} ApplyIsTurn(
    stored: seq<Condition>, turn: Turn, dropped: set<ConditionType>, t: ConditionType)
    requires UniqueTypes(stored) && (t in dropped ==> Written(turn, t).Some?)
    ensures var after := Merge(stored, BuildPatch(turn.now, stored, turn.writes), dropped);
            && UniqueTypes(after)
            && Get(after, t) == if Written(turn, t).Some? then Get(BuildPatch(turn.now, stored, turn.writes), t)
                                else Get(stored, t)
  {
    BuildPatchGet(turn.now, stored, turn.writes, t);
    MergeIsKeyed(stored, BuildPatch(turn.now, stored, turn.writes), dropped, t);
  }

  /** After one more turn that writes the type, a condition with the written status dates from the start of the
      run exactly when its time is the one computed from the list that was stored before. */
  lemma {:induction false} DatedExactly(
    lists: seq<seq<Condition>>, turns: seq<Turn>, t: ConditionType, turn: Turn, c: Condition)
    requires History(lists, turns, t) && Get(lists[0], t).None? && Written(turn, t) == Some(c.status)
    ensures DatesFromRunStart(Some(c), turns + [turn], t)
            <==> c.lastTransition == TransitionTime(turn.now, lists[|turns|], t, c.status)
  {
    var stored := lists[|turns|];
    var next := Merge(stored, BuildPatch(turn.now, stored, turn.writes), {});
    ApplyIsTurn(stored, turn, {}, t);
    BuildPatchGet(turn.now, stored, turn.writes, t);
    ExtendHistory(lists, turns, t, next, turn);
    TransitionTimeIsExact(lists + [next], turns + [turn], t);
    var exact := Get(next, t).value;
    var k :| StartsRun(turns + [turn], t, k) && exact.lastTransition == Some((turns + [turn])[k].now);
    forall j | StartsRun(turns + [turn], t, j) ensures j == k {
      RunStartIsUnique(turns + [turn], t, j, k);
    }
  }

  lemma {:induction false} RunStartIsUnique(turns: seq<Turn>, t: ConditionType, j: int, k: int)
    requires StartsRun(turns, t, j) && StartsRun(turns, t, k)
    ensures j == k
  {
    assert Written(turns[j], t) == Written(turns[k], t);
  }

  /** A turn that writes the same status, or none, continues the run. */
  lemma {:induction false} ExtendRun(past: seq<Turn>, turn: Turn, t: ConditionType)
    ensures forall k :: StartsRun(past, t, k) && Written(turn, t) in {None, Written(past[k], t)}
              ==> StartsRun(past + [turn], t, k) && (past + [turn])[k] == past[k]
  {
    var turns := past + [turn];
    forall k | StartsRun(past, t, k) && Written(turn, t) in {None, Written(past[k], t)}
      ensures StartsRun(turns, t, k)
    {
      assert forall j :: 0 <= j < |past| ==> turns[j] == past[j];
      forall i | 0 <= i < k && Written(turns[i], t) == Written(turns[k], t)
        ensures exists m :: i < m < k && Written(turns[m], t) !in {None, Written(turns[k], t)}
      {
        var m :| i < m < k && Written(past[m], t) !in {None, Written(past[k], t)};
        assert turns[m] == past[m];
      }
    }
  }

  /** A turn that writes another status than the latest run, or the first one, starts a run. */
  lemma {:induction false} StartNewRun(turns: seq<Turn>, t: ConditionType, before: Option<Condition>)
    requires turns != []
    requires var n := |turns| - 1;
             && Written(turns[n], t).Some?
             && match before
                case None => forall k :: 0 <= k < n ==> Written(turns[k], t).None?
                case Some(c) =>
                  && Some(c.status) != Written(turns[n], t)
                  && exists k :: StartsRun(turns[..n], t, k) && Written(turns[k], t) == Some(c.status)
    ensures StartsRun(turns, t, |turns| - 1)
  {
    var n := |turns| - 1;
    forall i | 0 <= i < n && Written(turns[i], t) == Written(turns[n], t)
      ensures exists m :: i < m < n && Written(turns[m], t) !in {None, Written(turns[n], t)}
    {
      var k :| StartsRun(turns[..n], t, k) && Written(turns[k], t) == Some(before.value.status);
      assert i < k by {
        assert forall j :: k <= j < n ==> Written(turns[..n][j], t) == Written(turns[j], t);
      }
      assert i < k < n && Written(turns[k], t) !in {None, Written(turns[n], t)};
    }
  }
}
