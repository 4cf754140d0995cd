/** A forced apply of a status patch (internal/ssaclient/patch.go, controllers/request_controller.go),
    as a keyed merge over condition types: patched types are overwritten or appended, and `dropped`
    types, which only this field manager owned and which the patch leaves out, disappear. Ownership by
    others is not modelled, so results about merges hold for every choice of `dropped`.
 */
module ServerSideApply {
  import opened Conditions

  function Keep(l: seq<Condition>, dropped: set<ConditionType>): seq<Condition> {
    if l == [] then []
    else if l[0].ctype in dropped then Keep(l[1..], dropped)
    else [l[0]] + Keep(l[1..], dropped)
  }

  function UpsertAll(l: seq<Condition>, patch: seq<Condition>): seq<Condition>
    decreases patch
  {
    if patch == [] then l else UpsertAll(Upsert(l, patch[0]), patch[1..])
  }

  function Merge(stored: seq<Condition>, patch: seq<Condition>, dropped: set<ConditionType>): seq<Condition> {
    UpsertAll(Keep(stored, dropped - TypesOf(patch)), patch)
  }

  lemma {:induction false} KeepIsRestriction(l: seq<Condition>, dropped: set<ConditionType>, t: ConditionType)
    ensures Get(Keep(l, dropped), t) == if t in dropped then None else Get(l, t)
  {
    if l != [] {
      KeepIsRestriction(l[1..], dropped, t);
      if l[0].ctype !in dropped {
        assert Keep(l, dropped)[1..] == Keep(l[1..], dropped);
      }
    }
  }

  lemma {:induction false} KeepIsUnique(l: seq<Condition>, dropped: set<ConditionType>)
    requires UniqueTypes(l)
    ensures UniqueTypes(Keep(l, dropped))
  {
    if l != [] {
      KeepIsUnique(l[1..], dropped);
      var rest := Keep(l[1..], dropped);
      forall j | 0 <= j < |rest| ensures rest[j].ctype != l[0].ctype {
        KeepIsRestriction(l[1..], dropped, rest[j].ctype);
        var c := Get(l[1..], rest[j].ctype).value;
        var i :| 0 <= i < |l[1..]| && l[1..][i] == c;
        assert l[i + 1] == c;
      }
    }
  }

  lemma {:induction false} UpsertAllIsOverride(l: seq<Condition>, patch: seq<Condition>, t: ConditionType)
    requires UniqueTypes(patch)
    ensures Get(UpsertAll(l, patch), t) == if t in TypesOf(patch) then Get(patch, t) else Get(l, t)
    ensures UniqueTypes(l) ==> UniqueTypes(UpsertAll(l, patch))
    decreases patch
  {
    if patch != [] {
      UpsertIsMapUpdate(l, patch[0]);
      UpsertAllIsOverride(Upsert(l, patch[0]), patch[1..], t);
      assert forall c :: c in patch <==> c == patch[0] || c in patch[1..];
    }
  }

  /** What a forced apply leaves behind, type by type. */
  lemma {:induction false} MergeIsKeyed(
    stored: seq<Condition>, patch: seq<Condition>, dropped: set<ConditionType>, t: ConditionType)
    requires UniqueTypes(patch)
    ensures Get(Merge(stored, patch, dropped), t)
            == if t in TypesOf(patch) then Get(patch, t)
               else if t in dropped then None
               else Get(stored, t)
    ensures UniqueTypes(stored) ==> UniqueTypes(Merge(stored, patch, dropped))
  {
    var d := dropped - TypesOf(patch);
    KeepIsRestriction(stored, d, t);
    if UniqueTypes(stored) { KeepIsUnique(stored, d); }
    UpsertAllIsOverride(Keep(stored, d), patch, t);
  }
}
