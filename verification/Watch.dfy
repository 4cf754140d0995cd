/** From an issuer event to the requests that refer to that issuer (internal/kubeutil/watch.go and the
    index function in controllers/request_controller.go). The index is kept by controller-runtime; a
    lookup returns the cached requests whose index values contain the key, or fails.
 */
module Watch {
  import opened Conditions
  import opened EventStore
  import opened IssuerTypes
  import opened Requests

  /** The index values of a request for one issuer kind. */
  function ToId(types: seq<IssuerType>, gvk: GroupVersionKind, r: Request): seq<string> {
    match MatchIssuerType(types, r)
    case Some(k) => if k.gvk != gvk then [] else [Key(k.name)]
    case None => []
  }

  function Listed(types: seq<IssuerType>, gvk: GroupVersionKind, cache: seq<Request>, id: string): seq<Request> {
    if cache == [] then []
    else if id in ToId(types, gvk, cache[0]) then [cache[0]] + Listed(types, gvk, cache[1..], id)
    else Listed(types, gvk, cache[1..], id)
  }

  /** The requests that resolve to an issuer, by looking at every one of them. */
  ghost function Resolved(types: seq<IssuerType>, cache: seq<Request>, key: IssuerKey): set<NamespacedName> {
    set r | r in cache && MatchIssuerType(types, r) == Some(key) :: r.meta.key
  }

  ghost function ResolvedIfListed(
    types: seq<IssuerType>, cache: Option<seq<Request>>, key: IssuerKey): set<NamespacedName> {
    if cache.None? then {} else Resolved(types, cache.value, key)
  }

  ghost predicate RealName(n: NamespacedName) {
    SlashFree(n.namespace) && SlashFree(n.name)
  }

  lemma {:induction false} ListedIsResolved(
    types: seq<IssuerType>, gvk: GroupVersionKind, cache: seq<Request>, obj: NamespacedName)
    requires RealName(obj)
    ensures forall r :: r in Listed(types, gvk, cache, Key(obj))
                        <==> r in cache && MatchIssuerType(types, r) == Some(IssuerKey(gvk, obj))
  {
    if cache != [] {
      ListedIsResolved(types, gvk, cache[1..], obj);
      var k := MatchIssuerType(types, cache[0]);
      if k.Some? {
        KeyIsUnambiguous(obj, k.value.name);
      }
      assert forall r :: r in cache <==> r == cache[0] || r in cache[1..];
    }
  }

  function AddAll(q: Queue<NamespacedName>, keys: seq<NamespacedName>): Queue<NamespacedName> {
    if keys == [] then q else Add(AddAll(q, keys[..|keys| - 1]), keys[|keys| - 1])
  }

  ghost predicate NoDuplicates<T>(s: seq<T>) {
    forall i, j :: 0 <= i < j < |s| ==> s[i] != s[j]
  }

  class LinkedResourceHandler {
    const types: seq<IssuerType>
    const gvk: GroupVersionKind

    constructor (types: seq<IssuerType>, gvk: GroupVersionKind)
      ensures this.types == types && this.gvk == gvk
    {
      this.types, this.gvk := types, gvk;
    }

    method FindObjectsForKind(cache: Option<seq<Request>>, obj: NamespacedName) returns (requests: seq<NamespacedName>)
      requires RealName(obj)
      ensures forall k :: k in requests <==> k in ResolvedIfListed(types, cache, IssuerKey(gvk, obj))
    {
      requests := [];
      if cache.None? {
        return;
      }
      var list := Listed(types, gvk, cache.value, Key(obj));
      for i := 0 to |list|
        invariant forall k :: k in requests <==> exists j :: 0 <= j < i && list[j].meta.key == k
      {
        requests := requests + [list[i].meta.key];
      }
      ListedIsResolved(types, gvk, cache.value, obj);
    }

    /** Adds every request found that was not added before. */
    method MapAndEnqueue(q: WorkQueue, cache: Option<seq<Request>>, obj: NamespacedName, seen: set<NamespacedName>)
      returns (reqs: set<NamespacedName>, ghost added: seq<NamespacedName>)
      requires RealName(obj)
      modifies q
      ensures reqs == seen + ResolvedIfListed(types, cache, IssuerKey(gvk, obj))
      ensures q.queue == AddAll(old(q.queue), added)
      ensures NoDuplicates(added) && forall k :: k in added <==> k in reqs - seen
    {
      reqs, added := seen, [];
      var found := FindObjectsForKind(cache, obj);
      for i := 0 to |found|
        invariant reqs == seen + set k | k in found[..i]
        invariant q.queue == AddAll(old(q.queue), added)
        invariant NoDuplicates(added) && forall k :: k in added <==> k in reqs && k !in seen
      {
        assert forall k :: k in found[..i + 1] <==> k in found[..i] || k == found[i];
        if found[i] !in reqs {
          q.AddKey(found[i]);
          ghost var before := added;
          added := added + [found[i]];
          assert added[..|added| - 1] == before;
          reqs := reqs + {found[i]};
        }
      }
      assert found[..|found|] == found;
    }

    /** An update event of an issuer adds exactly the requests that resolve to its old or its new name,
        each once, even when both lookups find it. */
    method Update(
      q: WorkQueue, oldObj: NamespacedName, oldCache: Option<seq<Request>>, newObj: NamespacedName,
      newCache: Option<seq<Request>>)
      returns (ghost added: seq<NamespacedName>)
      requires RealName(oldObj) && RealName(newObj)
      modifies q
      ensures q.queue == AddAll(old(q.queue), added) && NoDuplicates(added)
      ensures forall k :: k in added
                          <==> k in ResolvedIfListed(types, oldCache, IssuerKey(gvk, oldObj))
                               || k in ResolvedIfListed(types, newCache, IssuerKey(gvk, newObj))
    {
      ghost var first, second;
      var reqs;
      reqs, first := MapAndEnqueue(q, oldCache, oldObj, {});
      reqs, second := MapAndEnqueue(q, newCache, newObj, reqs);
      added := first + second;
      AddAllConcat(old(q.queue), first, second);
      assert forall k :: k in added <==> k in first || k in second;
      forall i, j | 0 <= i < j < |added| ensures added[i] != added[j] {
        if i < |first| <= j {
          assert added[i] in first && added[j] in second;
        }
      }
    }
  }

  lemma {:induction false} AddAllConcat(q: Queue<NamespacedName>, a: seq<NamespacedName>, b: seq<NamespacedName>)
    ensures AddAll(q, a + b) == AddAll(AddAll(q, a), b)
    decreases b
  {
    if b == [] {
      assert a + b == a;
    } else {
      var c := b[..|b| - 1];
      assert (a + b)[..|a + b| - 1] == a + c;
      AddAllConcat(q, a, c);
    }
  }

  /** After the adds, every one of the keys waits or is worked on again. */
  lemma {:induction false} AddAllMakesDirty(q: Queue<NamespacedName>, keys: seq<NamespacedName>)
    ensures AddAll(q, keys).dirty == q.dirty + set k | k in keys
  {
    if keys != [] {
      var rest := keys[..|keys| - 1];
      AddAllMakesDirty(q, rest);
      assert forall k :: k in keys <==> k in rest || k == keys[|keys| - 1];
    }
  }
}
