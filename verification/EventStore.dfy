/** The store through which request reconciles report issuer errors to issuer reconciles
    (internal/kubeutil/source_channel.go), and the work queue of controller-runtime that it feeds.
 */
module EventStore {
  import opened Conditions
  import opened IssuerTypes
  import opened Requests
  import opened SignerErrors

  /** A work queue: keys waiting in order, keys that changed since they were last handed out, and keys
      being worked on. A key added while it is worked on waits until its worker is done. */
  datatype Queue<!K> = Queue(waiting: seq<K>, dirty: set<K>, processing: set<K>)

  function Add<K>(q: Queue<K>, k: K): Queue<K> {
    if k in q.dirty then q
    else if k in q.processing then q.(dirty := q.dirty + {k})
    else q.(dirty := q.dirty + {k}, waiting := q.waiting + [k])
  }

  function Take<K>(q: Queue<K>): Queue<K>
    requires q.waiting != []
  {
    var k := q.waiting[0];
    Queue(q.waiting[1..], q.dirty - {k}, q.processing + {k})
  }

  function Done<K>(q: Queue<K>, k: K): Queue<K> {
    var p := q.processing - {k};
    if k in q.dirty && k in q.processing then q.(processing := p, waiting := q.waiting + [k])
    else q.(processing := p)
  }

  class WorkQueue {
    var queue: Queue<NamespacedName>

    method AddKey(k: NamespacedName)
      modifies this
      ensures queue == Add(old(queue), k)
    {
      queue := Add(queue, k);
    }
  }

  class EventSource {
    var dest: map<GroupVersionKind, WorkQueue>
    var invalidate: map<IssuerKey, Error>

    constructor ()
      ensures dest == map[] && invalidate == map[]
    {
      dest, invalidate := map[], map[];
    }

    /** LoadAndDelete: the error is handed out and gone. */
    method HasReportedError(key: IssuerKey) returns (err: Option<Error>)
      modifies this`invalidate
      ensures err == if key in old(invalidate) then Some(old(invalidate)[key]) else None
      ensures invalidate == old(invalidate) - {key}
    {
      if key in invalidate {
        err := Some(invalidate[key]);
        invalidate := invalidate - {key};
      } else {
        err := None;
      }
    }

    method ReportError(key: IssuerKey, err: Error) returns (ok: bool)
      modifies this`invalidate, dest.Values
      ensures ok <==> key.gvk in dest
      ensures invalidate == if ok then old(invalidate)[key := err] else old(invalidate)
      ensures ok ==> dest[key.gvk].queue == Add(old(dest[key.gvk].queue), key.name)
      ensures ok ==> key.name in dest[key.gvk].queue.dirty
      ensures forall q :: q in dest.Values && !(ok && q == dest[key.gvk]) ==> q.queue == old(q.queue)
    {
      if key.gvk !in dest {
        return false;
      }
      invalidate := invalidate[key := err];
      var q := dest[key.gvk];
      q.AddKey(key.name);
      return true;
    }

    method Register(gvk: GroupVersionKind, queue: WorkQueue) returns (ok: bool)
      modifies this`dest
      ensures ok <==> gvk !in old(dest)
      ensures dest == if ok then old(dest)[gvk := queue] else old(dest)
    {
      if gvk in dest {
        return false;
      }
      dest := dest[gvk := queue];
      return true;
    }
  }

  /** A consumer registers its queue at most once, whatever the outcome. */
  class EventConsumer {
    const gvk: GroupVersionKind
    const source: EventSource
    var register: bool

    constructor (source: EventSource, gvk: GroupVersionKind)
      ensures this.source == source && this.gvk == gvk && register
    {
      this.source, this.gvk, register := source, gvk, true;
    }

    method Start(queue: WorkQueue) returns (ok: bool)
      modifies this`register, source`dest
      ensures ok <==> old(register) && gvk !in old(source.dest)
      ensures source.dest == if ok then old(source.dest)[gvk := queue] else old(source.dest)
      ensures !register
    {
      if !register {
        return false;
      }
      ok := source.Register(gvk, queue);
      register := false;
    }
  }
}
