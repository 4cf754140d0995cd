/** Reporters and issuer workers around the event store, interleaved in any order
    (internal/kubeutil/source_channel.go, controllers/issuer_controller.go). A reporter stores its
    error and then adds the issuer to the queue, in two steps. A worker takes an issuer from the queue,
    loads and deletes the stored error, and later reports that it is done. Watch events and retries may
    add any issuer at any time.
 */
module ReportProtocol {
  import opened EventStore
  import opened IssuerTypes
  import opened SignerErrors

  datatype Phase = Holding(key: IssuerKey) | Working(key: IssuerKey)

  datatype Report = Report(id: nat, err: Error)

  /** What became of a report. */
  datatype Fate = Stored(key: IssuerKey) | Consumed | Overwritten

  datatype State = State(
    queue: Queue<IssuerKey>,
    store: map<IssuerKey, Report>,
    reporters: map<nat, IssuerKey>,  // between store and enqueue
    workers: map<nat, Phase>,
    fates: seq<Fate>,                // of all reports made so far, by id
    delivered: seq<nat>)             // the reports handed to workers, in order

  datatype Step =
    | Store(reporter: nat, key: IssuerKey, err: Error)
    | Enqueue(reporter: nat)
    | Wake(key: IssuerKey)
    | TakeNext(worker: nat)
    | LoadAndDelete(worker: nat)
    | Finish(worker: nat)

  const INITIAL := State(Queue([], {}, {}), map[], map[], map[], [], [])

  predicate Enabled(s: State, step: Step) {
    match step
    case Store(r, _, _) => r !in s.reporters
    case Enqueue(r) => r in s.reporters
    case Wake(_) => true
    case TakeNext(w) => w !in s.workers && s.queue.waiting != []
    case LoadAndDelete(w) => w in s.workers && s.workers[w].Holding?
    case Finish(w) => w in s.workers && s.workers[w].Working?
  }

  function SetFate(s: State, key: IssuerKey, fate: Fate): seq<Fate> {
    if key in s.store && s.store[key].id < |s.fates| then s.fates[s.store[key].id := fate] else s.fates
  }

  function Next(s: State, step: Step): State
    requires Enabled(s, step)
  {
    match step
    case Store(r, key, err) =>
      s.(store := s.store[key := Report(|s.fates|, err)],
         reporters := s.reporters[r := key],
         fates := SetFate(s, key, Overwritten) + [Stored(key)])
    case Enqueue(r) => s.(queue := Add(s.queue, s.reporters[r]), reporters := s.reporters - {r})
    case Wake(key) => s.(queue := Add(s.queue, key))
    case TakeNext(w) => s.(queue := Take(s.queue), workers := s.workers[w := Holding(s.queue.waiting[0])])
    case LoadAndDelete(w) =>
      var key := s.workers[w].key;
      s.(store := s.store - {key},
         workers := s.workers[w := Working(key)],
         fates := SetFate(s, key, Consumed),
         delivered := if key in s.store then s.delivered + [s.store[key].id] else s.delivered)
    case Finish(w) => s.(queue := Done(s.queue, s.workers[w].key), workers := s.workers - {w})
  }

  ghost predicate Run(s: State, steps: seq<Step>, t: State)
    decreases steps
  {
    if steps == [] then s == t
    else Enabled(s, steps[0]) && Run(Next(s, steps[0]), steps[1..], t)
  }

  /*** Invariants ***/

  /** The queue and the workers agree: a key has one worker at most, and a dirty key waits unless it is
      being worked on. */
  ghost predicate QueueInv(s: State) {
    var q := s.queue;
    && (forall i, j :: 0 <= i < j < |q.waiting| ==> q.waiting[i] != q.waiting[j])
    && (forall k :: k in q.waiting <==> k in q.dirty && k !in q.processing)
    && (forall w :: w in s.workers ==> s.workers[w].key in q.processing)
    && (forall k :: k in q.processing ==> exists w :: w in s.workers && s.workers[w].key == k)
    && (forall v, w :: v in s.workers && w in s.workers && v != w ==> s.workers[v].key != s.workers[w].key)
  }

  /** Every stored error is about to be read: its issuer is dirty, or a worker holds the issuer and has
      not looked yet, or its reporter is about to add the issuer. */
  ghost predicate PendingInv(s: State) {
    forall k :: k in s.store ==>
      || k in s.queue.dirty
      || (exists w :: w in s.workers && s.workers[w] == Holding(k))
      || (exists r :: r in s.reporters && s.reporters[r] == k)
  }

  /** The store holds exactly the reports that were neither consumed nor overwritten, and each consumed
      report was delivered once. */
  ghost predicate LedgerInv(s: State) {
    && (forall k :: k in s.store ==> s.store[k].id < |s.fates| && s.fates[s.store[k].id] == Stored(k))
    && (forall i :: 0 <= i < |s.fates| && s.fates[i].Stored? ==>
              s.fates[i].key in s.store && s.store[s.fates[i].key].id == i)
    && (forall i :: i in s.delivered <==> 0 <= i < |s.fates| && s.fates[i] == Consumed)
    && (forall i, j :: 0 <= i < j < |s.delivered| ==> s.delivered[i] != s.delivered[j])
  }

  lemma {:induction false} QueueStep(s: State, step: Step)
    requires QueueInv(s) && Enabled(s, step)
    ensures QueueInv(Next(s, step))
  {
    var t := Next(s, step);
    match step
    case Store(_, _, _) =>
    case LoadAndDelete(w) => SameKeysKeepQueue(s, t);
    case Enqueue(r) => AddKeepsQueue(s, t, s.reporters[r]);
    case Wake(key) => AddKeepsQueue(s, t, key);
    case TakeNext(w) => TakeKeepsQueue(s, t, w);
    case Finish(w) => DoneKeepsQueue(s, t, w);
  }

  lemma {:induction false} SameKeysKeepQueue(s: State, t: State)
    requires QueueInv(s) && t.queue == s.queue && t.workers.Keys == s.workers.Keys
    requires forall w :: w in s.workers ==> t.workers[w].key == s.workers[w].key
    ensures QueueInv(t)
  {
    forall k | k in t.queue.processing ensures exists v :: v in t.workers && t.workers[v].key == k {
      var v :| v in s.workers && s.workers[v].key == k;
      assert t.workers[v].key == k;
    }
  }

  lemma {:induction false} TakeKeepsQueue(s: State, t: State, w: nat)
    requires QueueInv(s) && w !in s.workers && s.queue.waiting != []
    requires t.queue == Take(s.queue) && t.workers == s.workers[w := Holding(s.queue.waiting[0])]
    ensures QueueInv(t)
  {
    var k := s.queue.waiting[0];
    assert s.queue.waiting == [k] + t.queue.waiting;
    forall x | x in t.queue.processing ensures exists v :: v in t.workers && t.workers[v].key == x {
      if x == k {
        assert t.workers[w].key == x;
      } else {
        var v :| v in s.workers && s.workers[v].key == x;
        assert t.workers[v].key == x;
      }
    }
  }

  lemma {:induction false} DoneKeepsQueue(s: State, t: State, w: nat)
    requires QueueInv(s) && w in s.workers
    requires t.queue == Done(s.queue, s.workers[w].key) && t.workers == s.workers - {w}
    ensures QueueInv(t)
  {
    forall x | x in t.queue.processing ensures exists v :: v in t.workers && t.workers[v].key == x {
      var v :| v in s.workers && s.workers[v].key == x;
      assert t.workers[v].key == x;
    }
  }

  lemma {:induction false} AddKeepsQueue(s: State, t: State, k: IssuerKey)
    requires QueueInv(s) && t.queue == Add(s.queue, k) && t.workers == s.workers
    ensures QueueInv(t)
  {
  }

  lemma {:induction false} PendingStep(s: State, step: Step)
    requires QueueInv(s) && PendingInv(s) && Enabled(s, step)
    ensures PendingInv(Next(s, step))
  {
    var t := Next(s, step);
    forall k | k in t.store && k !in t.queue.dirty && !(exists r :: r in t.reporters && t.reporters[r] == k)
      ensures exists w :: w in t.workers && t.workers[w] == Holding(k)
    {
      if step.Store? {
        assert t.reporters[step.reporter] == step.key;
      }
      OthersStillDue(s, step, k);
    }
  }

  /** What is stored and neither dirty nor about to be added after a step is held by a worker. */
  lemma {:induction false} OthersStillDue(s: State, step: Step, k: IssuerKey)
    requires QueueInv(s) && PendingInv(s) && Enabled(s, step)
    requires k in Next(s, step).store && k !in Next(s, step).queue.dirty
    requires forall r :: r in Next(s, step).reporters ==> Next(s, step).reporters[r] != k
    ensures exists w :: w in Next(s, step).workers && Next(s, step).workers[w] == Holding(k)
  {
    var t := Next(s, step);
    if step.TakeNext? && k == s.queue.waiting[0] {
      assert t.workers[step.worker] == Holding(k);
    } else {
      StoredBefore(s, step, k);
      forall r | r in s.reporters ensures s.reporters[r] != k {
        assert r in t.reporters ==> t.reporters[r] == s.reporters[r];
        assert r !in t.reporters ==> step == Enqueue(r) && s.reporters[r] in t.queue.dirty;
      }
      var w :| w in s.workers && s.workers[w] == Holding(k);
      assert t.workers[w] == Holding(k);
    }
  }

  lemma {:induction false} StoredBefore(s: State, step: Step, k: IssuerKey)
    requires QueueInv(s) && Enabled(s, step) && !(step.TakeNext? && k == s.queue.waiting[0])
    requires k in Next(s, step).store && k !in Next(s, step).queue.dirty
    requires forall r :: r in Next(s, step).reporters ==> Next(s, step).reporters[r] != k
    ensures k in s.store && k !in s.queue.dirty
    ensures step.LoadAndDelete? ==> s.workers[step.worker].key != k
    ensures step.Store? ==> step.key != k
  {
    if step.Store? {
      assert Next(s, step).reporters[step.reporter] == step.key;
    }
  }

  lemma {:induction false} LedgerStep(s: State, step: Step)
    requires LedgerInv(s) && Enabled(s, step)
    ensures LedgerInv(Next(s, step))
    ensures FatesOnlySettle(s, Next(s, step))
  {
    match step
    case Store(r, key, err) => LedgerStore(s, r, key, err);
    case LoadAndDelete(w) => LedgerLoad(s, w);
    case Enqueue(_) =>
    case Wake(_) =>
    case TakeNext(_) =>
    case Finish(_) =>
  }

  lemma {:induction false} LedgerStore(s: State, r: nat, key: IssuerKey, err: Error)
    requires LedgerInv(s) && r !in s.reporters
    ensures var t := Next(s, Store(r, key, err)); LedgerInv(t) && FatesOnlySettle(s, t)
  {
    var t := Next(s, Store(r, key, err));
    var n := |s.fates|;
    assert |t.fates| == n + 1 && t.fates[n] == Stored(key);
    forall i | 0 <= i < n
      ensures t.fates[i] == if key in s.store && s.store[key].id == i then Overwritten else s.fates[i]
    {
    }
  }

  lemma {:induction false} LedgerLoad(s: State, w: nat)
    requires LedgerInv(s) && w in s.workers && s.workers[w].Holding?
    ensures var t := Next(s, LoadAndDelete(w)); LedgerInv(t) && FatesOnlySettle(s, t)
  {
    var t := Next(s, LoadAndDelete(w));
    var key := s.workers[w].key;
    if key in s.store {
      var id := s.store[key].id;
      assert t.fates == s.fates[id := Consumed];
      assert id !in s.delivered;
      assert forall i :: i in t.delivered <==> i in s.delivered || i == id;
    } else {
      assert t.store == s.store;
    }
  }

  /** A report that was consumed or overwritten stays so. */
  ghost predicate FatesOnlySettle(s: State, t: State) {
    && |s.fates| <= |t.fates|
    && s.delivered <= t.delivered
    && (forall i :: 0 <= i < |s.fates| && !s.fates[i].Stored? ==> t.fates[i] == s.fates[i])
  }

  lemma {:induction false} InvRun(s: State, steps: seq<Step>, t: State)
    requires QueueInv(s) && PendingInv(s) && LedgerInv(s) && Run(s, steps, t)
    ensures QueueInv(t) && PendingInv(t) && LedgerInv(t) && FatesOnlySettle(s, t)
    decreases steps
  {
    if steps != [] {
      QueueStep(s, steps[0]);
      PendingStep(s, steps[0]);
      LedgerStep(s, steps[0]);
      InvRun(Next(s, steps[0]), steps[1..], t);
    }
  }

  /*** What a reader can rely on ***/

  /** Somebody is due to read what is stored for the key: the key waits in the queue, or a worker holds
      it unread, or its worker puts it back in the queue when done, or a reporter is about to add it. */
  ghost predicate Due(s: State, key: IssuerKey) {
    || key in s.queue.waiting
    || (exists w :: w in s.workers && s.workers[w] == Holding(key))
    || (exists w :: w in s.workers && s.workers[w] == Working(key) && key in Done(s.queue, key).waiting)
    || (exists r :: r in s.reporters && s.reporters[r] == key)
  }

  /** No report is lost: in every interleaving, each report made is consumed once, or overwritten by a
      later one, or still stored with somebody due to read it. */
  lemma {:induction false} NoReportLost(steps: seq<Step>, t: State)
    requires Run(INITIAL, steps, t)
    ensures forall k :: k in t.store ==> Due(t, k)
    ensures forall i :: 0 <= i < |t.fates| ==>
              match t.fates[i]
              case Stored(k) => k in t.store && t.store[k].id == i && i !in t.delivered
              case Consumed => multiset(t.delivered)[i] == 1
              case Overwritten => i !in t.delivered
  {
    InvRun(INITIAL, steps, t);
    forall k | k in t.store ensures Due(t, k) {
      StoredIsDue(t, k);
    }
    forall i | 0 <= i < |t.fates| && t.fates[i] == Consumed ensures multiset(t.delivered)[i] == 1 {
      CountOnce(t.delivered, i);
    }
  }

  lemma {:induction false} StoredIsDue(s: State, k: IssuerKey)
    requires QueueInv(s) && PendingInv(s) && k in s.store
    ensures Due(s, k)
  {
    if k in s.queue.dirty && k in s.queue.processing {
      var w :| w in s.workers && s.workers[w].key == k;
      assert s.workers[w] == Holding(k) || s.workers[w] == Working(k);
    }
  }

  lemma {:induction false} CountOnce(s: seq<nat>, x: nat)
    requires x in s && forall i, j :: 0 <= i < j < |s| ==> s[i] != s[j]
    ensures multiset(s)[x] == 1
  {
    var k := |s| - 1;
    assert s == s[..k] + [s[k]];
    if s[k] == x {
      assert x !in s[..k];
    } else {
      assert x in s[..k];
      CountOnce(s[..k], x);
    }
  }

  /** When everything has come to rest, nothing is stored any more. */
  lemma {:induction false} RestMeansEmpty(steps: seq<Step>, t: State)
    requires Run(INITIAL, steps, t)
    ensures t.queue.waiting == [] && t.workers == map[] && t.reporters == map[] ==> t.store == map[]
  {
    NoReportLost(steps, t);
    if t.queue.waiting == [] && t.workers == map[] && t.reporters == map[] {
      assert forall k :: k in t.store ==> Due(t, k);
    }
  }
}
