/**
 The worker pool of src/request-workers.cpp: the queue, its condition variable `queue_bell`, and
 the program counters of the worker threads. Each critical section under `queue_mutex` is one step.
 */
module Workers {

  /** The request of slot `slot` (id `slot + 1`) of connection `conn`. */
  datatype Ref = Ref(conn: nat, slot: nat)

  /** What a worker still does for a request after the application callback. */
  datatype Stage = FlushOut | SealOut | FlushErr | SealErr | SendEnd | Leave

  /** A worker: before `pop_request`, asleep on the bell, woken but without the mutex yet, in the
      application callback, after it, or gone. */
  datatype Worker = Idle | Asleep | Notified | Running(ref: Ref) | Closing(ref: Ref, stage: Stage) | Exited

  predicate Holds(w: Worker) {
    w.Running? || w.Closing?
  }

  /** The histories `pushed` and `popped` record the order of the queue operations. */
  datatype Pool = Pool(queue: seq<Ref>, backlog: int, workers: seq<Worker>, pushed: seq<Ref>, popped: seq<Ref>)

  // ----- Steps -----

  /** `queue.push` and `notify_one`: some sleeper is woken if there is one. */
  predicate CanWake(p: Pool, woken: nat) {
    if woken < |p.workers| then p.workers[woken] == Asleep
    else forall i | 0 <= i < |p.workers| :: p.workers[i] != Asleep
  }

  function Enqueue(p: Pool, r: Ref, woken: nat): Pool {
    p.(queue := p.queue + [r], pushed := p.pushed + [r],
       workers := if woken < |p.workers| then p.workers[woken := Notified] else p.workers)
  }

  /** A worker that has the mutex: pop the front, or sleep on the bell. */
  function Take(p: Pool, w: nat): Pool
    requires w < |p.workers|
  {
    if p.queue == [] then p.(workers := p.workers[w := Asleep])
    else p.(queue := p.queue[1..], backlog := p.backlog - 1, popped := p.popped + [p.queue[0]],
            workers := p.workers[w := Running(p.queue[0])])
  }

  function Move(p: Pool, w: nat, worker: Worker): Pool
    requires w < |p.workers|
  {
    p.(workers := p.workers[w := worker])
  }

  // ----- Counting the requests in the pool -----

  /** What is counted: the requests of a connection, or one request. */
  datatype Pick = OfConn(conn: nat) | OfRef(ref: Ref)

  function One(b: bool): nat {
    if b then 1 else 0
  }

  predicate Hits(pick: Pick, r: Ref) {
    match pick
    case OfConn(c) => r.conn == c
    case OfRef(ref) => r == ref
  }

  function InQueue(q: seq<Ref>, pick: Pick): nat {
    if q == [] then 0 else One(Hits(pick, q[0])) + InQueue(q[1..], pick)
  }

  function InWorkers(ws: seq<Worker>, pick: Pick): nat {
    if ws == [] then 0 else One(Holds(ws[0]) && Hits(pick, ws[0].ref)) + InWorkers(ws[1..], pick)
  }

  /** How many entries of the queue and workers have a request that `pick` means. */
  function InPool(p: Pool, pick: Pick): nat {
    InQueue(p.queue, pick) + InWorkers(p.workers, pick)
  }

  function CountNotified(ws: seq<Worker>): nat {
    if ws == [] then 0 else One(ws[0] == Notified) + CountNotified(ws[1..])
  }

  lemma {:induction false} InQueueSnoc(q: seq<Ref>, r: Ref, pick: Pick)
    ensures InQueue(q + [r], pick) == InQueue(q, pick) + One(Hits(pick, r))
    decreases |q|
  {
    if q == [] {
      assert [r][1..] == [];
      assert q + [r] == [r];
    } else {
      assert (q + [r])[1..] == q[1..] + [r];
      InQueueSnoc(q[1..], r, pick);
    }
  }

  lemma {:induction false} InWorkersUpdate(ws: seq<Worker>, w: nat, worker: Worker, pick: Pick)
    requires w < |ws|
    ensures InWorkers(ws[w := worker], pick)
         == InWorkers(ws, pick) - One(Holds(ws[w]) && Hits(pick, ws[w].ref))
            + One(Holds(worker) && Hits(pick, worker.ref))
    decreases |ws|
  {
    if w == 0 {
      assert ws[w := worker][1..] == ws[1..];
    } else {
      assert ws[w := worker][1..] == ws[1..][w - 1 := worker];
      InWorkersUpdate(ws[1..], w - 1, worker, pick);
    }
  }

  lemma {:induction false} CountNotifiedUpdate(ws: seq<Worker>, w: nat, worker: Worker)
    requires w < |ws|
    ensures CountNotified(ws[w := worker]) == CountNotified(ws) - One(ws[w] == Notified) + One(worker == Notified)
    decreases |ws|
  {
    if w == 0 {
      assert ws[w := worker][1..] == ws[1..];
    } else {
      assert ws[w := worker][1..] == ws[1..][w - 1 := worker];
      CountNotifiedUpdate(ws[1..], w - 1, worker);
    }
  }

  /** One request counts no more than its connection. */
  lemma {:induction false} RefWithinConn(p: Pool, r: Ref)
    ensures InPool(p, OfRef(r)) <= InPool(p, OfConn(r.conn))
  {
    InQueueWithin(p.queue, r);
    InWorkersWithin(p.workers, r);
  }

  lemma {:induction false} InQueueWithin(q: seq<Ref>, r: Ref)
    ensures InQueue(q, OfRef(r)) <= InQueue(q, OfConn(r.conn))
    decreases |q|
  {
    if q != [] {
      InQueueWithin(q[1..], r);
    }
  }

  lemma {:induction false} InWorkersWithin(ws: seq<Worker>, r: Ref)
    ensures InWorkers(ws, OfRef(r)) <= InWorkers(ws, OfConn(r.conn))
    decreases |ws|
  {
    if ws != [] {
      InWorkersWithin(ws[1..], r);
    }
  }

  lemma {:induction false} MemberOfQueue(q: seq<Ref>, r: Ref)
    ensures r in q <==> InQueue(q, OfRef(r)) > 0
    decreases |q|
  {
    if q != [] {
      MemberOfQueue(q[1..], r);
      assert q == [q[0]] + q[1..];
    }
  }

  lemma {:induction false} HeldByWorker(ws: seq<Worker>, w: nat)
    requires w < |ws| && Holds(ws[w])
    ensures InWorkers(ws, OfRef(ws[w].ref)) > 0
    decreases |ws|
  {
    if w > 0 {
      HeldByWorker(ws[1..], w - 1);
    }
  }

  lemma {:induction false} HeldByTwo(ws: seq<Worker>, v: nat, w: nat)
    requires v < w < |ws| && Holds(ws[v]) && Holds(ws[w]) && ws[v].ref == ws[w].ref
    ensures InWorkers(ws, OfRef(ws[w].ref)) > 1
    decreases |ws|
  {
    if v == 0 {
      HeldByWorker(ws[1..], w - 1);
    } else {
      HeldByTwo(ws[1..], v - 1, w - 1);
    }
  }

  // ----- What the steps do to the counts -----

  lemma EnqueueCounts(p: Pool, r: Ref, woken: nat, pick: Pick)
    requires CanWake(p, woken)
    ensures InPool(Enqueue(p, r, woken), pick) == InPool(p, pick) + One(Hits(pick, r))
  {
    InQueueSnoc(p.queue, r, pick);
    if woken < |p.workers| {
      InWorkersUpdate(p.workers, woken, Notified, pick);
    }
  }

  lemma TakeCounts(p: Pool, w: nat, pick: Pick)
    requires w < |p.workers| && !Holds(p.workers[w])
    ensures InPool(Take(p, w), pick) == InPool(p, pick)
  {
    InWorkersUpdate(p.workers, w, if p.queue == [] then Asleep else Running(p.queue[0]), pick);
  }

  // ----- No lost wake-up -----

  /** Whenever a worker sleeps, the woken workers that have not resumed are enough for the queue. */
  predicate NoLostWakeUp(p: Pool) {
    (exists i :: 0 <= i < |p.workers| && p.workers[i] == Asleep) ==> CountNotified(p.workers) >= |p.queue|
  }

  lemma EnqueueWakes(p: Pool, r: Ref, woken: nat)
    requires NoLostWakeUp(p) && CanWake(p, woken)
    ensures NoLostWakeUp(Enqueue(p, r, woken))
  {
    if woken < |p.workers| {
      CountNotifiedUpdate(p.workers, woken, Notified);
    }
  }

  lemma TakeWakes(p: Pool, w: nat)
    requires NoLostWakeUp(p) && w < |p.workers| && p.workers[w] in {Idle, Notified}
    ensures NoLostWakeUp(Take(p, w))
  {
    var worker := if p.queue == [] then Asleep else Running(p.queue[0]);
    CountNotifiedUpdate(p.workers, w, worker);
    assert forall i | 0 <= i < |p.workers| && i != w :: p.workers[w := worker][i] == p.workers[i];
  }

  lemma MoveWakes(p: Pool, w: nat, worker: Worker)
    requires NoLostWakeUp(p) && w < |p.workers| && p.workers[w] != Notified && worker != Asleep
    ensures NoLostWakeUp(Move(p, w, worker))
  {
    CountNotifiedUpdate(p.workers, w, worker);
    assert forall i | 0 <= i < |p.workers| && i != w :: p.workers[w := worker][i] == p.workers[i];
  }
}
