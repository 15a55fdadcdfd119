/** That the server can go on: the queue is served while a worker is there to serve it, and every request in
    it can come to its END_REQUEST. */
module Progress {
  import opened Bytes
  import opened Streams
  import opened Requests
  import opened Workers
  import opened Lifecycle
  import opened Lifetime

  // ----- Continuations -----

  ghost predicate CanRun(s: State, steps: seq<Action>, limit: nat)
    decreases |steps|
  {
    steps == [] || (Enabled(s, steps[0], limit) && CanRun(Next(s, steps[0], limit), steps[1..], limit))
  }

  ghost function After(s: State, steps: seq<Action>, limit: nat): State
    requires CanRun(s, steps, limit)
    decreases |steps|
  {
    if steps == [] then s else After(Next(s, steps[0], limit), steps[1..], limit)
  }

  lemma {:induction false} RunThen(s: State, a: seq<Action>, b: seq<Action>, limit: nat)
    requires CanRun(s, a, limit) && CanRun(After(s, a, limit), b, limit)
    ensures CanRun(s, a + b, limit) && After(s, a + b, limit) == After(After(s, a, limit), b, limit)
    decreases |a|
  {
    hide Next, Enabled;
    if a == [] {
      assert a + b == b;
    } else {
      assert (a + b)[1..] == a[1..] + b;
      RunThen(Next(s, a[0], limit), a[1..], b, limit);
    }
  }

  lemma RunOne(s: State, a: Action, limit: nat)
    requires Enabled(s, a, limit)
    ensures CanRun(s, [a], limit) && After(s, [a], limit) == Next(s, a, limit)
  {
    hide Next, Enabled;
    assert [a][1..] == [];
  }

  lemma {:induction false} AfterInv(s: State, steps: seq<Action>, limit: nat)
    requires Inv(s) && CanRun(s, steps, limit)
    ensures Inv(After(s, steps, limit))
    decreases |steps|
  {
    hide Inv, Next, Enabled;
    if steps != [] {
      NextInv(s, steps[0], limit);
      AfterInv(Next(s, steps[0], limit), steps[1..], limit);
    }
  }

  // ----- A worker goes on -----

  /** How many steps a worker has still to take for its request. */
  function StepsLeft(w: Worker): nat {
    match w
    case Running(_) => 7
    case Closing(_, FlushOut) => 6
    case Closing(_, SealOut) => 5
    case Closing(_, FlushErr) => 4
    case Closing(_, SealErr) => 3
    case Closing(_, SendEnd) => 2
    case Closing(_, Leave) => 1
    case _ => 0
  }

  /** A worker that has a request can always take a step, which brings it nearer to its end. */
  lemma WorkerGoesOn(s: State, w: nat, body: bytes, limit: nat)
    requires w < |s.pool.workers| && Holds(s.pool.workers[w]) && |body| == 8
    ensures var was := s.pool.workers[w]; var a := if was.Running? then DoReturn(w) else DoFinish(w, body);
      && Enabled(s, a, limit)
      && var t := Next(s, a, limit); var now := t.pool.workers[w];
      && t.pool == s.pool.(workers := s.pool.workers[w := now])
      && StepsLeft(now) == StepsLeft(was) - 1
      && (if StepsLeft(was) == 1 then now == Idle else Holds(now) && now.ref == was.ref)
  {
    hide Finish;
  }

  /** It can go on until it has `left` steps to take. */
  lemma {:induction false} WorkerGoesTo(s: State, w: nat, left: nat, limit: nat) returns (steps: seq<Action>)
    requires w < |s.pool.workers| && Holds(s.pool.workers[w]) && left <= StepsLeft(s.pool.workers[w])
    ensures CanRun(s, steps, limit)
    ensures var t := After(s, steps, limit);
      && w < |t.pool.workers| && t.pool == s.pool.(workers := s.pool.workers[w := t.pool.workers[w]])
      && StepsLeft(t.pool.workers[w]) == left
      && (if left == 0 then t.pool.workers[w] == Idle
          else Holds(t.pool.workers[w]) && t.pool.workers[w].ref == s.pool.workers[w].ref)
    decreases StepsLeft(s.pool.workers[w])
  {
    hide Next, Enabled;
    var was := s.pool.workers[w];
    if left == StepsLeft(was) {
      assert s.pool.workers[w := was] == s.pool.workers;
      return [];
    }
    var body: bytes := [0, 0, 0, 0, 0, 0, 0, 0];
    WorkerGoesOn(s, w, body, limit);
    var a := if was.Running? then DoReturn(w) else DoFinish(w, body);
    var t := Next(s, a, limit);
    if Holds(t.pool.workers[w]) {
      var rest := WorkerGoesTo(t, w, left, limit);
      steps := [a] + rest;
      assert steps[1..] == rest;
    } else {
      RunOne(s, a, limit);
      steps := [a];
    }
  }

  /** A worker that has not left can come to take from the queue. */
  lemma ComesToTake(s: State, w: nat, limit: nat) returns (steps: seq<Action>)
    requires w < |s.pool.workers| && s.pool.workers[w] != Exited
    ensures CanRun(s, steps, limit)
    ensures var t := After(s, steps, limit);
      w < |t.pool.workers| && t.pool.workers[w] in {Idle, Notified} && t.pool.queue == s.pool.queue
  {
    if Holds(s.pool.workers[w]) {
      steps := WorkerGoesTo(s, w, 0, limit);
    } else if s.pool.workers[w] == Asleep {
      RunOne(s, DoWake(w), limit);
      steps := [DoWake(w)];
    } else {
      steps := [];
    }
  }

  /** And from there to any request in the queue. */
  lemma {:induction false} ComesToEnd(s: State, w: nat, j: nat, limit: nat) returns (steps: seq<Action>)
    requires w < |s.pool.workers| && s.pool.workers[w] != Exited && j < |s.pool.queue|
    ensures CanRun(s, steps, limit)
    ensures var t := After(s, steps, limit);
      w < |t.pool.workers| && t.pool.workers[w] == Closing(s.pool.queue[j], SendEnd)
    decreases j
  {
    hide Next, Enabled;
    var before := ComesToTake(s, w, limit);
    var t := After(s, before, limit);
    Takes(t, w, limit);
    RunOne(t, DoTake(w), limit);
    RunThen(s, before, [DoTake(w)], limit);
    var taken := Next(t, DoTake(w), limit);
    var rest;
    if j == 0 {
      rest := WorkerGoesTo(taken, w, 2, limit);
      TwoLeft(After(taken, rest, limit).pool.workers[w]);
    } else {
      rest := ComesToEnd(taken, w, j - 1, limit);
    }
    RunThen(s, before + [DoTake(w)], rest, limit);
    steps := before + [DoTake(w)] + rest;
  }

  lemma TwoLeft(w: Worker)
    requires StepsLeft(w) == 2
    ensures w.Closing? && w.stage == SendEnd
  {}

  lemma Takes(s: State, w: nat, limit: nat)
    requires w < |s.pool.workers| && s.pool.workers[w] in {Idle, Notified} && s.pool.queue != []
    ensures Enabled(s, DoTake(w), limit)
    ensures var t := Next(s, DoTake(w), limit);
      && |t.pool.workers| == |s.pool.workers| && t.pool.workers[w] == Running(s.pool.queue[0])
      && t.pool.queue == s.pool.queue[1..]
  {}

  // ----- In every run -----

  lemma {:induction false} SomeNotified(ws: seq<Worker>) returns (w: nat)
    requires CountNotified(ws) > 0
    ensures w < |ws| && ws[w] == Notified
    decreases |ws|
  {
    if ws[0] == Notified {
      w := 0;
    } else {
      var v := SomeNotified(ws[1..]);
      w := v + 1;
    }
  }

  /** In every reachable state with a queued request, if some worker is neither at a request nor gone, then
      some worker may take the request now: none has to be woken first. */
  lemma QueueIsServed(trace: seq<State>, actions: seq<Action>, limit: nat, i: nat, v: nat) returns (w: nat)
    requires Run(trace, actions, limit) && i < |trace| && trace[i].pool.queue != []
    requires v < |trace[i].pool.workers| && !Holds(trace[i].pool.workers[v]) && trace[i].pool.workers[v] != Exited
    ensures w < |trace[i].pool.workers| && Enabled(trace[i], DoTake(w), limit)
    ensures Next(trace[i], DoTake(w), limit).pool.workers[w] == Running(trace[i].pool.queue[0])
  {
    hide Next;
    RunInv(trace, actions, limit, i);
    var s := trace[i];
    if s.pool.workers[v] == Asleep {
      w := SomeNotified(s.pool.workers);
    } else {
      w := v;
    }
    Takes(s, w, limit);
  }

  /** In every reachable state, as long as a worker has not left: the server can go on so that the request at
      any place of the queue gets its END_REQUEST, with any status. */
  lemma QueuedCanEnd(trace: seq<State>, actions: seq<Action>, limit: nat, i: nat, j: nat, w: nat, body: bytes)
    returns (steps: seq<Action>)
    requires Run(trace, actions, limit) && i < |trace| && j < |trace[i].pool.queue| && |body| == 8
    requires w < |trace[i].pool.workers| && trace[i].pool.workers[w] != Exited
    ensures CanRun(trace[i], steps, limit)
    ensures var t, r := After(trace[i], steps, limit), trace[i].pool.queue[j];
      && r.conn < |t.conns| && t.conns[r.conn].log != []
      && t.conns[r.conn].log[|t.conns[r.conn].log| - 1] == Emitted(Record(EndRequest, r.slot + 1, body))
  {
    hide Inv, Next, Enabled;
    var s := trace[i];
    RunInv(trace, actions, limit, i);
    var before := ComesToEnd(s, w, j, limit);
    var t := After(s, before, limit);
    AfterInv(s, before, limit);
    SendsEnd(t, w, body, limit);
    RunOne(t, DoFinish(w, body), limit);
    RunThen(s, before, [DoFinish(w, body)], limit);
    steps := before + [DoFinish(w, body)];
  }

  lemma SendsEnd(s: State, w: nat, body: bytes, limit: nat)
    requires Inv(s) && w < |s.pool.workers| && s.pool.workers[w].Closing? && s.pool.workers[w].stage == SendEnd
    requires |body| == 8
    ensures Enabled(s, DoFinish(w, body), limit)
    ensures var t, r := Next(s, DoFinish(w, body), limit), s.pool.workers[w].ref;
      && r.conn < |t.conns| && t.conns[r.conn].log != []
      && t.conns[r.conn].log[|t.conns[r.conn].log| - 1] == Emitted(Record(EndRequest, r.slot + 1, body))
  {
    hide Inv;
    HeldIsPending(s, w);
  }
}
