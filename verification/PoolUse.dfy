/** What a user gets from the connection pool: in which order connections are lent, when a thread waits,
    and what an acquisition or a return comes to when nobody else moves. */
module PoolUse {
  import opened ConnectionPool

  // ----- Order -----

  /** The connections given back, and the connections taken from the pool, in the order of the run. */
  function GivenBack(x: Pool, steps: seq<Step>): seq<Conn>
    requires CanRun(x, steps)
    decreases |steps|
  {
    if steps == [] then []
    else (if steps[0].Return? then [x.threads[steps[0].p].c] else []) + GivenBack(Next(x, steps[0]), steps[1..])
  }

  function TakenOut(x: Pool, steps: seq<Step>): seq<Conn>
    requires CanRun(x, steps)
    decreases |steps|
  {
    if steps == [] then []
    else
      var x' := Next(x, steps[0]);
      (if steps[0].Look? && x'.threads[steps[0].p].Validating? then [x'.threads[steps[0].p].c] else [])
      + TakenOut(x', steps[1..])
  }

  lemma OneStepFifo(x: Pool, s: Step)
    requires Enabled(x, s)
    ensures var x' := Next(x, s);
            x.idle + (if s.Return? then [x.threads[s.p].c] else [])
            == (if s.Look? && x'.threads[s.p].Validating? then [x'.threads[s.p].c] else []) + x'.idle
  {
  }

  lemma Shift<T>(idle: seq<T>, back: seq<T>, out: seq<T>, idle': seq<T>, back': seq<T>, out': seq<T>, end: seq<T>)
    requires idle + back == out + idle' && idle' + back' == out' + end
    ensures idle + (back + back') == (out + out') + end
  {
    assert idle + (back + back') == (idle + back) + back';
    assert (out + idle') + back' == out + (idle' + back');
    assert out + (out' + end) == (out + out') + end;
  }

  /** First in, first out, in every interleaving: what was pooled at the beginning and what was given back
      since is what was taken, in that order, followed by what is pooled now. */
  lemma {:induction false} PoolIsFifo(x: Pool, steps: seq<Step>)
    requires CanRun(x, steps)
    ensures x.idle + GivenBack(x, steps) == TakenOut(x, steps) + Run(x, steps).idle
    decreases |steps|
  {
    if steps != [] {
      var s, x' := steps[0], Next(x, steps[0]);
      OneStepFifo(x, s);
      PoolIsFifo(x', steps[1..]);
      Shift(x.idle, if s.Return? then [x.threads[s.p].c] else [],
            if s.Look? && x'.threads[s.p].Validating? then [x'.threads[s.p].c] else [],
            x'.idle, GivenBack(x', steps[1..]), TakenOut(x', steps[1..]), Run(x, steps).idle);
    }
  }

  /** A thread begins to wait only with the pool empty, and tries to grow the pool only with the pool
      empty and the number it has read below the limit. */
  lemma WaitsOnlyWhenEmpty(x: Pool, s: Step)
    requires LockOk(x) && Enabled(x, s)
    ensures Next(x, s).threads[s.p].Waiting? ==> x.idle == []
    ensures Next(x, s).threads[s.p].Creating? ==>
              x.idle == [] && x.threads[s.p].current == x.total < x.maxSize && Next(x, s).total == x.total + 1
  {
  }

  // ----- Nobody else moves -----

  ghost predicate CanEnter(x: Pool, p: nat) {
    p < |x.threads| && x.threads[p].Outside? && !x.lock
  }

  lemma Begin(x: Pool, p: nat) returns (steps: seq<Step>)
    requires CanEnter(x, p)
    ensures CanRun(x, steps) && Run(x, steps) == x.(lock := true, threads := x.threads[p := Looking])
  {
    steps := Then(x, [], Enter(p));
    steps := Then(x, steps, TakeLock(p));
    assert Run(x, steps).threads == x.threads[p := Looking];
  }

  /** A pooled connection that is alive: the first one is lent. */
  lemma AcquirePooled(x: Pool, p: nat) returns (steps: seq<Step>)
    requires CanEnter(x, p) && x.idle != []
    ensures CanRun(x, steps)
    ensures Run(x, steps) == x.(idle := x.idle[1..], active := x.active + 1, threads := x.threads[p := Lent(x.idle[0])])
  {
    steps := Begin(x, p);
    steps := Then(x, steps, Look(p));
    steps := Then(x, steps, Validate(p, true));
    steps := Then(x, steps, Mark(p));
    assert Run(x, steps).threads == x.threads[p := Lent(x.idle[0])];
  }

  /** An empty pool below its limit: a new connection is lent and counted. */
  lemma AcquireNew(x: Pool, p: nat) returns (steps: seq<Step>)
    requires CanEnter(x, p) && x.idle == [] && x.total < x.maxSize
    ensures CanRun(x, steps)
    ensures Run(x, steps) == x.(total := x.total + 1, active := x.active + 1, nextConn := x.nextConn + 1,
                                threads := x.threads[p := Lent(x.nextConn)])
  {
    steps := BeginCreating(x, [], p);
    steps := Then(x, steps, Create(p, true));
    steps := Then(x, steps, Mark(p));
    assert Run(x, steps).threads == x.threads[p := Lent(x.nextConn)];
  }

  /** An empty pool at its limit: the thread waits, and nothing has changed. */
  lemma AcquireWaits(x: Pool, p: nat) returns (steps: seq<Step>)
    requires CanEnter(x, p) && x.idle == [] && x.total >= x.maxSize
    ensures CanRun(x, steps) && Run(x, steps) == x.(threads := x.threads[p := Waiting])
  {
    steps := Begin(x, p);
    steps := Then(x, steps, Look(p));
    steps := Then(x, steps, Grow(p, false));
    steps := Then(x, steps, Recheck(p));
    assert Run(x, steps).threads == x.threads[p := Waiting];
  }

  /** A connection that cannot be made is uncounted again before the thread waits. */
  lemma CreationFails(x: Pool, p: nat) returns (steps: seq<Step>)
    requires CanEnter(x, p) && x.idle == [] && x.total < x.maxSize
    ensures CanRun(x, steps) && Run(x, steps) == x.(threads := x.threads[p := Waiting])
  {
    steps := BeginCreating(x, [], p);
    steps := Then(x, steps, Create(p, false));
    steps := Then(x, steps, TakeLock(p));
    steps := Then(x, steps, Recheck(p));
    assert Run(x, steps).threads == x.threads[p := Waiting];
  }

  /** A connection given back is the last in the pool and no longer active. */
  lemma GiveBack(x: Pool, p: nat) returns (steps: seq<Step>)
    requires p < |x.threads| && x.threads[p].Lent? && !x.lock
    ensures CanRun(x, steps)
    ensures Run(x, steps) == x.(idle := x.idle + [x.threads[p].c], active := x.active - 1,
                                threads := x.threads[p := Outside])
  {
    steps := Then(x, [], Release(p));
    steps := Then(x, steps, Return(p));
    assert Run(x, steps).threads == x.threads[p := Outside];
  }

  /** A waiting thread that is woken with a live connection in the pool gets the first one. */
  lemma WokenTakes(x: Pool, p: nat) returns (steps: seq<Step>)
    requires p < |x.threads| && x.threads[p].Waiting? && !x.lock && x.idle != []
    ensures CanRun(x, steps)
    ensures Run(x, steps) == x.(idle := x.idle[1..], active := x.active + 1, threads := x.threads[p := Lent(x.idle[0])])
  {
    steps := Then(x, [], TakeLock(p));
    steps := Then(x, steps, Look(p));
    steps := Then(x, steps, Validate(p, true));
    steps := Then(x, steps, Mark(p));
    assert Run(x, steps).threads == x.threads[p := Lent(x.idle[0])];
  }

  /** A pooled connection found dead is uncounted and the search goes on with the next one. */
  lemma DeadIsSkipped(x: Pool, p: nat) returns (steps: seq<Step>)
    requires CanEnter(x, p) && |x.idle| >= 2
    ensures CanRun(x, steps)
    ensures Run(x, steps) == x.(idle := x.idle[2..], total := x.total - 1, active := x.active + 1,
                                threads := x.threads[p := Lent(x.idle[1])])
  {
    steps := TakeDead(x, [], p);
    var y := Run(x, steps);
    steps := Then(x, steps, TakeLock(p));
    steps := Then(x, steps, Look(p));
    steps := Then(x, steps, Validate(p, true));
    steps := Then(x, steps, Mark(p));
    assert Run(x, steps).threads == x.threads[p := Lent(x.idle[1])];
    assert Run(x, steps).idle == x.idle[2..];
  }
}
