/** The assertion that a thread makes when it has raised the active count: active is at most total. It
    loads the two counters one after the other, in either order, while other threads move. */
module PoolAssertions {
  import opened ConnectionPool

  /** Thread `p` does not move. */
  ghost predicate Still(steps: seq<Step>, p: nat) {
    forall i :: 0 <= i < |steps| ==> steps[i].p != p
  }

  /** Thread `p` has its connection and has raised the active count; it loads one counter after the
      run `a` and the other after the run `b` that follows. */
  ghost predicate Loads(x0: Pool, a: seq<Step>, b: seq<Step>, p: nat) {
    && CanRun(x0, a)
    && p < |Run(x0, a).threads| && Run(x0, a).threads[p].Lent?
    && CanRun(Run(x0, a), b) && Still(b, p)
  }

  ghost predicate Passes(x0: Pool, a: seq<Step>, b: seq<Step>, activeFirst: bool)
    requires CanRun(x0, a) && CanRun(Run(x0, a), b)
  {
    var x, y := Run(x0, a), Run(Run(x0, a), b);
    if activeFirst then x.active <= y.total else y.active <= x.total
  }

  // ----- When it holds -----

  lemma {:induction false} StaysLent(x: Pool, b: seq<Step>, p: nat)
    requires CanRun(x, b) && Still(b, p) && p < |x.threads| && x.threads[p].Lent?
    ensures |Run(x, b).threads| == |x.threads| && Run(x, b).threads[p].Lent?
    decreases |b|
  {
    if b != [] {
      assert b[0].p != p;
      StaysLent(Next(x, b[0]), b[1..], p);
    }
  }

  lemma {:induction false} ThreadsStay(x: Pool, steps: seq<Step>)
    requires CanRun(x, steps)
    ensures |Run(x, steps).threads| == |x.threads|
    decreases |steps|
  {
    if steps != [] {
      ThreadsStay(Next(x, steps[0]), steps[1..]);
    }
  }

  lemma {:induction false} CountsOne(threads: seq<Thread>, n: nat, p: nat)
    requires p < n <= |threads| && Answers(threads[p])
    ensures Count(threads, n, Answers) >= 1
  {
    if p < n - 1 {
      CountsOne(threads, n - 1, p);
    }
  }

  lemma TotalAtLeast(x: Pool, p: nat)
    requires CountersOk(x) && p < |x.threads| && x.threads[p].Lent?
    ensures x.total >= x.prefilled + 1
  {
    CountsOne(x.threads, |x.threads|, p);
  }

  lemma ActiveAtMost(x: Pool)
    requires CountersOk(x) && (|x.threads| <= x.prefilled + 1 || x.maxSize <= 2 * x.prefilled + 1)
    ensures x.active <= x.prefilled + 1
  {
    CountAtMost(x.threads, |x.threads|, IsLent);
    CountBelow(x.threads, |x.threads|);
  }

  lemma LoadsPass(maxSize: nat, prefilled: nat, threads: nat, a: seq<Step>, b: seq<Step>, p: nat, activeFirst: bool)
    requires prefilled <= maxSize && Loads(Start(maxSize, prefilled, threads), a, b, p)
    requires threads <= prefilled + 1 || maxSize <= 2 * prefilled + 1
    ensures Passes(Start(maxSize, prefilled, threads), a, b, activeFirst)
  {
    var x0 := Start(maxSize, prefilled, threads);
    StartCounters(maxSize, prefilled, threads);
    RunCounters(x0, a);
    RunCounters(Run(x0, a), b);
    ThreadsStay(x0, a);
    StaysLent(Run(x0, a), b, p);
    TotalAtLeast(Run(x0, a), p);
    TotalAtLeast(Run(Run(x0, a), b), p);
    ActiveAtMost(Run(x0, a));
    ActiveAtMost(Run(Run(x0, a), b));
  }

  // ----- When it fails -----

  /** Thread 0 is looking for a connection among `n` pooled ones, nobody else has begun. */
  ghost predicate Hunting(x: Pool, n: nat) {
    && |x.threads| > 0 && !x.lock && (x.threads[0].WantsLock? || x.threads[0].Dying?)
    && (forall i :: 1 <= i < |x.threads| ==> x.threads[i].Outside?)
    && |x.idle| == n && x.total == n + x.prefilled && x.active == 0
  }

  /** The first `k` threads hold a connection each, nobody else has begun, and the pool is empty. */
  ghost predicate LentUpTo(x: Pool, k: nat) {
    && k <= |x.threads| && !x.lock && x.idle == []
    && (forall i :: 0 <= i < k ==> x.threads[i].Lent?)
    && (forall i :: k <= i < |x.threads| ==> x.threads[i].Outside?)
    && x.total == k + x.prefilled && x.active == k
  }

  ghost predicate SameSize(x: Pool, y: Pool) {
    y.maxSize == x.maxSize && y.prefilled == x.prefilled && |y.threads| == |x.threads|
  }

  /** Thread 0 finds every pooled connection dead. */
  lemma {:induction false} Hunt(x0: Pool, a: seq<Step>, n: nat) returns (b: seq<Step>)
    requires CanRun(x0, a) && Hunting(Run(x0, a), n)
    ensures CanRun(x0, b) && Hunting(Run(x0, b), 0) && SameSize(Run(x0, a), Run(x0, b))
    decreases n
  {
    if n == 0 {
      b := a;
    } else {
      b := Then(x0, a, TakeLock(0));
      b := Then(x0, b, Look(0));
      b := Then(x0, b, Validate(0, false));
      b := Hunt(x0, b, n - 1);
    }
  }

  /** It then makes its own. */
  lemma MakeOwn(x0: Pool, a: seq<Step>) returns (b: seq<Step>)
    requires CanRun(x0, a) && Hunting(Run(x0, a), 0) && Run(x0, a).total < Run(x0, a).maxSize
    ensures CanRun(x0, b) && LentUpTo(Run(x0, b), 1) && SameSize(Run(x0, a), Run(x0, b))
  {
    b := Then(x0, a, TakeLock(0));
    b := Then(x0, b, Look(0));
    b := Then(x0, b, Grow(0, false));
    b := Then(x0, b, Create(0, true));
    b := Then(x0, b, Mark(0));
  }

  /** The other threads follow, up to `k` in all. */
  lemma {:induction false} LendMore(y: Pool, k: nat) returns (b: seq<Step>)
    requires LentUpTo(y, 1) && 1 <= k <= |y.threads| && y.prefilled + k <= y.maxSize
    ensures CanRun(y, b) && Still(b, 0) && LentUpTo(Run(y, b), k) && SameSize(y, Run(y, b))
  {
    if k == 1 {
      b := [];
    } else {
      var a := LendMore(y, k - 1);
      b := BeginCreating(y, a, k - 1);
      b := Then(y, b, Create(k - 1, true));
      b := Then(y, b, Mark(k - 1));
    }
  }

  /** Thread 0 and those from `k` up to `n` hold connections; the others' have died in their hands. */
  ghost predicate Fallen(x: Pool, k: nat, n: nat) {
    && 1 <= k <= n <= |x.threads| && !x.lock && x.idle == [] && x.threads[0].Lent?
    && (forall i :: k <= i < n ==> x.threads[i].Lent?)
    && x.total == x.prefilled + 1 + (n - k)
  }

  /** Give back, ask again, find it dead. */
  lemma FallOne(y: Pool, a: seq<Step>, k: nat, n: nat) returns (b: seq<Step>)
    requires CanRun(y, a) && Still(a, 0) && Fallen(Run(y, a), k, n) && k < n
    ensures CanRun(y, b) && Still(b, 0) && Fallen(Run(y, b), k + 1, n) && SameSize(Run(y, a), Run(y, b))
  {
    b := Then(y, a, Release(k));
    b := Then(y, b, Return(k));
    b := TakeDead(y, b, k);
  }

  lemma {:induction false} FallAll(y: Pool, k: nat, n: nat) returns (b: seq<Step>)
    requires Fallen(y, 1, n) && 1 <= k <= n
    ensures CanRun(y, b) && Still(b, 0) && Fallen(Run(y, b), k, n) && SameSize(y, Run(y, b))
  {
    if k == 1 {
      b := [];
    } else {
      b := FallAll(y, k - 1, n);
      b := FallOne(y, b, k - 1, n);
    }
  }

  /** A pool that has lost its prefilled connections, with thread 0 holding a new one. */
  lemma OneLent(maxSize: nat, prefilled: nat, threads: nat) returns (a: seq<Step>)
    requires prefilled < maxSize && threads > 0
    ensures var x0 := Start(maxSize, prefilled, threads);
            CanRun(x0, a) && LentUpTo(Run(x0, a), 1) && SameSize(x0, Run(x0, a))
  {
    var x0 := Start(maxSize, prefilled, threads);
    a := Then(x0, [], Enter(0));
    a := Hunt(x0, a, prefilled);
    a := MakeOwn(x0, a);
  }

  lemma LoadsFail(maxSize: nat, prefilled: nat, threads: nat, activeFirst: bool) returns (a: seq<Step>, b: seq<Step>)
    requires prefilled + 2 <= threads && 2 * prefilled + 2 <= maxSize
    ensures var x0 := Start(maxSize, prefilled, threads);
            Loads(x0, a, b, 0) && !Passes(x0, a, b, activeFirst)
  {
    var x0 := Start(maxSize, prefilled, threads);
    a := OneLent(maxSize, prefilled, threads);
    var y := Run(x0, a);
    b := LendMore(y, prefilled + 2);
    if activeFirst {
      var z := Run(y, b);
      RunAppend(x0, a, b);
      a := a + b;
      b := FallAll(z, prefilled + 2, prefilled + 2);
    }
  }

  /** For either order of the two loads: the assertion passes in all runs if and only if there are at
      most one more threads than prefilled connections, or the pool cannot lend more than one more. */
  lemma AcquireAssertionExact(maxSize: nat, prefilled: nat, threads: nat, activeFirst: bool)
    requires prefilled <= maxSize
    ensures (forall a, b, p :: Loads(Start(maxSize, prefilled, threads), a, b, p) ==>
               Passes(Start(maxSize, prefilled, threads), a, b, activeFirst))
            <==> threads <= prefilled + 1 || maxSize <= 2 * prefilled + 1
  {
    var x0 := Start(maxSize, prefilled, threads);
    if threads <= prefilled + 1 || maxSize <= 2 * prefilled + 1 {
      forall a, b, p | Loads(x0, a, b, p)
        ensures Passes(x0, a, b, activeFirst)
      {
        LoadsPass(maxSize, prefilled, threads, a, b, p, activeFirst);
      }
    } else {
      var a, b := LoadsFail(maxSize, prefilled, threads, activeFirst);
      assert Loads(x0, a, b, 0) && !Passes(x0, a, b, activeFirst);
    }
  }
}
