/** The database connection pool before shutdown, as interleaved steps of any number of threads. The
    pool is touched under the lock; the counters are atomics changed at any time. */
module ConnectionPool {

  type Conn = nat

  /** Where a thread is in `acquireConnection` or `releaseConnection`. Looking, Loaded and Rechecking
      hold the lock. */
  datatype Thread =
    | Outside
    | WantsLock
    | Looking
    | Loaded(current: int)          // total read, about to compare and swap
    | Rechecking                    // about to wait for a returned connection
    | Waiting
    | Validating(c: Conn)           // taken from the pool, lock released
    | Dying(c: Conn)                // found dead and uncounted, object not yet destroyed
    | Creating                      // counted, connecting
    | CreateFailed                  // uncounted again, about to relock
    | Marking(c: Conn)              // good connection in hand, active not yet raised
    | Lent(c: Conn)
    | Returning(c: Conn)            // active lowered, not yet back in the pool

  datatype Pool = Pool(maxSize: nat, prefilled: nat, idle: seq<Conn>, total: int, active: int,
                       threads: seq<Thread>, lock: bool, nextConn: Conn)

  datatype Step =
    | Enter(p: nat)
    | TakeLock(p: nat)
    | Look(p: nat)
    | Grow(p: nat, spurious: bool)
    | Recheck(p: nat)
    | GiveUp(p: nat)
    | Validate(p: nat, ok: bool)
    | Create(p: nat, ok: bool)
    | Mark(p: nat)
    | Release(p: nat)
    | Return(p: nat)

  predicate Enabled(x: Pool, s: Step) {
    && s.p < |x.threads|
    && var t := x.threads[s.p];
       match s
       case Enter(_) => t.Outside?
       case TakeLock(_) => !x.lock && (t.WantsLock? || t.Dying? || t.CreateFailed? || t.Waiting?)
       case Look(_) => t.Looking?
       case Grow(_, _) => t.Loaded?
       case Recheck(_) => t.Rechecking?
       case GiveUp(_) => t.Waiting?
       case Validate(_, _) => t.Validating?
       case Create(_, _) => t.Creating?
       case Mark(_) => t.Marking?
       case Release(_) => t.Lent?
       case Return(_) => t.Returning? && !x.lock
  }

  function With(x: Pool, p: nat, t: Thread): Pool
    requires p < |x.threads|
  {
    x.(threads := x.threads[p := t])
  }

  function Next(x: Pool, s: Step): Pool
    requires Enabled(x, s)
  {
    var t := x.threads[s.p];
    match s
    case Enter(p) => With(x, p, WantsLock)
    case TakeLock(p) => With(x, p, if t.CreateFailed? then Rechecking else Looking).(lock := true)
    case Look(p) =>
      if x.idle != [] then With(x, p, Validating(x.idle[0])).(idle := x.idle[1..], lock := false)
      else With(x, p, Loaded(x.total))
    case Grow(p, spurious) =>
      if t.current < x.maxSize && x.total == t.current && !spurious
      then With(x, p, Creating).(total := x.total + 1, lock := false)
      else With(x, p, Rechecking)
    case Recheck(p) => if x.idle != [] then With(x, p, Looking) else With(x, p, Waiting).(lock := false)
    case GiveUp(p) => With(x, p, Outside)
    case Validate(p, ok) =>
      if ok then With(x, p, Marking(t.c)) else With(x, p, Dying(t.c)).(total := x.total - 1)
    case Create(p, ok) =>
      if ok then With(x, p, Marking(x.nextConn)).(nextConn := x.nextConn + 1)
      else With(x, p, CreateFailed).(total := x.total - 1)
    case Mark(p) => With(x, p, Lent(t.c)).(active := x.active + 1)
    case Release(p) => With(x, p, Returning(t.c)).(active := x.active - 1)
    case Return(p) => With(x, p, Outside).(idle := x.idle + [t.c])
  }

  predicate CanRun(x: Pool, steps: seq<Step>)
    decreases |steps|
  {
    steps == [] || (Enabled(x, steps[0]) && CanRun(Next(x, steps[0]), steps[1..]))
  }

  function Run(x: Pool, steps: seq<Step>): Pool
    requires CanRun(x, steps)
    decreases |steps|
  {
    if steps == [] then x else Run(Next(x, steps[0]), steps[1..])
  }

  // ----- Construction -----

  function Successes(outcomes: seq<bool>): nat {
    if outcomes == [] then 0
    else Successes(outcomes[..|outcomes| - 1]) + if outcomes[|outcomes| - 1] then 1 else 0
  }

  /** The prefill loop of the constructor, given which connection attempts succeed: each connection
      is counted once directly and once more by the counter helper. */
  method Prefill(outcomes: seq<bool>) returns (idle: seq<Conn>, total: int)
    ensures idle == seq(Successes(outcomes), i => i)
    ensures total == 2 * Successes(outcomes)
  {
    idle, total := [], 0;
    var i := 0;
    while i < |outcomes|
      invariant 0 <= i <= |outcomes|
      invariant idle == seq(Successes(outcomes[..i]), k => k)
      invariant total == 2 * Successes(outcomes[..i])
    {
      assert outcomes[..i + 1][..i] == outcomes[..i];
      if outcomes[i] {
        idle := idle + [|idle|];
        total := total + 1;
        total := total + 1;
      }
      i := i + 1;
    }
    assert outcomes[..|outcomes|] == outcomes;
  }

  /** A pool of `threads` users after a prefill that produced `prefilled` connections. */
  function Start(maxSize: nat, prefilled: nat, threads: nat): Pool {
    Pool(maxSize, prefilled, seq(prefilled, i => i), 2 * prefilled, 0, seq(threads, _ => Outside), false, prefilled)
  }

  /** The constructor, followed by `threads` users. */
  method Construct(maxSize: nat, outcomes: seq<bool>, threads: nat) returns (x: Pool)
    ensures x == Start(maxSize, Successes(outcomes), threads)
  {
    var idle, total := Prefill(outcomes);
    x := Pool(maxSize, |idle|, idle, total, 0, seq(threads, _ => Outside), false, |idle|);
  }

  // ----- Counting -----

  /** The thread answers for one unit of the total: a connection it validates, creates, holds or
      returns. */
  predicate Answers(t: Thread) {
    t.Validating? || t.Creating? || t.Marking? || t.Lent? || t.Returning?
  }

  function Count(threads: seq<Thread>, n: nat, kind: Thread -> bool): nat
    requires n <= |threads|
  {
    if n == 0 then 0 else Count(threads, n - 1, kind) + if kind(threads[n - 1]) then 1 else 0
  }

  function Answered(x: Pool): nat {
    Count(x.threads, |x.threads|, Answers)
  }

  predicate IsLent(t: Thread) {
    t.Lent?
  }

  function LentOut(x: Pool): nat {
    Count(x.threads, |x.threads|, IsLent)
  }

  lemma {:induction false} CountSet(threads: seq<Thread>, n: nat, kind: Thread -> bool, p: nat, t: Thread)
    requires n <= |threads| && p < |threads|
    ensures Count(threads[p := t], n, kind)
            == Count(threads, n, kind) + if p < n then (if kind(t) then 1 else 0) - (if kind(threads[p]) then 1 else 0) else 0
  {
    if n > 0 {
      CountSet(threads, n - 1, kind, p, t);
    }
  }

  lemma {:induction false} CountNone(threads: seq<Thread>, n: nat, kind: Thread -> bool)
    requires n <= |threads| && forall i :: 0 <= i < n ==> !kind(threads[i])
    ensures Count(threads, n, kind) == 0
  {
    if n > 0 {
      CountNone(threads, n - 1, kind);
    }
  }

  lemma {:induction false} CountBelow(threads: seq<Thread>, n: nat)
    requires n <= |threads|
    ensures Count(threads, n, IsLent) <= Count(threads, n, Answers)
  {
    if n > 0 {
      CountBelow(threads, n - 1);
    }
  }

  /** The connections that the pool answers for. */
  function Live(x: Pool): nat {
    |x.idle| + Answered(x)
  }

  function Larger(a: int, b: int): int {
    if a < b then b else a
  }

  ghost predicate CountersOk(x: Pool) {
    && x.total == Live(x) + x.prefilled
    && x.active == LentOut(x)
    && x.total <= Larger(x.maxSize, 2 * x.prefilled)
  }

  function Unit(b: bool): int {
    if b then 1 else 0
  }

  /** A step changes the two counts only through its own thread. */
  lemma StepCounts(x: Pool, s: Step)
    requires Enabled(x, s)
    ensures var x' := Next(x, s);
            && |x'.threads| == |x.threads|
            && Answered(x') == Answered(x) + Unit(Answers(x'.threads[s.p])) - Unit(Answers(x.threads[s.p]))
            && LentOut(x') == LentOut(x) + Unit(x'.threads[s.p].Lent?) - Unit(x.threads[s.p].Lent?)
  {
    var x' := Next(x, s);
    CountSet(x.threads, |x.threads|, Answers, s.p, x'.threads[s.p]);
    CountSet(x.threads, |x.threads|, IsLent, s.p, x'.threads[s.p]);
    assert x'.threads == x.threads[s.p := x'.threads[s.p]];
  }

  lemma NextCounters(x: Pool, s: Step)
    requires CountersOk(x) && Enabled(x, s)
    ensures CountersOk(Next(x, s))
  {
    StepCounts(x, s);
  }

  lemma {:induction false} RunCounters(x: Pool, steps: seq<Step>)
    requires CountersOk(x) && CanRun(x, steps)
    ensures CountersOk(Run(x, steps)) && Run(x, steps).maxSize == x.maxSize && Run(x, steps).prefilled == x.prefilled
    decreases |steps|
  {
    if steps != [] {
      NextCounters(x, steps[0]);
      RunCounters(Next(x, steps[0]), steps[1..]);
    }
  }

  lemma StartCounters(maxSize: nat, prefilled: nat, threads: nat)
    requires prefilled <= maxSize
    ensures CountersOk(Start(maxSize, prefilled, threads))
  {
    CountNone(Start(maxSize, prefilled, threads).threads, threads, Answers);
    CountNone(Start(maxSize, prefilled, threads).threads, threads, IsLent);
  }

  /** In every interleaving, with failed validations and failed creations, the total counter is what
      is pooled, lent, being validated, created or returned, plus the constant number prefilled. So
      the pool never answers for more than `maxSize` connections; the double count costs it
      `prefilled` of them, down to the prefilled ones themselves. */
  lemma TotalIsExact(maxSize: nat, prefilled: nat, threads: nat, steps: seq<Step>)
    requires prefilled <= maxSize && CanRun(Start(maxSize, prefilled, threads), steps)
    ensures var x := Run(Start(maxSize, prefilled, threads), steps);
            && x.total == |x.idle| + Answered(x) + prefilled
            && Live(x) <= Larger(maxSize - prefilled, prefilled) <= maxSize
  {
    StartCounters(maxSize, prefilled, threads);
    RunCounters(Start(maxSize, prefilled, threads), steps);
  }

  /** At every moment the active count is not negative and at most the total, the total is at least
      the pooled number, and total less active is the pooled number plus the prefilled one plus what is
      between pool and user. These are the assertions of the source that load one counter, and the
      pooled number is stable under the lock; an assertion that loads both counters can see two
      different moments and is another matter. */
  lemma CountersAtOneMoment(maxSize: nat, prefilled: nat, threads: nat, steps: seq<Step>)
    requires prefilled <= maxSize && CanRun(Start(maxSize, prefilled, threads), steps)
    ensures var x := Run(Start(maxSize, prefilled, threads), steps);
            && 0 <= x.active <= x.total && |x.idle| <= x.total
            && x.total - x.active == |x.idle| + (Answered(x) - LentOut(x)) + prefilled
  {
    StartCounters(maxSize, prefilled, threads);
    RunCounters(Start(maxSize, prefilled, threads), steps);
    var x := Run(Start(maxSize, prefilled, threads), steps);
    CountBelow(x.threads, |x.threads|);
  }

  // ----- One home per connection -----

  predicate Carries(t: Thread, c: Conn) {
    (t.Validating? || t.Dying? || t.Marking? || t.Lent? || t.Returning?) && t.c == c
  }

  ghost predicate InHand(x: Pool, p: nat, c: Conn) {
    p < |x.threads| && Carries(x.threads[p], c)
  }

  /** Every connection is in one place: once in the pool or in one thread's hands. */
  ghost predicate OneHome(x: Pool) {
    && (forall i :: 0 <= i < |x.idle| ==> x.idle[i] < x.nextConn)
    && (forall i, j :: 0 <= i < j < |x.idle| ==> x.idle[i] != x.idle[j])
    && (forall p: nat, c: Conn :: InHand(x, p, c) ==> c < x.nextConn && c !in x.idle)
    && (forall p: nat, q: nat, c: Conn :: InHand(x, p, c) && InHand(x, q, c) ==> p == q)
  }

  /** One thread moves on without taking or giving up a connection, or lets go of one. */
  lemma HandsOnly(x: Pool, x': Pool, p: nat)
    requires OneHome(x) && p < |x.threads| == |x'.threads| && x'.threads == x.threads[p := x'.threads[p]]
    requires x'.idle == x.idle && x'.nextConn == x.nextConn
    requires forall c :: Carries(x'.threads[p], c) ==> Carries(x.threads[p], c)
    ensures OneHome(x')
  {
    forall q: nat, c: Conn
      ensures InHand(x', q, c) ==> InHand(x, q, c)
    {
    }
  }

  lemma LookHome(x: Pool, p: nat)
    requires OneHome(x) && Enabled(x, Look(p)) && x.idle != []
    ensures OneHome(Next(x, Look(p)))
  {
    var x' := Next(x, Look(p));
    forall q: nat, c: Conn
      ensures InHand(x', q, c) ==> (q == p && c == x.idle[0]) || InHand(x, q, c)
    {
    }
    assert forall c :: c in x'.idle ==> c in x.idle && c != x.idle[0];
  }

  lemma CreateHome(x: Pool, p: nat)
    requires OneHome(x) && Enabled(x, Create(p, true))
    ensures OneHome(Next(x, Create(p, true)))
  {
    var x' := Next(x, Create(p, true));
    forall q: nat, c: Conn
      ensures InHand(x', q, c) ==> (q == p && c == x.nextConn) || InHand(x, q, c)
    {
    }
  }

  lemma ReturnHome(x: Pool, p: nat)
    requires OneHome(x) && Enabled(x, Return(p))
    ensures OneHome(Next(x, Return(p)))
  {
    var x' := Next(x, Return(p));
    assert InHand(x, p, x.threads[p].c);
    forall q: nat, c: Conn
      ensures InHand(x', q, c) ==> q != p && InHand(x, q, c)
    {
    }
    assert forall c :: c in x'.idle ==> c in x.idle || c == x.threads[p].c;
  }

  lemma NextOneHome(x: Pool, s: Step)
    requires OneHome(x) && Enabled(x, s)
    ensures OneHome(Next(x, s))
  {
    if s.Look? && x.idle != [] {
      LookHome(x, s.p);
    } else if s.Create? && s.ok {
      CreateHome(x, s.p);
    } else if s.Return? {
      ReturnHome(x, s.p);
    } else {
      HandsOnly(x, Next(x, s), s.p);
    }
  }

  /** No connection is ever lent to two threads, or lent while it is in the pool. */
  lemma {:induction false} AlwaysOneHome(x: Pool, steps: seq<Step>)
    requires OneHome(x) && CanRun(x, steps)
    ensures OneHome(Run(x, steps))
    decreases |steps|
  {
    if steps != [] {
      NextOneHome(x, steps[0]);
      AlwaysOneHome(Next(x, steps[0]), steps[1..]);
    }
  }

  lemma OneHomeFromStart(maxSize: nat, prefilled: nat, threads: nat, steps: seq<Step>)
    requires CanRun(Start(maxSize, prefilled, threads), steps)
    ensures OneHome(Run(Start(maxSize, prefilled, threads), steps))
  {
    AlwaysOneHome(Start(maxSize, prefilled, threads), steps);
  }

  // ----- Objects against the limit -----

  /** The thread has a connection object, a dead one included. */
  predicate HasObject(t: Thread) {
    t.Validating? || t.Dying? || t.Marking? || t.Lent? || t.Returning?
  }

  /** It has one or is about to have one. */
  predicate Keeps(t: Thread) {
    HasObject(t) || t.Creating?
  }

  /** The connection objects that exist. */
  function Physical(x: Pool): nat {
    |x.idle| + Count(x.threads, |x.threads|, HasObject)
  }

  function Potential(x: Pool): nat {
    |x.idle| + Count(x.threads, |x.threads|, Keeps)
  }

  predicate HoldsLock(t: Thread) {
    t.Looking? || t.Loaded? || t.Rechecking?
  }

  /** One thread holds the lock, and the pool is empty while it is about to grow it. */
  ghost predicate LockOk(x: Pool) {
    && (forall p :: 0 <= p < |x.threads| && HoldsLock(x.threads[p]) ==> x.lock)
    && (forall p, q :: 0 <= p < q < |x.threads| ==> !(HoldsLock(x.threads[p]) && HoldsLock(x.threads[q])))
    && (forall p :: 0 <= p < |x.threads| && x.threads[p].Loaded? ==> x.idle == [])
  }

  /** `bound` limits the objects: there are no more threads, or the pool can never grow. */
  ghost predicate ObjectsOk(x: Pool, bound: nat) {
    && LockOk(x) && CountersOk(x)
    && Potential(x) <= bound
    && (|x.threads| <= bound || x.prefilled == x.maxSize)
  }

  lemma NextLockOk(x: Pool, s: Step)
    requires LockOk(x) && Enabled(x, s)
    ensures LockOk(Next(x, s))
  {
    var x' := Next(x, s);
    assert forall q :: 0 <= q < |x.threads| && q != s.p ==> x'.threads[q] == x.threads[q];
    if HoldsLock(x.threads[s.p]) {
      assert forall q :: 0 <= q < |x.threads| && q != s.p ==> !HoldsLock(x.threads[q]);
    }
  }

  lemma {:induction false} CountAtMost(threads: seq<Thread>, n: nat, kind: Thread -> bool)
    requires n <= |threads|
    ensures Count(threads, n, kind) <= n
  {
    if n > 0 {
      CountAtMost(threads, n - 1, kind);
    }
  }

  lemma {:induction false} CountAll(threads: seq<Thread>, n: nat, kind: Thread -> bool)
    requires n <= |threads| && forall i :: 0 <= i < n ==> kind(threads[i])
    ensures Count(threads, n, kind) == n
  {
    if n > 0 {
      CountAll(threads, n - 1, kind);
    }
  }

  lemma {:induction false} ObjectsAreKept(threads: seq<Thread>, n: nat)
    requires n <= |threads|
    ensures Count(threads, n, HasObject) <= Count(threads, n, Keeps)
  {
    if n > 0 {
      ObjectsAreKept(threads, n - 1);
    }
  }

  lemma KeptStep(x: Pool, s: Step)
    requires Enabled(x, s)
    ensures var x' := Next(x, s);
            && |x'.threads| == |x.threads|
            && Count(x'.threads, |x'.threads|, Keeps)
               == Count(x.threads, |x.threads|, Keeps) + Unit(Keeps(x'.threads[s.p])) - Unit(Keeps(x.threads[s.p]))
  {
    var x' := Next(x, s);
    CountSet(x.threads, |x.threads|, Keeps, s.p, x'.threads[s.p]);
    assert x'.threads == x.threads[s.p := x'.threads[s.p]];
  }

  /** Only growing an empty pool adds to the potential, and then every object is in some hand. */
  lemma PotentialStep(x: Pool, s: Step)
    requires LockOk(x) && Enabled(x, s)
    ensures var x' := Next(x, s);
            || Potential(x') <= Potential(x)
            || (Potential(x') <= |x.threads| && x.total < x.maxSize)
  {
    KeptStep(x, s);
    CountAtMost(Next(x, s).threads, |x.threads|, Keeps);
  }

  lemma NextObjectsOk(x: Pool, s: Step, bound: nat)
    requires ObjectsOk(x, bound) && Enabled(x, s)
    ensures ObjectsOk(Next(x, s), bound)
  {
    NextLockOk(x, s);
    NextCounters(x, s);
    PotentialStep(x, s);
  }

  lemma {:induction false} RunObjectsOk(x: Pool, steps: seq<Step>, bound: nat)
    requires ObjectsOk(x, bound) && CanRun(x, steps)
    ensures ObjectsOk(Run(x, steps), bound)
    decreases |steps|
  {
    if steps != [] {
      NextObjectsOk(x, steps[0], bound);
      RunObjectsOk(Next(x, steps[0]), steps[1..], bound);
    }
  }

  lemma ObjectsBounded(maxSize: nat, prefilled: nat, threads: nat, steps: seq<Step>, bound: nat)
    requires prefilled <= maxSize && CanRun(Start(maxSize, prefilled, threads), steps)
    requires prefilled <= bound && (threads <= bound || prefilled == maxSize)
    ensures Physical(Run(Start(maxSize, prefilled, threads), steps)) <= bound
  {
    var x0 := Start(maxSize, prefilled, threads);
    StartCounters(maxSize, prefilled, threads);
    CountNone(x0.threads, threads, Keeps);
    RunObjectsOk(x0, steps, bound);
    var x := Run(x0, steps);
    ObjectsAreKept(x.threads, |x.threads|);
  }

  // ----- A run that keeps as many dead connections as there are threads -----

  lemma {:induction false} RunAppend(x: Pool, a: seq<Step>, b: seq<Step>)
    requires CanRun(x, a) && CanRun(Run(x, a), b)
    ensures CanRun(x, a + b) && Run(x, a + b) == Run(Run(x, a), b)
    decreases |a|
  {
    if a == [] {
      assert a + b == b;
    } else {
      RunAppend(Next(x, a[0]), a[1..], b);
      assert (a + b)[1..] == a[1..] + b;
    }
  }

  /** `b` goes on from `a` with steps of thread `k` only. */
  ghost predicate Extends(a: seq<Step>, b: seq<Step>, k: nat) {
    a <= b && forall i :: |a| <= i < |b| ==> b[i].p == k
  }

  lemma Then(x: Pool, a: seq<Step>, s: Step) returns (b: seq<Step>)
    requires CanRun(x, a) && Enabled(Run(x, a), s)
    ensures b == a + [s] && CanRun(x, b) && Run(x, b) == Next(Run(x, a), s)
  {
    b := a + [s];
    assert [s][1..] == [];
    RunAppend(x, a, [s]);
  }

  /** The first `k` threads each have a dead connection, the others have not begun, and the pool
      answers only for what is left of the prefilled connections. */
  ghost predicate DeadHands(x: Pool, k: nat) {
    && k <= |x.threads| && !x.lock
    && (forall i :: 0 <= i < k ==> x.threads[i].Dying?)
    && (forall i :: k <= i < |x.threads| ==> x.threads[i].Outside?)
    && x.total == |x.idle| + x.prefilled
    && |x.idle| == if k < x.prefilled then x.prefilled - k else 0
  }

  /** Thread `k` takes a pooled connection and finds it dead. */
  lemma TakeDead(x0: Pool, a: seq<Step>, k: nat) returns (b: seq<Step>)
    requires CanRun(x0, a)
    requires var x := Run(x0, a); k < |x.threads| && !x.lock && x.idle != [] && x.threads[k].Outside?
    ensures CanRun(x0, b) && Extends(a, b, k)
    ensures var x := Run(x0, a);
            Run(x0, b) == x.(idle := x.idle[1..], total := x.total - 1, threads := x.threads[k := Dying(x.idle[0])])
  {
    ghost var x := Run(x0, a);
    b := Then(x0, a, Enter(k));
    b := Then(x0, b, TakeLock(k));
    b := Then(x0, b, Look(k));
    b := Then(x0, b, Validate(k, false));
    assert Run(x0, b).threads == x.threads[k := Dying(x.idle[0])];
  }

  /** Thread `k` finds the pool empty and makes room for a new connection. */
  lemma BeginCreating(x0: Pool, a: seq<Step>, k: nat) returns (b: seq<Step>)
    requires CanRun(x0, a)
    requires var x := Run(x0, a);
             k < |x.threads| && !x.lock && x.idle == [] && x.total < x.maxSize && x.threads[k].Outside?
    ensures CanRun(x0, b) && Extends(a, b, k)
    ensures var x := Run(x0, a);
            Run(x0, b) == x.(total := x.total + 1, threads := x.threads[k := Creating])
  {
    ghost var x := Run(x0, a);
    b := Then(x0, a, Enter(k));
    b := Then(x0, b, TakeLock(k));
    b := Then(x0, b, Look(k));
    b := Then(x0, b, Grow(k, false));
    assert Run(x0, b).threads == x.threads[k := Creating];
  }

  /** It connects, and the connection is used and given back. */
  lemma CreateAndReturn(x0: Pool, a: seq<Step>, k: nat) returns (b: seq<Step>)
    requires CanRun(x0, a)
    requires var x := Run(x0, a); k < |x.threads| && !x.lock && x.threads[k].Creating?
    ensures CanRun(x0, b) && Extends(a, b, k)
    ensures var x := Run(x0, a);
            Run(x0, b) == x.(idle := x.idle + [x.nextConn], nextConn := x.nextConn + 1, threads := x.threads[k := Outside])
  {
    ghost var x := Run(x0, a);
    b := Then(x0, a, Create(k, true));
    b := Then(x0, b, Mark(k));
    b := Then(x0, b, Release(k));
    b := Then(x0, b, Return(k));
    assert Run(x0, b).threads == x.threads[k := Outside];
  }

  lemma GrowByOne(x0: Pool, a: seq<Step>, k: nat) returns (b: seq<Step>)
    requires CanRun(x0, a)
    requires var x := Run(x0, a);
             k < |x.threads| && !x.lock && x.idle == [] && x.total < x.maxSize && x.threads[k].Outside?
    ensures CanRun(x0, b) && Extends(a, b, k)
    ensures var x := Run(x0, a);
            Run(x0, b) == x.(idle := [x.nextConn], total := x.total + 1, nextConn := x.nextConn + 1)
  {
    ghost var x := Run(x0, a);
    b := BeginCreating(x0, a, k);
    b := CreateAndReturn(x0, b, k);
    assert Run(x0, b).threads == x.threads;
  }

  lemma {:induction false} Graveyard(maxSize: nat, prefilled: nat, threads: nat, k: nat) returns (steps: seq<Step>)
    requires prefilled < maxSize && k <= threads
    ensures var x0 := Start(maxSize, prefilled, threads);
            && CanRun(x0, steps) && DeadHands(Run(x0, steps), k)
            && |Run(x0, steps).threads| == threads
            && Run(x0, steps).maxSize == maxSize && Run(x0, steps).prefilled == prefilled
  {
    var x0 := Start(maxSize, prefilled, threads);
    if k == 0 {
      steps := [];
    } else {
      steps := Graveyard(maxSize, prefilled, threads, k - 1);
      if Run(x0, steps).idle == [] {
        steps := GrowByOne(x0, steps, k - 1);
      }
      steps := TakeDead(x0, steps, k - 1);
    }
  }

  /** With a pool that can grow and at least as many threads as prefilled connections, some run has
      an object in every thread's hands, whatever the limit is. */
  lemma ObjectsReachThreads(maxSize: nat, prefilled: nat, threads: nat) returns (steps: seq<Step>)
    requires prefilled < maxSize && prefilled <= threads
    ensures CanRun(Start(maxSize, prefilled, threads), steps)
    ensures Physical(Run(Start(maxSize, prefilled, threads), steps)) == threads
  {
    steps := Graveyard(maxSize, prefilled, threads, threads);
    var x := Run(Start(maxSize, prefilled, threads), steps);
    CountAll(x.threads, threads, HasObject);
  }

  /** A connection found dead is uncounted before it is destroyed. So the limit on real connections,
      dead ones included, holds in every run exactly when there are no more threads than the limit
      allows, or the pool starts full and never grows. */
  lemma ObjectsWithinLimit(maxSize: nat, prefilled: nat, threads: nat)
    requires prefilled <= maxSize
    ensures (forall steps :: CanRun(Start(maxSize, prefilled, threads), steps) ==>
               Physical(Run(Start(maxSize, prefilled, threads), steps)) <= maxSize)
            <==> threads <= maxSize || prefilled == maxSize
  {
    if threads <= maxSize || prefilled == maxSize {
      forall steps | CanRun(Start(maxSize, prefilled, threads), steps)
        ensures Physical(Run(Start(maxSize, prefilled, threads), steps)) <= maxSize
      {
        ObjectsBounded(maxSize, prefilled, threads, steps, maxSize);
      }
    } else {
      var steps := ObjectsReachThreads(maxSize, prefilled, threads);
      assert CanRun(Start(maxSize, prefilled, threads), steps);
    }
  }

  // ----- Shutdown -----

  /** The loop of `shutdown`: every idle connection is subtracted twice. */
  method DrainIdle(idle: seq<Conn>, before: int) returns (total: int)
    ensures total == before - 2 * |idle|
  {
    total := before;
    var rest := idle;
    while rest != []
      invariant |rest| <= |idle|
      invariant total == before - 2 * (|idle| - |rest|)
    {
      rest := rest[1..];
      total := total - 1;
      total := total - 1;
    }
  }

  /** After it, with both counters read before anyone else moves, the total is at least the active
      count exactly when there were no more idle connections than prefilled ones and connections on
      their way. */
  lemma AssertionAfterShutdown(x: Pool)
    requires CountersOk(x)
    ensures x.total - 2 * |x.idle| >= x.active <==> |x.idle| <= x.prefilled + (Answered(x) - LentOut(x))
  {
  }
}
