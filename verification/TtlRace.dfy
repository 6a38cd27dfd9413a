/** The task TTL against the scan timeout, with one clock for Redis and the gateways. A call takes the
    time at its beginning and sets the TTL up to `delay` milliseconds later. */
module TtlRace {
  import opened Text
  import opened StreamTasks
  import opened TaskCodec
  import opened Registry
  import opened ScanEffect
  import opened Agreement

  const TASK_TTL_MS: int := 60_000

  datatype Timed = Timed(st: Store, clock: int, deadline: map<string, int>)

  const TIMED_START := Timed(EMPTY, 0, map[])

  /** Time passes; a hash whose deadline is past is gone. */
  function Advance(x: Timed, to: int): Timed {
    x.(clock := to,
       st := x.st.(tasks := map k | k in x.st.tasks && (k in x.deadline ==> to <= x.deadline[k]) :: x.st.tasks[k]))
  }

  datatype Event = At(op: Op) | Wait(to: int)

  predicate WritesHash(st: Store, op: Op, key: string) {
    match op
    case RegisterOp(t, _) => key == TaskKey(t.stream, t.client) && !(t.kind == Publisher && Conflict(st, t))
    case TouchOp(stream, client, _) => key == TaskKey(stream, client)
    case _ => false
  }

  /** A call at the present time; every write of a hash renews its TTL. */
  function Call(x: Timed, op: Op): Timed {
    Timed(Apply(x.st, op), x.clock,
          map k | k in x.deadline.Keys + Apply(x.st, op).tasks.Keys && (WritesHash(x.st, op, k) || k in x.deadline) ::
            if WritesHash(x.st, op, k) then x.clock + TASK_TTL_MS else x.deadline[k])
  }

  /** The activity time that the call writes was taken at most `delay` before the TTL is set; the
      score of a registration is taken after it. */
  predicate Punctual(x: Timed, op: Op, delay: nat) {
    match op
    case RegisterOp(t, now) => x.clock - delay <= LastMs(t) <= x.clock <= now
    case TouchOp(_, _, now) => x.clock - delay <= now <= x.clock
    case ExpireOp(_) => false
    case _ => true
  }

  predicate Possible(x: Timed, e: Event, delay: nat) {
    match e
    case At(op) => Punctual(x, op, delay)
    case Wait(to) => x.clock <= to
  }

  function Step(x: Timed, e: Event): Timed {
    match e
    case At(op) => Call(x, op)
    case Wait(to) => Advance(x, to)
  }

  predicate PossibleRun(x: Timed, es: seq<Event>, delay: nat)
    decreases |es|
  {
    es == [] || (Possible(x, es[0], delay) && PossibleRun(Step(x, es[0]), es[1..], delay))
  }

  function StepAll(x: Timed, es: seq<Event>): Timed
    decreases |es|
  {
    if es == [] then x else StepAll(Step(x, es[0]), es[1..])
  }

  /** A whole hash lives until its last activity plus the TTL, up to the delay. */
  ghost predicate HashLives(x: Timed, k: string, delay: nat) {
    k in x.st.tasks && x.st.tasks[k].Stored? ==>
      && k in x.deadline
      && LastMs(x.st.tasks[k].task) + TASK_TTL_MS <= x.deadline[k] <= LastMs(x.st.tasks[k].task) + TASK_TTL_MS + delay
      && x.clock <= x.deadline[k]
  }

  ghost predicate Lives(x: Timed, delay: nat) {
    forall k :: HashLives(x, k, delay)
  }

  lemma CallKeepsLife(x: Timed, op: Op, k: string, delay: nat)
    requires Lives(x, delay) && Punctual(x, op, delay)
    ensures HashLives(Call(x, op), k, delay)
  {
    assert HashLives(x, k, delay);
    match op
    case RegisterOp(t, now) =>
      var key := TaskKey(t.stream, t.client);
      RegisterReach(x.st, t, now);
      if k != key {
        SameButAt(x.st, Apply(x.st, op), key, k);
      } else if t.kind == Player || !Conflict(x.st, t) {
        EnrolReach(Precleaned(x.st, t), t, now);
      }
    case TouchOp(stream, client, now) => MsRoundTrip(now);
    case _ => OthersShrink(x.st, op);
  }

  lemma {:induction false} AlwaysLives(x: Timed, es: seq<Event>, delay: nat)
    requires Lives(x, delay) && PossibleRun(x, es, delay)
    ensures Lives(StepAll(x, es), delay)
    decreases |es|
  {
    if es != [] {
      forall k
        ensures HashLives(Step(x, es[0]), k, delay)
      {
        if es[0].At? {
          CallKeepsLife(x, es[0].op, k, delay);
        } else {
          assert HashLives(x, k, delay);
        }
      }
      AlwaysLives(Step(x, es[0]), es[1..], delay);
    }
  }

  lemma {:induction false} NothingExpired(st: Store, keys: seq<string>, now: int, timeout: int)
    requires forall k :: !Expired(st, k, now, timeout)
    ensures Scan(st, keys, now, timeout).1 == [] && Scan(st, keys, now, timeout).0.tasks == st.tasks
  {
    if keys != [] {
      NothingExpired(st, keys[..|keys| - 1], now, timeout);
      var st1 := Scan(st, keys[..|keys| - 1], now, timeout).0;
      assert GetByKey(st1, keys[|keys| - 1]) == GetByKey(st, keys[|keys| - 1]);
      assert !Expired(st, keys[|keys| - 1], now, timeout);
    }
  }

  /** In every run, a scan that takes its time at or before the present finds a task expired only
      with a timeout of at most TTL plus delay, and only until that long after its last activity. */
  lemma TtlBeatsScan(es: seq<Event>, delay: nat, k: string, now: int, timeout: int)
    requires PossibleRun(TIMED_START, es, delay)
    requires var x := StepAll(TIMED_START, es); now <= x.clock && Expired(x.st, k, now, timeout)
    ensures var x := StepAll(TIMED_START, es);
            timeout <= TASK_TTL_MS + delay && x.clock <= LastMs(GetByKey(x.st, k).value) + TASK_TTL_MS + delay
  {
    AlwaysLives(TIMED_START, es, delay);
    assert HashLives(StepAll(TIMED_START, es), k, delay);
  }

  // ----- The bound is exact -----

  lemma {:induction false} StepsAppend(x: Timed, a: seq<Event>, b: seq<Event>, delay: nat)
    requires PossibleRun(x, a, delay) && PossibleRun(StepAll(x, a), b, delay)
    ensures PossibleRun(x, a + b, delay) && StepAll(x, a + b) == StepAll(StepAll(x, a), b)
    decreases |a|
  {
    if a == [] {
      assert a + b == b;
    } else {
      StepsAppend(Step(x, a[0]), a[1..], b, delay);
      assert (a + b)[1..] == a[1..] + b;
    }
  }

  lemma Then(x: Timed, a: seq<Event>, e: Event, delay: nat) returns (b: seq<Event>)
    requires PossibleRun(x, a, delay) && Possible(StepAll(x, a), e, delay)
    ensures PossibleRun(x, b, delay) && StepAll(x, b) == Step(StepAll(x, a), e)
  {
    b := a + [e];
    assert [e][1..] == [];
    StepsAppend(x, a, [e], delay);
  }

  /** A lone publisher, last active at the beginning of the accepted range. */
  function LateStore(): Store {
    var key, t := TaskKey("s", "c"), PlainTask("s", "c");
    Store(map[key := Stored(t)], map["s" := t], {("s", "c")}, {"s"}, 0, map[key := MIN_REASONABLE_MS])
  }

  /** It is there at `clock`, with its TTL just set. */
  ghost predicate JustSet(x: Timed, clock: int) {
    x == Timed(LateStore(), clock, map[TaskKey("s", "c") := clock + TASK_TTL_MS])
  }

  lemma RegisterLone(x: Timed)
    requires x.st == EMPTY && x.deadline == map[] && x.clock == MIN_REASONABLE_MS
    ensures JustSet(Call(x, RegisterOp(PlainTask("s", "c"), MIN_REASONABLE_MS)), MIN_REASONABLE_MS)
  {
    MsRoundTrip(MIN_REASONABLE_MS);
    FreshPublisher(EMPTY, "s", "c");
    var op := RegisterOp(PlainTask("s", "c"), MIN_REASONABLE_MS);
    assert Apply(x.st, op) == LateStore();
    assert Call(x, op).deadline == map[TaskKey("s", "c") := MIN_REASONABLE_MS + TASK_TTL_MS];
  }

  /** A heartbeat that took its time at the very beginning renews the TTL and nothing else. */
  lemma TouchLone(x: Timed, before: int)
    requires x.st == LateStore() && x.deadline == map[TaskKey("s", "c") := before]
    ensures JustSet(Call(x, TouchOp("s", "c", MIN_REASONABLE_MS)), x.clock)
  {
    MsRoundTrip(MIN_REASONABLE_MS);
    var op := TouchOp("s", "c", MIN_REASONABLE_MS);
    assert Apply(x.st, op) == LateStore();
    assert Call(x, op).deadline == map[TaskKey("s", "c") := x.clock + TASK_TTL_MS];
  }

  lemma WaitLone(x: Timed, clock: int, to: int)
    requires JustSet(x, clock) && to <= clock + TASK_TTL_MS
    ensures Advance(x, to) == Timed(LateStore(), to, x.deadline)
  {
    assert Advance(x, to).st.tasks == LateStore().tasks;
  }

  /** Heartbeats of the allowed delay can keep that up for as long as the delay. */
  lemma {:induction false} KeepLate(delay: nat, clock: int) returns (es: seq<Event>)
    requires MIN_REASONABLE_MS <= clock <= MIN_REASONABLE_MS + delay
    ensures PossibleRun(TIMED_START, es, delay) && JustSet(StepAll(TIMED_START, es), clock)
    decreases clock
  {
    if clock == MIN_REASONABLE_MS {
      es := Then(TIMED_START, [], Wait(clock), delay);
      MsRoundTrip(MIN_REASONABLE_MS);
      assert StepAll(TIMED_START, es).st == EMPTY;
      RegisterLone(StepAll(TIMED_START, es));
      es := Then(TIMED_START, es, At(RegisterOp(PlainTask("s", "c"), clock)), delay);
    } else {
      var earlier := if clock - TASK_TTL_MS < MIN_REASONABLE_MS then MIN_REASONABLE_MS else clock - TASK_TTL_MS;
      es := KeepLate(delay, earlier);
      WaitLone(StepAll(TIMED_START, es), earlier, clock);
      es := Then(TIMED_START, es, Wait(clock), delay);
      TouchLone(StepAll(TIMED_START, es), earlier + TASK_TTL_MS);
      es := Then(TIMED_START, es, At(TouchOp("s", "c", MIN_REASONABLE_MS)), delay);
    }
  }

  /** A run that ends in the last millisecond of the TTL of such a heartbeat. */
  lemma LateRun(delay: nat) returns (es: seq<Event>)
    ensures PossibleRun(TIMED_START, es, delay)
    ensures var x := StepAll(TIMED_START, es);
            x.clock == MIN_REASONABLE_MS + delay + TASK_TTL_MS && x.st == LateStore()
  {
    es := KeepLate(delay, MIN_REASONABLE_MS + delay);
    WaitLone(StepAll(TIMED_START, es), MIN_REASONABLE_MS + delay, MIN_REASONABLE_MS + delay + TASK_TTL_MS);
    es := Then(TIMED_START, es, Wait(MIN_REASONABLE_MS + delay + TASK_TTL_MS), delay);
  }

  lemma LateScanFinds(delay: nat, timeout: int)
    requires timeout <= TASK_TTL_MS + delay
    ensures var now := MIN_REASONABLE_MS + delay + TASK_TTL_MS;
            var keys := [TaskKey("s", "c")];
            && IsRange(LateStore().zset, now - timeout, keys)
            && Scan(LateStore(), keys, now, timeout).1 != []
  {
    MsRoundTrip(MIN_REASONABLE_MS);
    var keys := [TaskKey("s", "c")];
    assert keys[..0] == [];
    assert Expired(LateStore(), keys[0], MIN_REASONABLE_MS + delay + TASK_TTL_MS, timeout);
  }

  /** The scans of all runs with this delay find nothing at all if and only if the timeout exceeds the
      TTL plus the delay. With the timeout equal to the TTL, a vanished task is found only by a scan
      that falls into the delay. */
  lemma ScanIsBlind(delay: nat, timeout: int)
    ensures (forall es, keys, now :: (PossibleRun(TIMED_START, es, delay) && now <= StepAll(TIMED_START, es).clock
               && IsRange(StepAll(TIMED_START, es).st.zset, now - timeout, keys)) ==>
               Scan(StepAll(TIMED_START, es).st, keys, now, timeout).1 == [])
            <==> TASK_TTL_MS + delay < timeout
  {
    if TASK_TTL_MS + delay < timeout {
      forall es, keys, now | PossibleRun(TIMED_START, es, delay) && now <= StepAll(TIMED_START, es).clock
        ensures Scan(StepAll(TIMED_START, es).st, keys, now, timeout).1 == []
      {
        var x := StepAll(TIMED_START, es);
        forall k
          ensures !Expired(x.st, k, now, timeout)
        {
          if Expired(x.st, k, now, timeout) {
            TtlBeatsScan(es, delay, k, now, timeout);
          }
        }
        NothingExpired(x.st, keys, now, timeout);
      }
    } else {
      var es := LateRun(delay);
      LateScanFinds(delay, timeout);
    }
  }
}
