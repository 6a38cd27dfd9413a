/** The scan cut into steps and the scan in one piece are the same scan: a scanner that is left alone
    does to the store what the sequential loop does, and reports what it returns. */
module ScanRefinement {
  import opened Text
  import opened StreamTasks
  import opened TaskCodec
  import opened Registry
  import opened ScanProtocol

  ghost predicate Ready(x: System, p: nat) {
    p in x.scanners && x.scanners[p].Scanning? && x.scanners[p].rest != []
  }

  ghost predicate HasClaim(x: System, p: nat) {
    p in x.scanners && x.scanners[p].Claimed?
  }

  /** The steps of scanner `p` from its claim to its decision, with nobody else moving. */
  function Decide(x: System, p: nat): System
    requires HasClaim(x, p)
  {
    var x1 := Next(x, ReadBack(p));
    if x1.scanners[p].Scanning? then x1 else Next(x1, Finish(p))
  }

  /** All steps of scanner `p` for its next key. */
  function Turn(x: System, p: nat): System
    requires Ready(x, p)
  {
    var x1 := Next(x, TryClaim(p));
    if x1.scanners[p].Scanning? then x1 else Decide(x1, p)
  }

  function Reports(p: nat, ts: seq<StreamTask>, cutoff: int): (rs: seq<Report>)
    ensures |rs| == |ts|
  {
    seq(|ts|, i requires 0 <= i < |ts| => Report(p, ts[i], cutoff))
  }

  lemma ClaimIs(x: System, p: nat)
    requires Ready(x, p)
    ensures var c := x.scanners[p];
            var x1 := Next(x, TryClaim(p));
            && x1.reports == x.reports
            && if c.rest[0] in x.st.zset
               then x1.st == x.st.(zset := x.st.zset - {c.rest[0]})
                    && x1.scanners == x.scanners[p := Claimed(c.now, c.timeout, c.rest[1..], c.rest[0])]
               else x1.st == x.st && x1.scanners == x.scanners[p := Scanning(c.now, c.timeout, c.rest[1..])]
  {
  }

  lemma DecideIs(x: System, p: nat)
    requires HasClaim(x, p)
    ensures var c := x.scanners[p];
            var x' := Decide(x, p);
            && x'.scanners == x.scanners[p := Scanning(c.now, c.timeout, c.rest)]
            && match GetByKey(x.st, c.key)
               case None => x'.st == x.st && x'.reports == x.reports
               case Some(t) =>
                 if StillFresh(t, c.now, c.timeout)
                 then x'.st == x.st.(zset := x.st.zset[c.key := LastMs(t)]) && x'.reports == x.reports
                 else x'.st == Deregister(x.st, t.stream, t.client)
                      && x'.reports == x.reports + [Report(p, t, c.now - c.timeout)]
  {
    var c, x1 := x.scanners[p], Next(x, ReadBack(p));
    assert x1.st == x.st && x1.reports == x.reports;
    assert x1.scanners[p := Scanning(c.now, c.timeout, c.rest)] == x.scanners[p := Scanning(c.now, c.timeout, c.rest)];
  }

  /** The effect of one turn, for a key with this outcome. */
  ghost predicate Turned(x: System, p: nat, x': System, t: Option<StreamTask>)
    requires Ready(x, p)
  {
    var c := x.scanners[p];
    && x'.scanners == x.scanners[p := Scanning(c.now, c.timeout, c.rest[1..])]
    && x'.reports == x.reports + if t.Some? then [Report(p, t.value, c.now - c.timeout)] else []
  }

  lemma TurnIsScanOne(x: System, p: nat)
    requires Ready(x, p)
    ensures var c := x.scanners[p];
            var (st, t) := ScanOne(x.st, c.rest[0], c.now, c.timeout);
            var x' := Turn(x, p);
            x'.st == st && Turned(x, p, x', t)
  {
    ClaimIs(x, p);
    var x1 := Next(x, TryClaim(p));
    if x.scanners[p].rest[0] in x.st.zset {
      DecideIs(x1, p);
    }
  }

  /** After `n` turns the scanner has got through its first `n` keys. */
  ghost predicate Through(x: System, p: nat, n: nat, x': System)
    requires p in x.scanners && x.scanners[p].Scanning? && n <= |x.scanners[p].rest|
  {
    var c := x.scanners[p];
    var (st, out) := Scan(x.st, c.rest[..n], c.now, c.timeout);
    && x'.st == st
    && x'.scanners == x.scanners[p := Scanning(c.now, c.timeout, c.rest[n..])]
    && x'.reports == x.reports + Reports(p, out, c.now - c.timeout)
  }

  lemma ScanMore(st: Store, keys: seq<string>, n: nat, now: int, timeout: int, st2: Store, t: Option<StreamTask>)
    requires n < |keys|
    requires ScanOne(Scan(st, keys[..n], now, timeout).0, keys[n], now, timeout) == (st2, t)
    ensures Scan(st, keys[..n + 1], now, timeout)
            == (st2, Scan(st, keys[..n], now, timeout).1 + if t.Some? then [t.value] else [])
  {
    var out := Scan(st, keys[..n], now, timeout).1;
    assert keys[..n + 1][..n] == keys[..n] && keys[..n + 1][n] == keys[n];
    assert out + [] == out;
  }

  lemma ReportsMore(p: nat, ts: seq<StreamTask>, t: Option<StreamTask>, cutoff: int)
    ensures Reports(p, ts + (if t.Some? then [t.value] else []), cutoff)
            == Reports(p, ts, cutoff) + if t.Some? then [Report(p, t.value, cutoff)] else []
  {
  }

  lemma TurnedThrough(x: System, p: nat, n: nat, x': System, x'': System, t: Option<StreamTask>)
    requires p in x.scanners && x.scanners[p].Scanning? && n < |x.scanners[p].rest|
    requires Through(x, p, n, x') && Ready(x', p) && Turned(x', p, x'', t)
    requires var c := x.scanners[p];
             Scan(x.st, c.rest[..n + 1], c.now, c.timeout)
             == (x''.st, Scan(x.st, c.rest[..n], c.now, c.timeout).1 + if t.Some? then [t.value] else [])
    ensures Through(x, p, n + 1, x'')
  {
    var c := x.scanners[p];
    assert c.rest[n..][1..] == c.rest[n + 1..];
    ReportsMore(p, Scan(x.st, c.rest[..n], c.now, c.timeout).1, t, c.now - c.timeout);
  }

  lemma OneMoreTurn(x: System, p: nat, n: nat, x': System)
    requires p in x.scanners && x.scanners[p].Scanning? && n < |x.scanners[p].rest|
    requires Through(x, p, n, x')
    ensures Ready(x', p) && Through(x, p, n + 1, Turn(x', p))
  {
    var c := x.scanners[p];
    assert x'.scanners[p].rest[0] == c.rest[n];
    TurnIsScanOne(x', p);
    var (st, t) := ScanOne(x'.st, c.rest[n], c.now, c.timeout);
    ScanMore(x.st, c.rest, n, c.now, c.timeout, st, t);
    TurnedThrough(x, p, n, x', Turn(x', p), t);
  }

  // ----- The turns as runs -----

  lemma RunCons(x: System, s: Step, rest: seq<Step>)
    requires Enabled(x, s) && CanRun(Next(x, s), rest)
    ensures CanRun(x, [s] + rest) && Run(x, [s] + rest) == Run(Next(x, s), rest)
  {
    assert ([s] + rest)[1..] == rest;
  }

  lemma RunUncons(x: System, a: seq<Step>)
    requires a != [] && CanRun(x, a)
    ensures Enabled(x, a[0]) && CanRun(Next(x, a[0]), a[1..]) && Run(x, a) == Run(Next(x, a[0]), a[1..])
  {
  }

  lemma AppendStep(x: System, x1: System, s: Step, rest: seq<Step>, b: seq<Step>)
    requires Enabled(x, s) && x1 == Next(x, s) && CanRun(x1, rest + b)
    ensures CanRun(x, [s] + rest + b) && Run(x, [s] + rest + b) == Run(x1, rest + b)
  {
    RunCons(x, s, rest + b);
    assert [s] + rest + b == [s] + (rest + b);
  }

  lemma {:induction false} RunAppend(x: System, a: seq<Step>, b: seq<Step>)
    requires CanRun(x, a) && CanRun(Run(x, a), b)
    ensures CanRun(x, a + b) && Run(x, a + b) == Run(Run(x, a), b)
    decreases |a|
  {
    if a == [] {
      assert a + b == b;
    } else {
      RunUncons(x, a);
      var x1, s, rest := Next(x, a[0]), a[0], a[1..];
      RunAppend(x1, rest, b);
      AppendStep(x, x1, s, rest, b);
      assert a == [s] + rest;
    }
  }

  lemma OneStep(x: System, s: Step)
    requires Enabled(x, s)
    ensures CanRun(x, [s]) && Run(x, [s]) == Next(x, s)
  {
    assert [s][1..] == [];
  }

  lemma StepAfter(x: System, a: seq<Step>, s: Step)
    requires CanRun(x, a) && Enabled(Run(x, a), s)
    ensures CanRun(x, a + [s]) && Run(x, a + [s]) == Next(Run(x, a), s)
  {
    OneStep(Run(x, a), s);
    RunAppend(x, a, [s]);
  }

  lemma TurnAfter(x: System, p: nat, a: seq<Step>) returns (b: seq<Step>)
    requires CanRun(x, a) && Ready(Run(x, a), p)
    ensures CanRun(x, b) && Run(x, b) == Turn(Run(x, a), p)
  {
    StepAfter(x, a, TryClaim(p));
    b := a + [TryClaim(p)];
    if !Run(x, b).scanners[p].Scanning? {
      ClaimIs(Run(x, a), p);
      StepAfter(x, b, ReadBack(p));
      b := b + [ReadBack(p)];
      if !Run(x, b).scanners[p].Scanning? {
        StepAfter(x, b, Finish(p));
        b := b + [Finish(p)];
      }
    }
  }

  lemma {:induction false} TurnsAlone(x: System, p: nat, n: nat) returns (steps: seq<Step>)
    requires p in x.scanners && x.scanners[p].Scanning? && n <= |x.scanners[p].rest|
    ensures CanRun(x, steps) && Through(x, p, n, Run(x, steps))
  {
    if n == 0 {
      steps := [];
      assert x.scanners[p := x.scanners[p]] == x.scanners;
    } else {
      var before := TurnsAlone(x, p, n - 1);
      OneMoreTurn(x, p, n - 1, Run(x, before));
      steps := TurnAfter(x, p, before);
    }
  }

  lemma Edges(x: System, p: nat, now: int, timeout: int, keys: seq<string>)
    ensures Enabled(x, BeginScan(p, now, timeout, keys)) ==>
              Next(x, BeginScan(p, now, timeout, keys)) == With(x, p, Scanning(now, timeout, keys))
    ensures p in x.scanners && x.scanners[p] == Scanning(now, timeout, []) ==>
              Enabled(x, Finish(p)) && Next(x, Finish(p)) == With(x, p, Idle)
  {
  }

  lemma Bracket(x: System, first: Step, turns: seq<Step>, last: Step)
    requires Enabled(x, first) && CanRun(Next(x, first), turns) && Enabled(Run(Next(x, first), turns), last)
    ensures CanRun(x, [first] + turns + [last])
    ensures Run(x, [first] + turns + [last]) == Next(Run(Next(x, first), turns), last)
  {
    OneStep(x, first);
    RunAppend(x, [first], turns);
    StepAfter(x, [first] + turns, last);
  }

  /** What a scanner that has begun on `keys` comes to, left alone. */
  lemma AllTurns(x: System, p: nat, now: int, timeout: int, keys: seq<string>) returns (turns: seq<Step>)
    requires p in x.scanners && x.scanners[p] == Scanning(now, timeout, keys)
    ensures CanRun(x, turns)
    ensures var (st, out) := Scan(x.st, keys, now, timeout);
            var x' := Run(x, turns);
            && x'.st == st
            && x'.reports == x.reports + Reports(p, out, now - timeout)
            && x'.scanners == x.scanners[p := Scanning(now, timeout, [])]
  {
    turns := TurnsAlone(x, p, |keys|);
    assert keys[..|keys|] == keys && keys[|keys|..] == [];
  }

  /** From every system, a scan that nobody interrupts is a run of the protocol, and it ends in the
      store and with the reports of the sequential scan over the same range answer. */
  lemma ScanAlone(x: System, p: nat, now: int, timeout: int, keys: seq<string>) returns (steps: seq<Step>)
    requires Enabled(x, BeginScan(p, now, timeout, keys))
    ensures CanRun(x, steps)
    ensures var (st, out) := Scan(x.st, keys, now, timeout);
            var x' := Run(x, steps);
            && x'.st == st
            && x'.reports == x.reports + Reports(p, out, now - timeout)
            && x'.scanners == x.scanners[p := Idle]
  {
    var begin := BeginScan(p, now, timeout, keys);
    Edges(x, p, now, timeout, keys);
    var x1 := Next(x, begin);
    var turns := AllTurns(x1, p, now, timeout, keys);
    Edges(Run(x1, turns), p, now, timeout, keys);
    Bracket(x, begin, turns, Finish(p));
    steps := [begin] + turns + [Finish(p)];
  }

  // ----- A heartbeat that comes too late -----

  /** A task is registered and timed out; between the read of its hash and its removal a heartbeat
      arrives. */
  function LateRun(t: StreamTask, at: int, p: nat, now: int, timeout: int, beat: int): seq<Step> {
    [ DoRegister(t, at), BeginScan(p, now, timeout, [TaskKey(t.stream, t.client)]), TryClaim(p), ReadBack(p),
      DoTouch(t.stream, t.client, beat), Finish(p) ]
  }

  lemma FirstRegistration(t: StreamTask, at: int, cutoff: int)
    requires InRange(t) && Reasonable(at) && at <= cutoff
    ensures var st := Register(EMPTY, t, at).0;
            var key := TaskKey(t.stream, t.client);
            && st.zset == map[key := at] && GetByKey(st, key) == Some(Stripped(t))
            && IsRange(st.zset, cutoff, [key])
  {
    RegisterReach(EMPTY, t, at);
    var key := TaskKey(t.stream, t.client);
    var st := Register(EMPTY, t, at).0;
    assert st.zset == map[key := at];
    assert [key][0] == key;
  }

  lemma ReadDooms(x: System, p: nat, t: StreamTask)
    requires HasClaim(x, p) && GetByKey(x.st, x.scanners[p].key) == Some(t)
    requires !StillFresh(t, x.scanners[p].now, x.scanners[p].timeout)
    ensures Enabled(x, ReadBack(p))
    ensures var c := x.scanners[p];
            Next(x, ReadBack(p)) == With(x, p, Doomed(c.now, c.timeout, c.rest, t))
  {
  }

  /** The registration and the start of the scan. */
  lemma BeginOnFirst(t: StreamTask, at: int, p: nat, now: int, timeout: int)
    requires InRange(t) && Reasonable(at) && at <= now - timeout
    ensures var key := TaskKey(t.stream, t.client);
            var x1 := Next(START, DoRegister(t, at));
            && Enabled(x1, BeginScan(p, now, timeout, [key]))
            && var x2 := Next(x1, BeginScan(p, now, timeout, [key]));
               && x2.reports == [] && x2.scanners == map[p := Scanning(now, timeout, [key])]
               && key in x2.st.zset && GetByKey(x2.st, key) == Some(Stripped(t))
  {
    FirstRegistration(t, at, now - timeout);
  }

  /** The claim and the read. */
  lemma ClaimAndRead(x: System, p: nat, key: string, t: StreamTask, now: int, timeout: int)
    requires x.reports == [] && x.scanners == map[p := Scanning(now, timeout, [key])]
    requires key in x.st.zset && GetByKey(x.st, key) == Some(t) && !StillFresh(t, now, timeout)
    ensures Enabled(x, TryClaim(p))
    ensures var x1 := Next(x, TryClaim(p));
            && Enabled(x1, ReadBack(p))
            && var x2 := Next(x1, ReadBack(p));
               x2.reports == [] && p in x2.scanners && x2.scanners[p] == Doomed(now, timeout, [], t)
  {
    ClaimIs(x, p);
    ReadDooms(Next(x, TryClaim(p)), p, t);
  }

  lemma TwoMore(x: System, a: seq<Step>, s: Step, s': Step)
    requires CanRun(x, a) && Enabled(Run(x, a), s) && Enabled(Next(Run(x, a), s), s')
    ensures CanRun(x, a + [s, s']) && Run(x, a + [s, s']) == Next(Next(Run(x, a), s), s')
  {
    StepAfter(x, a, s);
    StepAfter(x, a + [s], s');
    assert a + [s] + [s'] == a + [s, s'];
  }

  lemma DoomRun(t: StreamTask, at: int, p: nat, now: int, timeout: int, a: seq<Step>, b: seq<Step>)
    requires InRange(t) && Reasonable(at) && at <= now - timeout && LastMs(t) <= now - timeout
    requires a == [DoRegister(t, at), BeginScan(p, now, timeout, [TaskKey(t.stream, t.client)])]
    requires b == a + [TryClaim(p), ReadBack(p)]
    ensures CanRun(START, b) && Run(START, b).reports == []
    ensures p in Run(START, b).scanners && Run(START, b).scanners[p] == Doomed(now, timeout, [], Stripped(t))
  {
    BeginOnFirst(t, at, p, now, timeout);
    TwoMore(START, [], a[0], a[1]);
    assert [] + [a[0], a[1]] == a;
    ClaimAndRead(Run(START, a), p, TaskKey(t.stream, t.client), Stripped(t), now, timeout);
    TwoMore(START, a, TryClaim(p), ReadBack(p));
  }

  lemma TouchRuns(x0: System, b: seq<Step>, stream: string, client: string, beat: int)
    requires CanRun(x0, b)
    ensures var b' := b + [DoTouch(stream, client, beat)];
            && CanRun(x0, b')
            && Run(x0, b').scanners == Run(x0, b).scanners && Run(x0, b').reports == Run(x0, b).reports
  {
    StepAfter(x0, b, DoTouch(stream, client, beat));
  }

  lemma FinishDooms(x: System, p: nat)
    requires p in x.scanners && x.scanners[p].Doomed?
    ensures var c := x.scanners[p];
            && Enabled(x, Finish(p))
            && Next(x, Finish(p)).st == Deregister(x.st, c.task.stream, c.task.client)
            && Next(x, Finish(p)).reports == x.reports + [Report(p, c.task, c.now - c.timeout)]
  {
  }

  lemma FinishRuns(x0: System, b: seq<Step>, x: System, p: nat)
    requires CanRun(x0, b) && x == Run(x0, b) && p in x.scanners && x.scanners[p].Doomed?
    ensures var c := x.scanners[p];
            var b' := b + [Finish(p)];
            && CanRun(x0, b')
            && GetTask(Run(x0, b').st, c.task.stream, c.task.client).None?
            && Run(x0, b').reports == x.reports + [Report(p, c.task, c.now - c.timeout)]
  {
    FinishDooms(x, p);
    StepAfter(x0, b, Finish(p));
    DeregisterReach(x.st, x.scanners[p].task.stream, x.scanners[p].task.client);
  }

  /** From the empty store, for every readable task, every scan that finds it timed out and every
      heartbeat, however new: the heartbeat changes nothing if it comes after the read, the task is
      removed and reported. */
  lemma HeartbeatAfterReadIsLost(t: StreamTask, at: int, p: nat, now: int, timeout: int, beat: int)
    requires InRange(t) && Reasonable(at) && at <= now - timeout && LastMs(t) <= now - timeout
    ensures var steps := LateRun(t, at, p, now, timeout, beat);
            && CanRun(START, steps)
            && GetTask(Run(START, steps).st, t.stream, t.client).None?
            && Run(START, steps).reports == [Report(p, Stripped(t), now - timeout)]
  {
    var steps := LateRun(t, at, p, now, timeout, beat);
    DoomRun(t, at, p, now, timeout, steps[..2], steps[..4]);
    TouchRuns(START, steps[..4], t.stream, t.client, beat);
    assert steps[..5] == steps[..4] + [DoTouch(t.stream, t.client, beat)];
    FinishRuns(START, steps[..5], Run(START, steps[..5]), p);
    assert steps == steps[..5] + [Finish(p)];
  }
}
