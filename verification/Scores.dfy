/** The timestamp scores against the activity times in the hashes. */
module Scores {
  import opened Text
  import opened StreamTasks
  import opened TaskCodec
  import opened Registry
  import opened Rollback
  import opened Registration
  import opened ScanProtocol
  import opened ScanRefinement

  /** A heartbeat sets the score of its own key to the present and the last-active time of its hash with
      it; a missing or partial hash becomes a partial one. Nothing else changes. */
  lemma TouchReach(st: Store, stream: string, client: string, now: int)
    ensures var st' := Touch(st, stream, client, now);
            var key := TaskKey(stream, client);
            && SameBut(st, st', key)
            && key in st'.zset && st'.zset[key] == now
            && key in st'.tasks
            && (if key in st.tasks && st.tasks[key].Stored?
                then st'.tasks[key] == Stored(st.tasks[key].task.(lastActive := FromMs(now)))
                else st'.tasks[key] == Orphan(now))
            && st'.pubs == st.pubs && st'.members == st.members && st'.active == st.active && st'.players == st.players
  {
    var st', key := Touch(st, stream, client, now), TaskKey(stream, client);
    assert st'.tasks - {key} == st.tasks - {key};
    assert st'.zset - {key} == st.zset - {key};
  }

  /** The next range query offers the task exactly when its cutoff is not before the heartbeat, and every
      other key exactly when it would have before. */
  lemma TouchOffers(st: Store, stream: string, client: string, now: int, cutoff: int, keys: seq<string>)
    requires IsRange(Touch(st, stream, client, now).zset, cutoff, keys)
    ensures TaskKey(stream, client) in keys <==> 0 <= now <= cutoff
    ensures forall k :: k != TaskKey(stream, client) ==>
              (k in keys <==> k in st.zset && 0 <= st.zset[k] <= cutoff)
  {
    TouchReach(st, stream, client, now);
    forall k | k != TaskKey(stream, client)
      ensures k in keys <==> k in st.zset && 0 <= st.zset[k] <= cutoff
    {
      SameButAt(st, Touch(st, stream, client, now), TaskKey(stream, client), k);
    }
  }

  // ----- Over every run -----

  ghost predicate ScoredAt(st: Store, k: string) {
    k in st.zset && GetByKey(st, k).Some? ==> LastMs(GetByKey(st, k).value) <= st.zset[k]
  }

  /** Every readable task in the timestamp set has a score of at least its last activity. */
  ghost predicate Scored(st: Store) {
    forall k :: ScoredAt(st, k)
  }

  /** A registered task was last active at or before its registration. */
  predicate Orderly(s: Step) {
    match s
    case DoRegister(t, at) => LastMs(t) <= at
    case DoFailing(t, at, _) => LastMs(t) <= at
    case _ => true
  }

  /** The scanner puts a key back with a score that a heartbeat has overtaken since it read the hash. */
  ghost predicate Overtaken(x: System, s: Step) {
    && s.Finish? && ScannerAt(x, s.p).PutBack?
    && var c := ScannerAt(x, s.p);
       GetByKey(x.st, c.key).Some? && c.score < LastMs(GetByKey(x.st, c.key).value)
  }

  /** Hashes and scores only disappear. */
  ghost predicate OnlyLoses(st: Store, st': Store) {
    && (forall k :: k in st'.tasks ==> k in st.tasks && st'.tasks[k] == st.tasks[k])
    && (forall k :: k in st'.zset ==> k in st.zset && st'.zset[k] == st.zset[k])
  }

  lemma LosingKeepsScores(st: Store, st': Store)
    requires Scored(st) && OnlyLoses(st, st')
    ensures Scored(st')
  {
    forall k
      ensures ScoredAt(st', k)
    {
      assert ScoredAt(st, k);
    }
  }

  lemma FaultyScore(st: Store, t: StreamTask, now: int, f: Faults)
    requires FaultyRegister(st, t, now, f).1
    ensures var st' := FaultyRegister(st, t, now, f).0;
            var key := TaskKey(t.stream, t.client);
            && key in st'.zset && st'.zset[key] == now
            && key in st'.tasks && st'.tasks[key] == Stored(t)
  {
    FaultyIndicesReach(WriteTask(Precleaned(st, t), t), t, f);
  }

  lemma FailingKeepsScores(st: Store, t: StreamTask, now: int, f: Faults)
    requires Scored(st) && LastMs(t) <= now
    ensures Scored(FaultyRegister(st, t, now, f).0)
  {
    var (st', ok) := FaultyRegister(st, t, now, f);
    var key := TaskKey(t.stream, t.client);
    FaultyReach(st, t, now, f);
    if ok {
      FaultyScore(st, t, now, f);
    }
    forall k
      ensures ScoredAt(st', k)
    {
      assert ScoredAt(st, k);
      if k != key {
        SameButAt(st, st', key, k);
      }
    }
  }

  lemma TouchKeepsScores(st: Store, stream: string, client: string, now: int)
    requires Scored(st)
    ensures Scored(Touch(st, stream, client, now))
  {
    var st', key := Touch(st, stream, client, now), TaskKey(stream, client);
    TouchReach(st, stream, client, now);
    TouchIsRead(st, stream, client, now);
    forall k
      ensures ScoredAt(st', k)
    {
      assert ScoredAt(st, k);
      if k != key {
        SameButAt(st, st', key, k);
      }
    }
  }

  lemma {:induction false} DropAllOnlyLoses(st: Store, gs: seq<Target>)
    ensures OnlyLoses(st, DropAll(st, gs))
  {
    if gs != [] {
      DropAllOnlyLoses(st, gs[..|gs| - 1]);
    }
  }

  lemma ManagerKeepsScores(x: System, s: Step)
    requires Manager(s) && Scored(x.st) && Orderly(s)
    ensures Scored(Next(x, s).st)
  {
    var st' := Next(x, s).st;
    match s
    case DoRegister(t, now) =>
      WithoutFaults(x.st, t, now);
      FailingKeepsScores(x.st, t, now, NO_FAULTS);
    case DoFailing(t, now, f) => FailingKeepsScores(x.st, t, now, f);
    case DoTouch(stream, client, now) => TouchKeepsScores(x.st, stream, client, now);
    case DoBatch(targets) =>
      DropAllOnlyLoses(x.st, targets);
      LosingKeepsScores(x.st, st');
    case DoDeregister(_, _) => LosingKeepsScores(x.st, st');
    case DoExpire(_) => LosingKeepsScores(x.st, st');
    case DoClear(_) => LosingKeepsScores(x.st, st');
  }

  lemma PutBackScores(st: Store, key: string, score: int)
    requires Scored(st)
    ensures Scored(st.(zset := st.zset[key := score])) <==>
            !(GetByKey(st, key).Some? && score < LastMs(GetByKey(st, key).value))
  {
    var st' := st.(zset := st.zset[key := score]);
    assert ScoredAt(st', key) <==> !(GetByKey(st, key).Some? && score < LastMs(GetByKey(st, key).value));
    forall k | k != key
      ensures ScoredAt(st', k)
    {
      assert ScoredAt(st, k);
    }
  }

  lemma ScannerScores(x: System, s: Step)
    requires !Manager(s) && Enabled(x, s) && Scored(x.st)
    ensures Scored(Next(x, s).st) <==> !Overtaken(x, s)
  {
    var c := ScannerAt(x, s.p);
    if s.Finish? && c.PutBack? {
      PutBackScores(x.st, c.key, c.score);
    } else if s.Finish? && c.Doomed? {
      LosingKeepsScores(x.st, Deregister(x.st, c.task.stream, c.task.client));
    } else if s.TryClaim? {
      LosingKeepsScores(x.st, Next(x, s).st);
    }
  }

  ghost predicate AlwaysScored(x: System, steps: seq<Step>)
    requires CanRun(x, steps)
    decreases |steps|
  {
    Scored(x.st) && (steps == [] || AlwaysScored(Next(x, steps[0]), steps[1..]))
  }

  ghost predicate NeverOvertaken(x: System, steps: seq<Step>)
    requires CanRun(x, steps)
    decreases |steps|
  {
    steps == [] || (!Overtaken(x, steps[0]) && NeverOvertaken(Next(x, steps[0]), steps[1..]))
  }

  /** In every run, every score is at least the last activity of its task throughout, if and only if no
      scanner puts a key back with a score that a heartbeat has overtaken. */
  lemma {:induction false} ScoresExact(x: System, steps: seq<Step>)
    requires Scored(x.st) && CanRun(x, steps) && forall i :: 0 <= i < |steps| ==> Orderly(steps[i])
    ensures AlwaysScored(x, steps) <==> NeverOvertaken(x, steps)
    decreases |steps|
  {
    if steps != [] {
      var s := steps[0];
      assert Orderly(s);
      if Manager(s) {
        ManagerKeepsScores(x, s);
      } else {
        ScannerScores(x, s);
      }
      if Scored(Next(x, s).st) {
        ScoresExact(Next(x, s), steps[1..]);
      }
    }
  }

  // ----- A score that is overtaken -----

  lemma TouchedReads(st: Store, stream: string, client: string, now: int)
    requires GetTask(st, stream, client).Some? && Reasonable(now)
    ensures var t := GetTask(Touch(st, stream, client, now), stream, client);
            t.Some? && LastMs(t.value) == now
  {
    MsRoundTrip(now);
  }

  /** A heartbeat in a run: the scanners do not move, and the task is read with the heartbeat's time. */
  lemma TouchInRun(x0: System, a: seq<Step>, stream: string, client: string, now: int) returns (b: seq<Step>)
    requires CanRun(x0, a) && GetTask(Run(x0, a).st, stream, client).Some? && Reasonable(now)
    ensures b == a + [DoTouch(stream, client, now)] && CanRun(x0, b)
    ensures Run(x0, b).scanners == Run(x0, a).scanners && TaskKey(stream, client) in Run(x0, b).st.zset
    ensures var t := GetTask(Run(x0, b).st, stream, client);
            t.Some? && LastMs(t.value) == now
  {
    TouchRuns(x0, a, stream, client, now);
    StepAfter(x0, a, DoTouch(stream, client, now));
    TouchedReads(Run(x0, a).st, stream, client, now);
    b := a + [DoTouch(stream, client, now)];
  }

  lemma ReadKeeps(x: System, p: nat, t: StreamTask)
    requires HasClaim(x, p) && GetByKey(x.st, x.scanners[p].key) == Some(t)
    requires StillFresh(t, x.scanners[p].now, x.scanners[p].timeout)
    ensures Enabled(x, ReadBack(p))
    ensures var c := x.scanners[p];
            Next(x, ReadBack(p)) == With(x, p, PutBack(c.now, c.timeout, c.rest, c.key, LastMs(t)))
  {
  }

  /** The claim of the only key. */
  lemma ClaimOnly(x: System, p: nat, key: string, now: int, timeout: int)
    requires x.scanners == map[p := Scanning(now, timeout, [key])] && key in x.st.zset
    ensures Enabled(x, TryClaim(p))
    ensures Next(x, TryClaim(p)).scanners == map[p := Claimed(now, timeout, [], key)]
    ensures Next(x, TryClaim(p)).st == x.st.(zset := x.st.zset - {key})
  {
    assert [key][0] == key && [key][1..] == [];
    ClaimIs(x, p);
  }

  lemma ClaimRuns(x0: System, a: seq<Step>, p: nat, key: string, now: int, timeout: int) returns (b: seq<Step>)
    requires CanRun(x0, a) && Run(x0, a).scanners == map[p := Scanning(now, timeout, [key])] && key in Run(x0, a).st.zset
    ensures b == a + [TryClaim(p)] && CanRun(x0, b)
    ensures Run(x0, b).scanners == map[p := Claimed(now, timeout, [], key)]
    ensures GetByKey(Run(x0, b).st, key) == GetByKey(Run(x0, a).st, key)
  {
    ClaimOnly(Run(x0, a), p, key, now, timeout);
    StepAfter(x0, a, TryClaim(p));
    b := a + [TryClaim(p)];
  }

  lemma KeepRuns(x0: System, a: seq<Step>, p: nat, key: string, t: StreamTask, now: int, timeout: int) returns (b: seq<Step>)
    requires CanRun(x0, a) && Run(x0, a).scanners == map[p := Claimed(now, timeout, [], key)]
    requires GetByKey(Run(x0, a).st, key) == Some(t) && StillFresh(t, now, timeout)
    ensures b == a + [ReadBack(p)] && CanRun(x0, b)
    ensures Run(x0, b).scanners == map[p := PutBack(now, timeout, [], key, LastMs(t))]
    ensures GetByKey(Run(x0, b).st, key) == Some(t)
  {
    ReadKeeps(Run(x0, a), p, t);
    StepAfter(x0, a, ReadBack(p));
    b := a + [ReadBack(p)];
  }

  lemma BeginRun(t: StreamTask, at: int, p: nat, now: int, timeout: int) returns (a: seq<Step>)
    requires InRange(t) && Reasonable(at) && at <= now - timeout
    ensures a == [DoRegister(t, at), BeginScan(p, now, timeout, [TaskKey(t.stream, t.client)])] && CanRun(START, a)
    ensures Run(START, a).scanners == map[p := Scanning(now, timeout, [TaskKey(t.stream, t.client)])]
    ensures GetTask(Run(START, a).st, t.stream, t.client) == Some(Stripped(t))
  {
    a := [DoRegister(t, at), BeginScan(p, now, timeout, [TaskKey(t.stream, t.client)])];
    BeginOnFirst(t, at, p, now, timeout);
    TwoMore(START, [], a[0], a[1]);
    assert [] + [a[0], a[1]] == a;
  }

  /** From the empty store, for every task, scan and pair of heartbeats after the scan's cutoff, the second
      after the first: one before the claim and one before the put-back leave a score behind the task's
      last activity. */
  lemma OvertakenRun(t: StreamTask, at: int, p: nat, now: int, timeout: int, beat: int, beat': int) returns (steps: seq<Step>)
    requires InRange(t) && LastMs(t) <= at && Reasonable(at) && at <= now - timeout
    requires Reasonable(beat) && Reasonable(beat') && now - timeout < beat < beat'
    ensures CanRun(START, steps) && forall i :: 0 <= i < |steps| ==> Orderly(steps[i])
    ensures Enabled(Run(START, steps), Finish(p)) && Overtaken(Run(START, steps), Finish(p))
  {
    var key := TaskKey(t.stream, t.client);
    steps := BeginRun(t, at, p, now, timeout);
    steps := TouchInRun(START, steps, t.stream, t.client, beat);
    var u := GetByKey(Run(START, steps).st, key).value;
    steps := ClaimRuns(START, steps, p, key, now, timeout);
    steps := KeepRuns(START, steps, p, key, u, now, timeout);
    steps := TouchInRun(START, steps, t.stream, t.client, beat');
  }
}
