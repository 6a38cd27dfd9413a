/** The manager's calls as operations, the agreement of the indices with the task hashes, and how each
    call keeps it. */
module Agreement {
  import opened Text
  import opened StreamTasks
  import opened TaskCodec
  import opened Registry
  import opened ScanEffect

  datatype Op =
    | RegisterOp(task: StreamTask, now: int)
    | DeregisterOp(stream: string, client: string)
    | TouchOp(stream: string, client: string, now: int)
    | ExpireOp(key: string)
    | ClearOp(stream: string)
    | PublishDoneOp(stream: string, client: string)
    | CleanupOp(keys: seq<string>, died: seq<string>, now: int, timeout: int)

  function Apply(st: Store, op: Op): Store {
    match op
    case RegisterOp(t, now) => Register(st, t, now).0
    case DeregisterOp(stream, client) => Deregister(st, stream, client)
    case TouchOp(stream, client, now) => Touch(st, stream, client, now)
    case ExpireOp(key) => Expire(st, key)
    case ClearOp(stream) => ClearStream(st, stream)
    case PublishDoneOp(stream, client) => PublishDone(st, stream, client)
    case CleanupOp(keys, died, now, timeout) => CleanupPass(st, keys, died, now, timeout)
  }

  /** The clock of the call, and the times of a registered task, are in the accepted range. */
  predicate Timely(op: Op) {
    match op
    case RegisterOp(t, now) => InRange(t) && Reasonable(now)
    case TouchOp(_, _, now) => Reasonable(now)
    case _ => true
  }

  /** The call names only streams of `S` and clients of `C`. */
  ghost predicate Over(op: Op, S: iset<string>, C: iset<string>) {
    match op
    case RegisterOp(t, _) => t.stream in S && t.client in C
    case DeregisterOp(stream, client) => stream in S && client in C
    case TouchOp(stream, client, _) => stream in S && client in C
    case ClearOp(stream) => stream in S
    case PublishDoneOp(stream, client) => stream in S && client in C
    case CleanupOp(_, died, _, _) => forall i :: 0 <= i < |died| ==> died[i] in S
    case ExpireOp(_) => true
  }

  // ----- The property -----

  ghost predicate ReadablePublisher(st: Store, key: string) {
    GetByKey(st, key).Some? && GetByKey(st, key).value.kind == Publisher
  }

  /** Every readable publisher task is the one its stream's lock names, is a member and is listed as
      active; so a stream has at most one. */
  ghost predicate OnePublisher(st: Store) {
    && (forall k :: ReadablePublisher(st, k) ==>
          var t := GetByKey(st, k).value;
          && k == TaskKey(t.stream, t.client)
          && GetPublisher(st, t.stream).Some? && GetPublisher(st, t.stream).value.client == t.client
          && (t.stream, t.client) in st.members
          && t.stream in st.active)
    && (forall k, k' ::
          (ReadablePublisher(st, k) && ReadablePublisher(st, k')
           && GetByKey(st, k).value.stream == GetByKey(st, k').value.stream) ==> k == k')
  }

  /** Distinct (stream, client) pairs over these names have distinct task keys. */
  ghost predicate Separable(S: iset<string>, C: iset<string>) {
    forall s, c, s', c' :: s in S && c in C && s' in S && c' in C && TaskKey(s, c) == TaskKey(s', c') ==>
      s == s' && c == c'
  }

  // ----- The invariant behind it -----

  /** A whole hash: under its own key, over the names, in range, a member, and if it is a publisher
      the holder of its stream's lock. */
  ghost predicate HashOk(st: Store, k: string, t: StreamTask, S: iset<string>, C: iset<string>) {
    && k == TaskKey(t.stream, t.client)
    && t.stream in S && t.client in C
    && InRange(t)
    && (t.stream, t.client) in st.members
    && (t.kind == Publisher ==> t.stream in st.pubs && st.pubs[t.stream].client == t.client)
  }

  ghost predicate HashesOk(st: Store, S: iset<string>, C: iset<string>) {
    forall k :: k in st.tasks && st.tasks[k].Stored? ==> HashOk(st, k, st.tasks[k].task, S, C)
  }

  ghost predicate LocksOk(st: Store) {
    && st.active == st.pubs.Keys
    && forall s :: s in st.pubs ==> st.pubs[s].stream == s && InRange(st.pubs[s])
  }

  ghost predicate MembersOk(st: Store, S: iset<string>, C: iset<string>) {
    forall s, c :: (s, c) in st.members ==> s in S && c in C
  }

  ghost predicate Agree(st: Store, S: iset<string>, C: iset<string>) {
    HashesOk(st, S, C) && LocksOk(st) && MembersOk(st, S, C)
  }

  lemma AgreeMeansOnePublisher(st: Store, S: iset<string>, C: iset<string>)
    requires Agree(st, S, C)
    ensures OnePublisher(st)
  {
    forall k | ReadablePublisher(st, k)
      ensures HashOk(st, k, st.tasks[k].task, S, C)
    {
    }
  }

  // ----- Each call keeps it -----

  /** Dropping a task that is there under its own names. */
  lemma DropAgrees(st: Store, t: StreamTask, S: iset<string>, C: iset<string>)
    requires Agree(st, S, C)
    requires TaskKey(t.stream, t.client) in st.tasks && st.tasks[TaskKey(t.stream, t.client)].Stored?
    requires st.tasks[TaskKey(t.stream, t.client)].task.kind == t.kind
    requires st.tasks[TaskKey(t.stream, t.client)].task.stream == t.stream
    requires st.tasks[TaskKey(t.stream, t.client)].task.client == t.client
    ensures Agree(Drop(st, TargetOf(t)), S, C)
  {
    var key := TaskKey(t.stream, t.client);
    var st' := Drop(st, TargetOf(t));
    assert HashOk(st, key, st.tasks[key].task, S, C);
    forall k | k in st'.tasks && st'.tasks[k].Stored?
      ensures HashOk(st', k, st'.tasks[k].task, S, C)
    {
      assert k in st.tasks && k != key;
      assert HashOk(st, k, st.tasks[k].task, S, C);
    }
  }

  lemma DeregisterAgrees(st: Store, stream: string, client: string, S: iset<string>, C: iset<string>)
    requires Agree(st, S, C) && Separable(S, C) && stream in S && client in C
    ensures Agree(Deregister(st, stream, client), S, C)
  {
    var key := TaskKey(stream, client);
    if GetTask(st, stream, client).Some? {
      var t := st.tasks[key].task;
      assert HashOk(st, key, t, S, C);
      assert t.stream == stream && t.client == client;
      DropAgrees(st, t, S, C);
    } else {
      assert Deregister(st, stream, client).tasks == st.tasks;
      assert HashesOk(Deregister(st, stream, client), S, C) by {
        forall k | k in st.tasks && st.tasks[k].Stored?
          ensures HashOk(Deregister(st, stream, client), k, st.tasks[k].task, S, C)
        {
          assert HashOk(st, k, st.tasks[k].task, S, C);
        }
      }
    }
  }

  /** Writing a task of a stream whose lock is free or its own. */
  lemma WriteAgrees(st: Store, t: StreamTask, S: iset<string>, C: iset<string>)
    requires Agree(st, S, C) && Separable(S, C) && t.stream in S && t.client in C && InRange(t)
    requires t.kind == Publisher ==> t.stream in st.pubs ==> st.pubs[t.stream].client == t.client
    ensures Agree(WriteIndices(WriteTask(st, t), t), S, C)
  {
    var st' := WriteIndices(WriteTask(st, t), t);
    forall k | k in st'.tasks && st'.tasks[k].Stored?
      ensures HashOk(st', k, st'.tasks[k].task, S, C)
    {
      if k != TaskKey(t.stream, t.client) {
        assert HashOk(st, k, st.tasks[k].task, S, C);
      }
    }
  }

  lemma EnrolAgrees(st: Store, t: StreamTask, now: int, S: iset<string>, C: iset<string>)
    requires Agree(st, S, C) && Separable(S, C)
    requires t.stream in S && t.client in C && InRange(t) && Reasonable(now)
    requires t.kind == Publisher ==> !Conflict(st, t)
    ensures Agree(Enrol(st, t, now).0, S, C)
  {
    WriteAgrees(st, t, S, C);
    var st2 := WriteIndices(WriteTask(st, t), t);
    var st3 := st2.(zset := st2.zset[TaskKey(t.stream, t.client) := now]);
    assert Enrol(st, t, now).0 == st3;
    TimestampsFree(st2, st3, S, C);
  }

  /** The timestamp set and the counter play no part in the agreement. */
  lemma TimestampsFree(st: Store, st': Store, S: iset<string>, C: iset<string>)
    requires Agree(st, S, C)
    requires st'.tasks == st.tasks && st'.pubs == st.pubs && st'.members == st.members && st'.active == st.active
    ensures Agree(st', S, C)
  {
    forall k | k in st.tasks && st.tasks[k].Stored?
      ensures HashOk(st', k, st.tasks[k].task, S, C)
    {
      assert HashOk(st, k, st.tasks[k].task, S, C);
    }
  }

  lemma DeregisterKeepsNoConflict(st: Store, t: StreamTask)
    requires !Conflict(st, t)
    ensures !Conflict(Deregister(st, t.stream, t.client), t)
  {
  }

  lemma RegisterAgrees(st: Store, t: StreamTask, now: int, S: iset<string>, C: iset<string>)
    requires Agree(st, S, C) && Separable(S, C)
    requires t.stream in S && t.client in C && InRange(t) && Reasonable(now)
    ensures Agree(Register(st, t, now).0, S, C)
  {
    if t.kind == Player || !Conflict(st, t) {
      DeregisterAgrees(st, t.stream, t.client, S, C);
      if t.kind == Publisher {
        DeregisterKeepsNoConflict(st, t);
      }
      EnrolAgrees(Precleaned(st, t), t, now, S, C);
    }
  }

  lemma TouchAgrees(st: Store, stream: string, client: string, now: int, S: iset<string>, C: iset<string>)
    requires Agree(st, S, C) && Reasonable(now)
    ensures Agree(Touch(st, stream, client, now), S, C)
  {
    var key, st' := TaskKey(stream, client), Touch(st, stream, client, now);
    MsRoundTrip(now);
    forall k | k in st'.tasks && st'.tasks[k].Stored?
      ensures HashOk(st', k, st'.tasks[k].task, S, C)
    {
      assert HashOk(st, k, st.tasks[k].task, S, C);
    }
  }

  lemma ExpireAgrees(st: Store, key: string, S: iset<string>, C: iset<string>)
    requires Agree(st, S, C)
    ensures Agree(Expire(st, key), S, C)
  {
    forall k | k in Expire(st, key).tasks && Expire(st, key).tasks[k].Stored?
      ensures HashOk(Expire(st, key), k, Expire(st, key).tasks[k].task, S, C)
    {
      assert HashOk(st, k, st.tasks[k].task, S, C);
    }
  }

  lemma ClearStreamKeepsHash(st: Store, stream: string, k: string, S: iset<string>, C: iset<string>)
    requires Agree(st, S, C) && k in ClearStream(st, stream).tasks && st.tasks[k].Stored?
    ensures HashOk(ClearStream(st, stream), k, st.tasks[k].task, S, C)
  {
    assert HashOk(st, k, st.tasks[k].task, S, C);
    StaysOnlyIfElsewhere(st, stream, k, S, C);
  }

  lemma ClearStreamKeepsIndices(st: Store, stream: string, S: iset<string>, C: iset<string>)
    requires LocksOk(st) && MembersOk(st, S, C)
    ensures LocksOk(ClearStream(st, stream)) && MembersOk(ClearStream(st, stream), S, C)
  {
  }

  lemma ClearStreamAgrees(st: Store, stream: string, S: iset<string>, C: iset<string>)
    requires Agree(st, S, C)
    ensures Agree(ClearStream(st, stream), S, C)
  {
    ClearStreamKeepsIndices(st, stream, S, C);
    forall k | k in ClearStream(st, stream).tasks && st.tasks[k].Stored?
      ensures HashOk(ClearStream(st, stream), k, st.tasks[k].task, S, C)
    {
      ClearStreamKeepsHash(st, stream, k, S, C);
    }
  }

  /** A whole hash that outlives the clearing of a stream belongs to another stream. */
  lemma StaysOnlyIfElsewhere(st: Store, stream: string, k: string, S: iset<string>, C: iset<string>)
    requires Agree(st, S, C) && k in ClearStream(st, stream).tasks && st.tasks[k].Stored?
    ensures st.tasks[k].task.stream != stream
  {
    var t := st.tasks[k].task;
    assert HashOk(st, k, t, S, C);
    assert (t.stream, t.client) in st.members;
    assert GetTask(st, t.stream, t.client).Some?;
    assert t.client in LiveMembers(st, t.stream, t.kind);
  }

  lemma {:induction false} ClearStreamsAgrees(st: Store, streams: seq<string>, S: iset<string>, C: iset<string>)
    requires Agree(st, S, C)
    ensures Agree(ClearStreams(st, streams), S, C)
  {
    if streams != [] {
      ClearStreamsAgrees(st, streams[..|streams| - 1], S, C);
      ClearStreamAgrees(ClearStreams(st, streams[..|streams| - 1]), streams[|streams| - 1], S, C);
    }
  }

  lemma ScanOneAgrees(st: Store, key: string, now: int, timeout: int, S: iset<string>, C: iset<string>)
    requires Agree(st, S, C)
    ensures Agree(ScanOne(st, key, now, timeout).0, S, C)
  {
    var claimed := st.(zset := st.zset - {key});
    TimestampsFree(st, claimed, S, C);
    if Expired(claimed, key, now, timeout) {
      var t := claimed.tasks[key].task;
      assert HashOk(claimed, key, t, S, C);
      DropAgrees(claimed, t, S, C);
    } else {
      TimestampsFree(st, ScanOne(st, key, now, timeout).0, S, C);
    }
  }

  lemma {:induction false} ScanAgrees(st: Store, keys: seq<string>, now: int, timeout: int, S: iset<string>, C: iset<string>)
    requires Agree(st, S, C)
    ensures Agree(Scan(st, keys, now, timeout).0, S, C)
  {
    if keys != [] {
      ScanAgrees(st, keys[..|keys| - 1], now, timeout, S, C);
      ScanOneAgrees(Scan(st, keys[..|keys| - 1], now, timeout).0, keys[|keys| - 1], now, timeout, S, C);
    }
  }

  lemma AgreeNamesMatch(st: Store, S: iset<string>, C: iset<string>)
    requires Agree(st, S, C)
    ensures NamesMatch(st)
  {
    forall k | k in st.tasks && st.tasks[k].Stored?
      ensures TaskKey(st.tasks[k].task.stream, st.tasks[k].task.client) == k
    {
      assert HashOk(st, k, st.tasks[k].task, S, C);
    }
  }

  lemma CleanupAgrees(st: Store, keys: seq<string>, died: seq<string>, now: int, timeout: int, S: iset<string>, C: iset<string>)
    requires Agree(st, S, C)
    ensures Agree(CleanupPass(st, keys, died, now, timeout), S, C)
  {
    var (st1, out) := Scan(st, keys, now, timeout);
    ScanAgrees(st, keys, now, timeout, S, C);
    AgreeNamesMatch(st, S, C);
    SecondDeregistration(st, keys, now, timeout);
    var st2 := DropAll(st1, Targets(out));
    TimestampsFree(st1, st2, S, C);
    ClearStreamsAgrees(st2, died, S, C);
  }

  lemma ApplyAgrees(st: Store, op: Op, S: iset<string>, C: iset<string>)
    requires Agree(st, S, C) && Separable(S, C) && Timely(op) && Over(op, S, C)
    ensures Agree(Apply(st, op), S, C)
  {
    match op
    case RegisterOp(t, now) => RegisterAgrees(st, t, now, S, C);
    case DeregisterOp(stream, client) => DeregisterAgrees(st, stream, client, S, C);
    case TouchOp(stream, client, now) => TouchAgrees(st, stream, client, now, S, C);
    case ExpireOp(key) => ExpireAgrees(st, key, S, C);
    case ClearOp(stream) => ClearStreamAgrees(st, stream, S, C);
    case PublishDoneOp(stream, client) => ClearStreamAgrees(st, stream, S, C);
    case CleanupOp(keys, died, now, timeout) => CleanupAgrees(st, keys, died, now, timeout, S, C);
  }

  // ----- Calls that write no hash only remove -----

  ghost predicate Shrinks(st: Store, st': Store) {
    && (forall k :: k in st'.tasks ==> k in st.tasks && st'.tasks[k] == st.tasks[k])
    && (forall s :: s in st'.pubs ==> s in st.pubs && st'.pubs[s] == st.pubs[s])
    && st'.members <= st.members
  }

  lemma {:induction false} DropAllShrinks(st: Store, gs: seq<Target>)
    ensures Shrinks(st, DropAll(st, gs))
  {
    if gs != [] {
      DropAllShrinks(st, gs[..|gs| - 1]);
    }
  }

  lemma {:induction false} ScanShrinks(st: Store, keys: seq<string>, now: int, timeout: int)
    ensures Shrinks(st, Scan(st, keys, now, timeout).0)
  {
    if keys != [] {
      ScanShrinks(st, keys[..|keys| - 1], now, timeout);
    }
  }

  lemma {:induction false} ClearStreamsShrinks(st: Store, streams: seq<string>)
    ensures Shrinks(st, ClearStreams(st, streams))
  {
    if streams != [] {
      ClearStreamsShrinks(st, streams[..|streams| - 1]);
    }
  }

  lemma OthersShrink(st: Store, op: Op)
    requires !op.RegisterOp? && !op.TouchOp?
    ensures Shrinks(st, Apply(st, op))
  {
    match op
    case CleanupOp(keys, died, now, timeout) =>
      var (st1, out) := Scan(st, keys, now, timeout);
      ScanShrinks(st, keys, now, timeout);
      DropAllShrinks(st1, Targets(out));
      ClearStreamsShrinks(DropAll(st1, Targets(out)), died);
    case _ =>
  }

  // ----- When names collide -----

  function PlainTask(stream: string, client: string): StreamTask {
    var time := FromMs(MIN_REASONABLE_MS);
    StreamTask(0, stream, client, Publisher, Initializing, RTMP, "", 0, time, time, "", "", None, None, None, false, false, "")
  }

  /** The run that breaks the agreement: two publishers are registered, then a client that never
      registered says goodbye under a name that builds the second one's key. */
  function CollidingRun(s: string, c: string, s': string, c': string): seq<Op> {
    [ RegisterOp(PlainTask(s, c'), MIN_REASONABLE_MS),
      RegisterOp(PlainTask(s', c'), MIN_REASONABLE_MS),
      DeregisterOp(s, c) ]
  }

  lemma KeyCancels(s: string, c: string, s': string, c': string)
    requires TaskKey(s, c) == TaskKey(s', c')
    ensures s == s' <==> c == c'
  {
    var n := 5 + |s| + 1;
    if s == s' {
      assert c == TaskKey(s, c)[n..] == TaskKey(s', c')[n..] == c';
    }
    if c == c' {
      assert |s| == |s'|;
      assert s == TaskKey(s, c)[5..5 + |s|] == TaskKey(s', c')[5..5 + |s|] == s';
    }
  }

  lemma FreshPublisher(st: Store, s: string, c: string)
    requires s !in st.pubs
    ensures Register(st, PlainTask(s, c), MIN_REASONABLE_MS).0
            == st.(tasks := st.tasks[TaskKey(s, c) := Stored(PlainTask(s, c))],
                   pubs := st.pubs[s := PlainTask(s, c)],
                   members := st.members + {(s, c)},
                   active := st.active + {s},
                   zset := st.zset[TaskKey(s, c) := MIN_REASONABLE_MS])
  {
  }

  lemma CollisionBreaks(s: string, c: string, s': string, c': string)
    requires TaskKey(s, c) == TaskKey(s', c') && (s != s' || c != c')
    ensures var ops := CollidingRun(s, c, s', c');
            !OnePublisher(Apply(Apply(Apply(EMPTY, ops[0]), ops[1]), ops[2]))
  {
    KeyCancels(s, c, s', c');
    var ops := CollidingRun(s, c, s', c');
    var a, b := PlainTask(s, c'), PlainTask(s', c');
    MsRoundTrip(MIN_REASONABLE_MS);
    FreshPublisher(EMPTY, s, c');
    var st1 := Register(EMPTY, a, MIN_REASONABLE_MS).0;
    FreshPublisher(st1, s', c');
    var st2 := Register(st1, b, MIN_REASONABLE_MS).0;
    var st3 := Deregister(st2, s, c);
    var k := TaskKey(s, c');
    if k == TaskKey(s, c) {
      KeyCancels(s, c', s, c);
    }
    assert st3.tasks[k] == Stored(a);
    assert ReadablePublisher(st3, k);
    assert GetPublisher(st3, s).None?;
  }

  /** Streams without a colon, or clients without a colon, are enough. */
  lemma ColonFreeIsSeparable(S: iset<string>, C: iset<string>)
    requires (forall s :: s in S ==> ':' !in s) || (forall c :: c in C ==> ':' !in c)
    ensures Separable(S, C)
  {
    forall s, c, s', c' | s in S && c in C && s' in S && c' in C && TaskKey(s, c) == TaskKey(s', c')
      ensures s == s' && c == c'
    {
      KeyCancels(s, c, s', c');
      if |s| < |s'| {
        ColonSplits(s, c, s', c');
      } else if |s'| < |s| {
        ColonSplits(s', c', s, c);
      } else {
        assert s == TaskKey(s, c)[5..5 + |s|] == TaskKey(s', c')[5..5 + |s|] == s';
      }
    }
  }

  lemma ColonSplits(s: string, c: string, s': string, c': string)
    requires TaskKey(s, c) == TaskKey(s', c') && |s| < |s'|
    ensures ':' in s' && ':' in c
  {
    var k := TaskKey(s, c);
    assert k[5 + |s|] == ':';
    assert k[5 + |s|] == s'[|s|];
    assert k[5 + |s'|] == ':';
    assert k[5 + |s'|] == c[|s'| - |s| - 1];
  }
}
