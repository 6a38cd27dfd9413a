/** The end of a stream: torn down by its publisher, or its publisher lost to the TTL. */
module Teardown {
  import opened Text
  import opened StreamTasks
  import opened TaskCodec
  import opened Registry
  import opened ScanEffect
  import opened Agreement
  import opened PlayerCount
  import opened Rollback
  import opened Gateway

  predicate OfStream(h: TaskHash, stream: string) {
    h.Stored? && h.task.stream == stream
  }

  function PlayersOf(st: Store, stream: string): set<string> {
    set k | k in st.tasks && OfStream(st.tasks[k], stream) && st.tasks[k].task.kind == Player
  }

  /** The store without anything of one stream, apart from its timestamps. */
  function WithoutStream(st: Store, stream: string): Store {
    Store(
      (map k | k in st.tasks && !OfStream(st.tasks[k], stream) :: st.tasks[k]),
      st.pubs - {stream},
      (set p | p in st.members && p.0 != stream),
      st.active - {stream},
      st.players - |PlayersOf(st, stream)|,
      st.zset)
  }

  /** In a store whose indices agree, the readable members of a stream are its own tasks. */
  lemma MembersAreTasks(st: Store, stream: string, kind: StreamType, S: iset<string>, C: iset<string>)
    requires Agree(st, S, C) && Separable(S, C) && stream in S
    ensures KeysOf(stream, LiveMembers(st, stream, kind))
            == set k | k in st.tasks && OfStream(st.tasks[k], stream) && st.tasks[k].task.kind == kind
  {
    var left := KeysOf(stream, LiveMembers(st, stream, kind));
    forall k | k in left
      ensures k in st.tasks && OfStream(st.tasks[k], stream) && st.tasks[k].task.kind == kind
    {
      var c :| c in LiveMembers(st, stream, kind) && k == TaskKey(stream, c);
      assert (stream, c) in st.members;
      assert HashOk(st, k, st.tasks[k].task, S, C);
    }
    forall k | k in st.tasks && OfStream(st.tasks[k], stream) && st.tasks[k].task.kind == kind
      ensures k in left
    {
      assert HashOk(st, k, st.tasks[k].task, S, C);
      assert st.tasks[k].task.client in Members(st, stream);
      assert st.tasks[k].task.client in LiveMembers(st, stream, kind);
    }
  }

  lemma ClearStreamIs(st: Store, stream: string, S: iset<string>, C: iset<string>)
    requires Agree(st, S, C) && Separable(S, C) && stream in S
    requires LiveMembers(st, stream, Publisher) != {}
    ensures ClearStream(st, stream) == WithoutStream(st, stream)
  {
    MembersAreTasks(st, stream, Player, S, C);
    MembersAreTasks(st, stream, Publisher, S, C);
    KeysCount(stream, LiveMembers(st, stream, Player));
    assert ClearStream(st, stream).tasks == WithoutStream(st, stream).tasks;
  }

  /** The end-of-publish callback from the client whose task is the stream's publisher removes
      exactly that stream from every structure but the timestamps, and lowers the player counter by
      exactly its number of player tasks; from anyone else it changes nothing. */
  lemma PublishDoneTearsDown(st: Store, stream: string, client: string, S: iset<string>, C: iset<string>)
    requires Agree(st, S, C) && Separable(S, C) && stream in S && client in C
    ensures PublishDone(st, stream, client)
            == if ReadablePublisher(st, TaskKey(stream, client)) then WithoutStream(st, stream) else st
  {
    var key := TaskKey(stream, client);
    if ReadablePublisher(st, key) {
      assert HashOk(st, key, st.tasks[key].task, S, C);
      assert client in Members(st, stream);
      assert client in LiveMembers(st, stream, Publisher);
      ClearStreamIs(st, stream, S, C);
    }
  }

  /** After a teardown any client may publish the stream again. */
  lemma FreeAfterTeardown(st: Store, stream: string, t: StreamTask, now: int)
    requires t.kind == Publisher && t.stream == stream && Reasonable(now)
    ensures Register(WithoutStream(st, stream), t, now).1
  {
  }

  // ----- A publisher lost to the TTL -----

  /** The lock of a stream names a client that has no publisher task any more. */
  ghost predicate LostLock(st: Store, stream: string, client: string) {
    && stream in st.pubs && st.pubs[stream].client == client
    && forall k :: k in st.tasks && OfStream(st.tasks[k], stream) ==> st.tasks[k].task.kind == Player
  }

  /** The owner of the lock registers as publisher again. */
  predicate Returns(t: StreamTask, stream: string, client: string) {
    t.kind == Publisher && t.stream == stream && t.client == client
  }

  lemma ExpiryLosesLock(st: Store, stream: string, client: string, S: iset<string>, C: iset<string>)
    requires Agree(st, S, C) && Separable(S, C) && stream in S && client in C
    requires ReadablePublisher(st, TaskKey(stream, client))
    ensures LostLock(Expire(st, TaskKey(stream, client)), stream, client)
  {
    var key := TaskKey(stream, client);
    assert HashOk(st, key, st.tasks[key].task, S, C);
    forall k | k in st.tasks && k != key && OfStream(st.tasks[k], stream)
      ensures st.tasks[k].task.kind == Player
    {
      assert HashOk(st, k, st.tasks[k].task, S, C);
    }
  }

  // Of the other streams only the names matter: whatever their indices look like, a key belongs to one
  // (stream, client) pair.

  /** No readable task is a publisher of the stream. */
  lemma NoPublisherTask(st: Store, stream: string, client: string, k: string)
    requires LostLock(st, stream, client) && ReadablePublisher(st, k)
    ensures GetByKey(st, k).value.stream != stream
  {
  }

  lemma HashNames(st: Store, a: string, b: string, S: iset<string>, C: iset<string>)
    requires Named(st, S, C) && Separable(S, C) && a in S && b in C && GetTask(st, a, b).Some?
    ensures GetTask(st, a, b).value.stream == a && GetTask(st, a, b).value.client == b
  {
    assert NamedHash(TaskKey(a, b), st.tasks[TaskKey(a, b)].task, S, C);
  }

  lemma DeregisterKeepsLost(st: Store, stream: string, client: string, a: string, b: string, S: iset<string>, C: iset<string>)
    requires Named(st, S, C) && Separable(S, C) && LostLock(st, stream, client) && a in S && b in C
    ensures LostLock(Deregister(st, a, b), stream, client)
  {
    if GetTask(st, a, b).Some? {
      HashNames(st, a, b, S, C);
    }
  }

  /** Clearing takes a stream's lock only with a readable publisher of it. */
  lemma ClearStreamKeepsLost(st: Store, stream: string, client: string, a: string, S: iset<string>, C: iset<string>)
    requires Named(st, S, C) && Separable(S, C) && LostLock(st, stream, client) && stream in S
    ensures LostLock(ClearStream(st, a), stream, client)
  {
    if a == stream {
      forall c | c in Members(st, stream) && GetTask(st, stream, c).Some?
        ensures GetTask(st, stream, c).value.kind == Player
      {
        assert (stream, c) in st.members;
        HashNames(st, stream, c, S, C);
      }
      assert LiveMembers(st, stream, Publisher) == {};
    }
  }

  lemma {:induction false} ClearStreamsKeepsLost(st: Store, stream: string, client: string, died: seq<string>, S: iset<string>, C: iset<string>)
    requires Named(st, S, C) && Separable(S, C) && LostLock(st, stream, client) && stream in S
    ensures LostLock(ClearStreams(st, died), stream, client)
  {
    if died != [] {
      var front := died[..|died| - 1];
      ClearStreamsKeepsLost(st, stream, client, front, S, C);
      ClearStreamsShrinks(st, front);
      ClearStreamKeepsLost(ClearStreams(st, front), stream, client, died[|died| - 1], S, C);
    }
  }

  lemma ScanOneKeepsLost(st: Store, stream: string, client: string, k: string, now: int, timeout: int)
    requires LostLock(st, stream, client) && NamesMatch(st)
    ensures LostLock(ScanOne(st, k, now, timeout).0, stream, client)
  {
  }

  lemma {:induction false} ScanKeepsLost(st: Store, stream: string, client: string, keys: seq<string>, now: int, timeout: int)
    requires LostLock(st, stream, client) && NamesMatch(st)
    ensures LostLock(Scan(st, keys, now, timeout).0, stream, client)
  {
    if keys != [] {
      var front := keys[..|keys| - 1];
      ScanKeepsLost(st, stream, client, front, now, timeout);
      ScanGone(st, front, now, timeout);
      ScanOneKeepsLost(Scan(st, front, now, timeout).0, stream, client, keys[|keys| - 1], now, timeout);
    }
  }

  lemma NamedNamesMatch(st: Store, S: iset<string>, C: iset<string>)
    requires Named(st, S, C)
    ensures NamesMatch(st)
  {
    forall k | k in st.tasks && st.tasks[k].Stored?
      ensures TaskKey(st.tasks[k].task.stream, st.tasks[k].task.client) == k
    {
      assert NamedHash(k, st.tasks[k].task, S, C);
    }
  }

  lemma ShrinksNames(st: Store, st': Store, S: iset<string>, C: iset<string>)
    requires Named(st, S, C) && Shrinks(st, st')
    ensures Named(st', S, C)
  {
    InheritsNames(st, st', None, S, C);
  }

  lemma CleanupKeepsLost(st: Store, stream: string, client: string, keys: seq<string>, died: seq<string>, now: int, timeout: int, S: iset<string>, C: iset<string>)
    requires Named(st, S, C) && Separable(S, C) && LostLock(st, stream, client) && stream in S
    ensures LostLock(CleanupPass(st, keys, died, now, timeout), stream, client)
  {
    var (st1, out) := Scan(st, keys, now, timeout);
    NamedNamesMatch(st, S, C);
    ScanKeepsLost(st, stream, client, keys, now, timeout);
    ScanShrinks(st, keys, now, timeout);
    ShrinksNames(st, st1, S, C);
    SecondDeregistration(st, keys, now, timeout);
    var st2 := DropAll(st1, Targets(out));
    ClearStreamsKeepsLost(st2, stream, client, died, S, C);
  }

  lemma FaultyIndicesKeepLock(st: Store, stream: string, t: StreamTask, f: Faults)
    requires t.kind == Player || t.stream != stream
    ensures var st' := FaultyIndices(st, t, f).0;
            && st'.tasks == st.tasks
            && (stream in st.pubs ==> stream in st'.pubs && st'.pubs[stream] == st.pubs[stream])
  {
  }

  lemma UndoKeepsLock(st: Store, stream: string, t: StreamTask)
    requires t.kind == Player || t.stream != stream
    requires TaskKey(t.stream, t.client) in st.tasks && st.tasks[TaskKey(t.stream, t.client)] == Stored(t)
    ensures var st' := Deregister(st, t.stream, t.client);
            stream in st.pubs ==> stream in st'.pubs && st'.pubs[stream] == st.pubs[stream]
  {
  }

  /** While the lock is lost, every other client is refused. */
  lemma RefusedWhileLost(st: Store, stream: string, client: string, t: StreamTask, S: iset<string>, C: iset<string>)
    requires Named(st, S, C) && LostLock(st, stream, client) && t.stream == stream && t.client != client
    ensures Conflict(st, t)
  {
    assert InRange(st.pubs[stream]);
  }

  lemma OtherKeepsLost(st: Store, stream: string, client: string, t: StreamTask, now: int, f: Faults)
    requires LostLock(st, stream, client) && (t.kind == Player || t.stream != stream)
    ensures LostLock(FaultyEnrol(st, t, now, f).0, stream, client)
  {
    var st1 := WriteTask(st, t);
    FaultyIndicesKeepLock(st1, stream, t, f);
    UndoKeepsLock(FaultyIndices(st1, t, f).0, stream, t);
    FaultyEnrolInherits(st, t, now, f);
  }

  lemma FaultyKeepsLost(st: Store, stream: string, client: string, t: StreamTask, now: int, f: Faults, S: iset<string>, C: iset<string>)
    requires Named(st, S, C) && Separable(S, C) && LostLock(st, stream, client)
    requires t.stream in S && t.client in C && !Returns(t, stream, client)
    ensures LostLock(FaultyRegister(st, t, now, f).0, stream, client)
  {
    if t.kind == Publisher && t.stream == stream {
      RefusedWhileLost(st, stream, client, t, S, C);
    } else {
      DeregisterKeepsLost(st, stream, client, t.stream, t.client, S, C);
      OtherKeepsLost(Precleaned(st, t), stream, client, t, now, f);
    }
  }

  lemma ApplyKeepsLost(st: Store, stream: string, client: string, op: Op, S: iset<string>, C: iset<string>)
    requires Named(st, S, C) && Separable(S, C) && LostLock(st, stream, client) && stream in S
    requires Timely(op) && Over(op, S, C) && !(op.RegisterOp? && Returns(op.task, stream, client))
    ensures LostLock(Apply(st, op), stream, client)
  {
    match op
    case RegisterOp(t, now) =>
      WithoutFaults(st, t, now);
      FaultyKeepsLost(st, stream, client, t, now, NO_FAULTS, S, C);
    case DeregisterOp(a, b) => DeregisterKeepsLost(st, stream, client, a, b, S, C);
    case TouchOp(_, _, _) =>
    case ExpireOp(_) =>
    case ClearOp(a) => ClearStreamKeepsLost(st, stream, client, a, S, C);
    case PublishDoneOp(a, _) => ClearStreamKeepsLost(st, stream, client, a, S, C);
    case CleanupOp(keys, died, now, timeout) =>
      CleanupKeepsLost(st, stream, client, keys, died, now, timeout, S, C);
  }

  // ----- Over every run -----

  /** No pass is about to deregister a publisher of the stream. */
  ghost predicate NoneDue(x: System, stream: string) {
    forall g :: Due(x, g) && g.kind == Publisher ==> g.stream != stream
  }

  lemma {:induction false} BatchKeepsLost(st: Store, stream: string, client: string, gs: seq<Target>)
    requires LostLock(st, stream, client)
    requires forall g :: g in gs && g.kind == Publisher ==> g.stream != stream
    ensures LostLock(DropAll(st, gs), stream, client)
  {
    if gs != [] {
      BatchKeepsLost(st, stream, client, gs[..|gs| - 1]);
      assert gs[|gs| - 1] in gs;
    }
  }

  /** The step registers the lock's client as publisher of the stream again. */
  predicate ComesBack(s: Step, stream: string, client: string) {
    Registered(s).Some? && Returns(Registered(s).value, stream, client)
  }

  lemma PassKeepsLost(x: System, p: nat, stream: string, client: string, S: iset<string>, C: iset<string>)
    requires Named(x.st, S, C) && DueNamed(x, S, C) && Separable(S, C) && stream in S && Enabled(x, Advance(p))
    requires LostLock(x.st, stream, client) && NoneDue(x, stream)
    ensures LostLock(StoreAfter(x.st, x.passes[p]), stream, client)
  {
    var c := x.passes[p];
    forall g | g in Owing(c)
      ensures Due(x, g)
    {
    }
    match c
    case Doomed(_, _, _, out, t) =>
      assert Owing(c)[|out|] == TargetOf(t);
      DeregisterKeepsLost(x.st, stream, client, t.stream, t.client, S, C);
    case Batching(out, _) => BatchKeepsLost(x.st, stream, client, out);
    case Clearing(died) =>
      if died != [] {
        ClearStreamKeepsLost(x.st, stream, client, died[0], S, C);
      }
    case _ =>
  }

  lemma StepKeepsLost(x: System, s: Step, stream: string, client: string, S: iset<string>, C: iset<string>)
    requires Named(x.st, S, C) && DueNamed(x, S, C) && Separable(S, C) && stream in S
    requires Enabled(x, s) && Ordinary(s, S, C)
    requires LostLock(x.st, stream, client) && NoneDue(x, stream) && !ComesBack(s, stream, client)
    ensures LostLock(Next(x, s).st, stream, client)
  {
    match s
    case Call(op) => ApplyKeepsLost(x.st, stream, client, op, S, C);
    case Failing(t, now, f) => FaultyKeepsLost(x.st, stream, client, t, now, f, S, C);
    case Advance(p) =>
      AdvanceStore(x, p);
      PassKeepsLost(x, p, stream, client, S, C);
    case ClearDone(q) => ClearStreamKeepsLost(x.st, stream, client, x.callbacks[q], S, C);
    case _ =>
  }

  lemma StepKeepsNoneDue(x: System, s: Step, stream: string, client: string)
    requires Enabled(x, s) && LostLock(x.st, stream, client) && NoneDue(x, stream)
    ensures NoneDue(Next(x, s), stream)
  {
    forall g | Due(Next(x, s), g) && g.kind == Publisher
      ensures g.stream != stream
    {
      DueBefore(x, s, g);
      if !Due(x, g) {
        NoPublisherTask(x.st, stream, client, x.passes[s.p].key);
      }
    }
  }

  /** A publisher lost to its TTL, with no pass about to deregister it, blocks its stream for good: after
      any further run over names whose keys do not collide, whatever else is going on, in which that
      client does not itself come back, every other client that tries to publish the stream is refused.
      No callback, clearing or cleanup pass frees the lock. */
  lemma {:induction false} LostPublisherBlocksStream(x: System, stream: string, client: string, steps: seq<Step>,
                                                     t: StreamTask, now: int, S: iset<string>, C: iset<string>)
    requires Named(x.st, S, C) && DueNamed(x, S, C) && Separable(S, C) && stream in S
    requires LostLock(x.st, stream, client) && NoneDue(x, stream)
    requires OrdinaryRun(x, steps, S, C)
    requires forall i :: 0 <= i < |steps| ==> !ComesBack(steps[i], stream, client)
    requires t.kind == Publisher && t.stream == stream && t.client != client
    ensures CanRun(x, steps) && LostLock(Run(x, steps).st, stream, client)
    ensures Register(Run(x, steps).st, t, now) == (Run(x, steps).st, false)
    decreases |steps|
  {
    if steps == [] {
      RefusedWhileLost(x.st, stream, client, t, S, C);
    } else {
      NextNamed(x, steps[0], S, C);
      StepKeepsLost(x, steps[0], stream, client, S, C);
      StepKeepsNoneDue(x, steps[0], stream, client);
      LostPublisherBlocksStream(Next(x, steps[0]), stream, client, steps[1..], t, now, S, C);
    }
  }

  // ----- A callback that comes late -----

  /** The clearing of an end-of-publish callback, whenever it comes after its check, removes exactly the
      stream as it is then; so it hits another client's publisher task if and only if there is one. */
  lemma LateClearExact(st: Store, stream: string, client: string, S: iset<string>, C: iset<string>)
    requires Agree(st, S, C) && Separable(S, C) && stream in S
    ensures (exists k :: k in st.tasks && IsPublisherOf(st.tasks[k], stream)) ==>
              ClearStream(st, stream) == WithoutStream(st, stream)
    ensures (exists k :: k in st.tasks && k !in ClearStream(st, stream).tasks
                         && IsPublisherOf(st.tasks[k], stream) && st.tasks[k].task.client != client)
            <==> !NoRival(st, Target(stream, client, Publisher))
  {
    if k :| k in st.tasks && IsPublisherOf(st.tasks[k], stream) {
      assert HashOk(st, k, st.tasks[k].task, S, C);
      assert st.tasks[k].task.client in Members(st, stream);
      assert st.tasks[k].task.client in LiveMembers(st, stream, Publisher);
      ClearStreamIs(st, stream, S, C);
    }
  }

  lemma PassesCheck(s: string, c: string) returns (steps: seq<Step>)
    ensures CanRun(START, steps)
    ensures Run(START, steps) == System(Register(EMPTY, PlainTask(s, c), MIN_REASONABLE_MS).0, map[], map[0 := s])
  {
    FreshPublisher(EMPTY, s, c);
    MsRoundTrip(MIN_REASONABLE_MS);
    steps := Then(START, [], Call(RegisterOp(PlainTask(s, c), MIN_REASONABLE_MS)));
    steps := Then(START, steps, CheckDone(0, s, c));
  }

  /** A publisher that has left has left only its timestamp. */
  function AfterLeaving(s: string, c: string): Store {
    EMPTY.(zset := map[TaskKey(s, c) := MIN_REASONABLE_MS])
  }

  lemma Leaves(s: string, c: string)
    ensures Deregister(Register(EMPTY, PlainTask(s, c), MIN_REASONABLE_MS).0, s, c) == AfterLeaving(s, c)
  {
    FreshPublisher(EMPTY, s, c);
    MsRoundTrip(MIN_REASONABLE_MS);
    var st := Deregister(Register(EMPTY, PlainTask(s, c), MIN_REASONABLE_MS).0, s, c);
    assert st.tasks == map[] && st.pubs == map[] && st.members == {} && st.active == {};
  }

  lemma NewcomerCleared(s: string, c: string, c': string)
    ensures var st := Register(AfterLeaving(s, c), PlainTask(s, c'), MIN_REASONABLE_MS).0;
            ReadablePublisher(st, TaskKey(s, c')) && GetTask(ClearStream(st, s), s, c').None?
  {
    FreshPublisher(AfterLeaving(s, c), s, c');
    MsRoundTrip(MIN_REASONABLE_MS);
    var st := Register(AfterLeaving(s, c), PlainTask(s, c'), MIN_REASONABLE_MS).0;
    assert (s, c') in st.members && c' in Members(st, s);
    assert c' in LiveMembers(st, s, Publisher);
    assert TaskKey(s, c') in KeysOf(s, LiveMembers(st, s, Publisher));
  }

  /** For every stream and any two clients: the first's callback passes its check, the first is
      deregistered, the second publishes, and the clearing removes the second's task. */
  lemma StaleCallback(s: string, c: string, c': string) returns (steps: seq<Step>)
    ensures CanRun(START, steps) && Enabled(Run(START, steps), ClearDone(0))
    ensures ReadablePublisher(Run(START, steps).st, TaskKey(s, c'))
    ensures GetTask(Next(Run(START, steps), ClearDone(0)).st, s, c').None?
  {
    steps := PassesCheck(s, c);
    Leaves(s, c);
    steps := Then(START, steps, Call(DeregisterOp(s, c)));
    assert Run(START, steps) == System(AfterLeaving(s, c), map[], map[0 := s]);
    NewcomerCleared(s, c, c');
    steps := Then(START, steps, Call(RegisterOp(PlainTask(s, c'), MIN_REASONABLE_MS)));
  }

  /** A callback that nobody disturbs: its check passes if and only if the caller's readable task is a
      publisher of the stream, and check and clearing together are the callback in one piece. */
  lemma CallbackAlone(x: System, q: nat, stream: string, client: string)
    requires q !in x.callbacks
    ensures Enabled(x, CheckDone(q, stream, client))
    ensures var y := Next(x, CheckDone(q, stream, client));
            && y.st == x.st
            && (q in y.callbacks <==> ReadablePublisher(x.st, TaskKey(stream, client)))
            && (if q in y.callbacks then Next(y, ClearDone(q)) == x.(st := PublishDone(x.st, stream, client))
                else y == x && PublishDone(x.st, stream, client) == x.st)
  {
    var y := Next(x, CheckDone(q, stream, client));
    if q in y.callbacks {
      assert y.callbacks - {q} == x.callbacks;
    }
  }
}
