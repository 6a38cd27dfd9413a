/** The global player counter against the number of live player tasks, over every run. */
module PlayerCount {
  import opened Text
  import opened StreamTasks
  import opened TaskCodec
  import opened Registry
  import opened ScanEffect
  import opened Agreement

  predicate LivePlayer(st: Store, key: string) {
    GetByKey(st, key).Some? && GetByKey(st, key).value.kind == Player
  }

  function LivePlayers(st: Store): set<string> {
    set k | k in st.tasks && LivePlayer(st, k)
  }

  /** How far the counter is above the truth. */
  function Drift(st: Store): int {
    st.players - |LivePlayers(st)|
  }

  /** What each call adds to the difference: a player lost to its TTL, or overwritten by its own
      registration as publisher of a free stream, is still counted; every player that a cleanup
      pass finds expired is counted down twice. Nothing else moves it. */
  function Charge(st: Store, op: Op): int {
    match op
    case ExpireOp(key) => if LivePlayer(st, key) then 1 else 0
    case RegisterOp(t, _) =>
      if t.kind == Publisher && GetPublisher(st, t.stream).None? && LivePlayer(st, TaskKey(t.stream, t.client))
      then 1 else 0
    case CleanupOp(keys, _, now, timeout) => 0 - PlayersIn(Scan(st, keys, now, timeout).1)
    case _ => 0
  }

  ghost predicate Sane(st: Store) {
    NamesMatch(st) && forall k :: k in st.tasks && st.tasks[k].Stored? ==> InRange(st.tasks[k].task)
  }

  function One(b: bool): nat {
    if b then 1 else 0
  }

  /** A call that reaches one key changes the number of live players by that key alone. */
  lemma PlayersBut(st: Store, st': Store, key: string)
    requires st'.tasks - {key} == st.tasks - {key}
    ensures |LivePlayers(st')| - One(LivePlayer(st', key)) == |LivePlayers(st)| - One(LivePlayer(st, key))
  {
    var rest := LivePlayers(st) - {key};
    forall k | k != key
      ensures LivePlayer(st', k) == LivePlayer(st, k)
    {
      assert k in st'.tasks - {key} <==> k in st'.tasks;
      assert k in st.tasks - {key} <==> k in st.tasks;
      if k in st.tasks {
        assert (st'.tasks - {key})[k] == (st.tasks - {key})[k];
      }
    }
    assert LivePlayers(st') - {key} == rest;
    PlayersWith(st, key);
    PlayersWith(st', key);
  }

  lemma PlayersWith(st: Store, key: string)
    ensures |LivePlayers(st)| == |LivePlayers(st) - {key}| + One(LivePlayer(st, key))
  {
    assert key in LivePlayers(st) <==> LivePlayer(st, key);
    CountWithout(LivePlayers(st), key);
  }

  lemma CountWithout<T>(a: set<T>, e: T)
    ensures |a| == |a - {e}| + One(e in a)
  {
    if e in a {
      assert a == (a - {e}) + {e};
    } else {
      assert a == a - {e};
    }
  }

  lemma DropDrift(st: Store, stream: string, client: string)
    requires Sane(st)
    ensures Sane(Deregister(st, stream, client)) && Drift(Deregister(st, stream, client)) == Drift(st)
  {
    DeregisterReach(st, stream, client);
    PlayersBut(st, Deregister(st, stream, client), TaskKey(stream, client));
    assert Sane(Deregister(st, stream, client));
  }

  lemma EnrolDrift(st: Store, t: StreamTask, now: int)
    requires Sane(st) && InRange(t) && Reasonable(now) && (t.kind == Publisher ==> !Conflict(st, t))
    ensures var st' := Enrol(st, t, now).0;
            Sane(st') && Drift(st') == Drift(st) + One(LivePlayer(st, TaskKey(t.stream, t.client)))
  {
    var key := TaskKey(t.stream, t.client);
    var st' := Enrol(st, t, now).0;
    assert st'.tasks == st.tasks[key := Stored(t)];
    PlayersBut(st, st', key);
    assert Sane(st');
  }

  lemma RegisterDrift(st: Store, t: StreamTask, now: int)
    requires Sane(st) && Timely(RegisterOp(t, now))
    ensures var st' := Register(st, t, now).0;
            Sane(st') && Drift(st') == Drift(st) + Charge(st, RegisterOp(t, now))
  {
    if t.kind == Player || !Conflict(st, t) {
      var st0 := Precleaned(st, t);
      DropDrift(st, t.stream, t.client);
      DeregisterReach(st, t.stream, t.client);
      if t.kind == Publisher {
        DeregisterKeepsNoConflict(st, t);
      }
      EnrolDrift(st0, t, now);
    }
  }

  lemma TouchDrift(st: Store, stream: string, client: string, now: int)
    requires Sane(st) && Reasonable(now)
    ensures Sane(Touch(st, stream, client, now)) && Drift(Touch(st, stream, client, now)) == Drift(st)
  {
    MsRoundTrip(now);
    assert LivePlayers(Touch(st, stream, client, now)) == LivePlayers(st);
  }

  lemma ExpireDrift(st: Store, key: string)
    requires Sane(st)
    ensures Sane(Expire(st, key)) && Drift(Expire(st, key)) == Drift(st) + Charge(st, ExpireOp(key))
  {
    PlayersBut(st, Expire(st, key), key);
  }

  /** One stream's clients have as many keys as there are clients. */
  lemma {:induction false} KeysCount(stream: string, clients: set<string>)
    ensures |KeysOf(stream, clients)| == |clients|
  {
    if clients != {} {
      var c :| c in clients;
      KeysCount(stream, clients - {c});
      forall d | d in clients && TaskKey(stream, d) == TaskKey(stream, c)
        ensures d == c
      {
        KeyCancels(stream, d, stream, c);
      }
      assert KeysOf(stream, clients) == KeysOf(stream, clients - {c}) + {TaskKey(stream, c)};
    }
  }

  lemma ClearStreamDrift(st: Store, stream: string)
    requires Sane(st)
    ensures Sane(ClearStream(st, stream)) && Drift(ClearStream(st, stream)) == Drift(st)
  {
    var st' := ClearStream(st, stream);
    var clients := LiveMembers(st, stream, Player);
    KeysCount(stream, clients);
    ClearedPlayers(st, stream);
    assert KeysOf(stream, clients) <= LivePlayers(st);
  }

  lemma ClearedPlayers(st: Store, stream: string)
    ensures LivePlayers(ClearStream(st, stream))
            == LivePlayers(st) - KeysOf(stream, LiveMembers(st, stream, Player))
    ensures KeysOf(stream, LiveMembers(st, stream, Player)) <= LivePlayers(st)
  {
  }

  lemma {:induction false} ClearStreamsDrift(st: Store, streams: seq<string>)
    requires Sane(st)
    ensures Sane(ClearStreams(st, streams)) && Drift(ClearStreams(st, streams)) == Drift(st)
  {
    if streams != [] {
      ClearStreamsDrift(st, streams[..|streams| - 1]);
      ClearStreamDrift(ClearStreams(st, streams[..|streams| - 1]), streams[|streams| - 1]);
    }
  }

  lemma ScanOneDrift(st: Store, key: string, now: int, timeout: int)
    requires Sane(st)
    ensures var st' := ScanOne(st, key, now, timeout).0;
            Sane(st') && Drift(st') == Drift(st)
  {
    var claimed := st.(zset := st.zset - {key});
    assert LivePlayers(claimed) == LivePlayers(st);
    if Expired(claimed, key, now, timeout) {
      var t := GetByKey(claimed, key).value;
      DropDrift(claimed, t.stream, t.client);
    } else {
      assert LivePlayers(ScanOne(st, key, now, timeout).0) == LivePlayers(st);
    }
  }

  lemma {:induction false} ScanDrift(st: Store, keys: seq<string>, now: int, timeout: int)
    requires Sane(st)
    ensures var st' := Scan(st, keys, now, timeout).0;
            Sane(st') && Drift(st') == Drift(st)
  {
    if keys != [] {
      ScanDrift(st, keys[..|keys| - 1], now, timeout);
      ScanOneDrift(Scan(st, keys[..|keys| - 1], now, timeout).0, keys[|keys| - 1], now, timeout);
    }
  }

  lemma CleanupDrift(st: Store, keys: seq<string>, died: seq<string>, now: int, timeout: int)
    requires Sane(st)
    ensures var st' := CleanupPass(st, keys, died, now, timeout);
            Sane(st') && Drift(st') == Drift(st) - PlayersIn(Scan(st, keys, now, timeout).1)
  {
    var (st1, out) := Scan(st, keys, now, timeout);
    ScanDrift(st, keys, now, timeout);
    SecondDeregistration(st, keys, now, timeout);
    var st2 := DropAll(st1, Targets(out));
    assert LivePlayers(st2) == LivePlayers(st1);
    ClearStreamsDrift(st2, died);
  }

  lemma ApplyDrift(st: Store, op: Op)
    requires Sane(st) && Timely(op)
    ensures Sane(Apply(st, op)) && Drift(Apply(st, op)) == Drift(st) + Charge(st, op)
  {
    match op
    case RegisterOp(t, now) => RegisterDrift(st, t, now);
    case DeregisterOp(stream, client) => DropDrift(st, stream, client);
    case TouchOp(stream, client, now) => TouchDrift(st, stream, client, now);
    case ExpireOp(key) => ExpireDrift(st, key);
    case ClearOp(stream) => ClearStreamDrift(st, stream);
    case PublishDoneOp(stream, client) => ClearStreamDrift(st, stream);
    case CleanupOp(keys, died, now, timeout) => CleanupDrift(st, keys, died, now, timeout);
  }

  /** How `stoull` reads the total. */
  lemma Wraps(st: Store)
    requires -0x1_0000_0000_0000_0000 < st.players < 0
    ensures ActivePlayerCount(st) == st.players + 0x1_0000_0000_0000_0000
  {
  }

  /** From a right counter, the count reported after a cleanup pass is right exactly when the pass
      found no expired player; with one too many it wraps to an enormous number. */
  lemma CleanupMiscounts(st: Store, keys: seq<string>, died: seq<string>, now: int, timeout: int)
    requires Sane(st) && Drift(st) == 0
    requires PlayersIn(Scan(st, keys, now, timeout).1) < 0x1_0000_0000_0000_0000
    ensures var st' := CleanupPass(st, keys, died, now, timeout);
            var expired := PlayersIn(Scan(st, keys, now, timeout).1);
            && (ActivePlayerCount(st') == |LivePlayers(st')| <==> expired == 0)
            && (|LivePlayers(st')| < expired ==>
                  ActivePlayerCount(st') == 0x1_0000_0000_0000_0000 + |LivePlayers(st')| - expired)
  {
    CleanupDrift(st, keys, died, now, timeout);
    var st' := CleanupPass(st, keys, died, now, timeout);
    if st'.players < 0 {
      Wraps(st');
    }
  }
}
