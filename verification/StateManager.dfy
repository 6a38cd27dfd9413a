/** The state manager and the scheduler as objects: each method issues the Redis commands of the
    program in its order, and is proved to compute the registry function of the same name. */
module StateManager {
  import opened Text
  import opened StreamTasks
  import opened TaskCodec
  import opened Registry
  import opened ScanEffect
  import opened Agreement
  import opened PlayerCount

  /** `cs` lists the set `s` once each. */
  ghost predicate Lists<T(!new)>(cs: seq<T>, s: set<T>) {
    && (forall i :: 0 <= i < |cs| ==> cs[i] in s)
    && (forall c :: c in s ==> c in cs)
    && (forall i, j :: 0 <= i < j < |cs| ==> cs[i] != cs[j])
  }

  /** `SMEMBERS`: the members in some order. */
  method SetMembers<T(!new,==)>(s: set<T>) returns (cs: seq<T>)
    ensures Lists(cs, s)
  {
    cs := [];
    var todo := s;
    while todo != {}
      invariant todo <= s
      invariant Lists(cs, s - todo)
      decreases todo
    {
      var c :| c in todo;
      cs, todo := cs + [c], todo - {c};
    }
    assert s - {} == s;
  }

  lemma {:induction false} LowestExists(zset: map<string, int>, keys: set<string>)
    requires keys != {} && keys <= zset.Keys
    ensures exists k :: k in keys && forall j :: j in keys ==> zset[k] <= zset[j]
  {
    var k :| k in keys;
    if keys == {k} {
      assert forall j :: j in keys ==> zset[k] <= zset[j];
    } else {
      LowestExists(zset, keys - {k});
      var m :| m in keys - {k} && forall j :: j in keys - {k} ==> zset[m] <= zset[j];
      var low := if zset[k] <= zset[m] then k else m;
      assert low in keys && forall j :: j in keys ==> zset[low] <= zset[j];
    }
  }

  /** `ZRANGEBYSCORE 0 cutoff` */
  method RangeByScore(zset: map<string, int>, cutoff: int) returns (keys: seq<string>)
    ensures IsRange(zset, cutoff, keys)
  {
    keys := [];
    var todo := set k | k in zset && 0 <= zset[k] <= cutoff;
    while todo != {}
      invariant forall k :: k in todo ==> k in zset && 0 <= zset[k] <= cutoff
      invariant forall i :: 0 <= i < |keys| ==> keys[i] in zset && 0 <= zset[keys[i]] <= cutoff
      invariant forall k :: k in zset && 0 <= zset[k] <= cutoff ==> k in keys || k in todo
      invariant forall i, k :: 0 <= i < |keys| && k in todo ==> keys[i] != k && zset[keys[i]] <= zset[k]
      invariant forall i, j :: 0 <= i < j < |keys| ==> keys[i] != keys[j] && zset[keys[i]] <= zset[keys[j]]
      decreases todo
    {
      LowestExists(zset, todo);
      var k :| k in todo && forall j :: j in todo ==> zset[k] <= zset[j];
      keys, todo := keys + [k], todo - {k};
    }
  }

  // ----- Batches of one stream -----

  /** The targets that `deregisterAllMembers` collects from the client list. */
  function MemberTargets(st: Store, stream: string, cs: seq<string>): seq<Target> {
    if cs == [] then []
    else
      var gs, c := MemberTargets(st, stream, cs[..|cs| - 1]), cs[|cs| - 1];
      match GetTask(st, stream, c)
      case Some(t) => gs + [Target(stream, c, t.kind)]
      case None => gs
  }

  function LiveIn(st: Store, stream: string, cs: seq<string>, kind: StreamType): set<string> {
    set c | c in cs && GetTask(st, stream, c).Some? && GetTask(st, stream, c).value.kind == kind
  }

  /** The batch of one stream's readable clients, in closed form. */
  function AfterBatch(st: Store, stream: string, players: set<string>, publishers: set<string>): Store {
    var st1 := st.(tasks := st.tasks - KeysOf(stream, players) - KeysOf(stream, publishers),
                   members := st.members - Named(stream, players) - Named(stream, publishers),
                   players := st.players - |players|);
    if publishers == {} then st1
    else st1.(pubs := st.pubs - {stream}, active := st.active - {stream})
  }

  function Named(stream: string, clients: set<string>): set<(string, string)> {
    set c | c in clients :: (stream, c)
  }

  lemma LiveInMore(st: Store, stream: string, cs: seq<string>, c: string, kind: StreamType)
    ensures LiveIn(st, stream, cs + [c], kind)
            == LiveIn(st, stream, cs, kind)
               + if GetTask(st, stream, c).Some? && GetTask(st, stream, c).value.kind == kind then {c} else {}
  {
  }

  lemma NamedMore(stream: string, clients: set<string>, c: string)
    ensures KeysOf(stream, clients + {c}) == KeysOf(stream, clients) + {TaskKey(stream, c)}
    ensures Named(stream, clients + {c}) == Named(stream, clients) + {(stream, c)}
  {
  }

  lemma DropPlayerMore(st: Store, stream: string, players: set<string>, publishers: set<string>, c: string)
    requires c !in players
    ensures Drop(AfterBatch(st, stream, players, publishers), Target(stream, c, Player))
            == AfterBatch(st, stream, players + {c}, publishers)
  {
    NamedMore(stream, players, c);
    assert st.tasks - KeysOf(stream, players) - KeysOf(stream, publishers) - {TaskKey(stream, c)}
        == st.tasks - (KeysOf(stream, players) + {TaskKey(stream, c)}) - KeysOf(stream, publishers);
  }

  lemma DropPublisherMore(st: Store, stream: string, players: set<string>, publishers: set<string>, c: string)
    ensures Drop(AfterBatch(st, stream, players, publishers), Target(stream, c, Publisher))
            == AfterBatch(st, stream, players, publishers + {c})
  {
    NamedMore(stream, publishers, c);
    assert st.tasks - KeysOf(stream, players) - KeysOf(stream, publishers) - {TaskKey(stream, c)}
        == st.tasks - KeysOf(stream, players) - (KeysOf(stream, publishers) + {TaskKey(stream, c)});
    assert st.pubs - {stream} - {stream} == st.pubs - {stream};
  }

  /** The batch of all readable clients in the list, in closed form. */
  function BatchOf(st: Store, stream: string, cs: seq<string>): Store {
    AfterBatch(st, stream, LiveIn(st, stream, cs, Player), LiveIn(st, stream, cs, Publisher))
  }

  lemma BatchMore(st: Store, stream: string, cs: seq<string>, c: string)
    requires c !in cs
    ensures BatchOf(st, stream, cs + [c])
            == match GetTask(st, stream, c)
               case Some(t) => Drop(BatchOf(st, stream, cs), Target(stream, c, t.kind))
               case None => BatchOf(st, stream, cs)
  {
    var players, publishers := LiveIn(st, stream, cs, Player), LiveIn(st, stream, cs, Publisher);
    LiveInMore(st, stream, cs, c, Player);
    LiveInMore(st, stream, cs, c, Publisher);
    assert players + {} == players && publishers + {} == publishers;
    match GetTask(st, stream, c) {
      case None =>
      case Some(t) =>
        if t.kind == Player {
          DropPlayerMore(st, stream, players, publishers, c);
        } else {
          DropPublisherMore(st, stream, players, publishers, c);
        }
    }
  }

  lemma {:induction false} BatchIs(st: Store, stream: string, cs: seq<string>)
    requires forall i, j :: 0 <= i < j < |cs| ==> cs[i] != cs[j]
    ensures DropAll(st, MemberTargets(st, stream, cs)) == BatchOf(st, stream, cs)
  {
    if cs == [] {
      assert st.tasks - {} - {} == st.tasks;
    } else {
      var front, c := cs[..|cs| - 1], cs[|cs| - 1];
      assert cs == front + [c] && c !in front;
      BatchIs(st, stream, front);
      BatchMore(st, stream, front, c);
      var gs := MemberTargets(st, stream, front);
      if GetTask(st, stream, c).Some? {
        assert MemberTargets(st, stream, cs)[..|gs|] == gs;
      }
    }
  }

  /** Collecting the readable members, dropping them as a batch and deleting the members set is the
      closed form of clearing a stream, in whatever order the members are listed. */
  lemma ClearStreamByBatch(st: Store, stream: string, cs: seq<string>)
    requires Lists(cs, Members(st, stream))
    ensures var st1 := DropAll(st, MemberTargets(st, stream, cs));
            ClearStream(st, stream) == st1.(members := set p | p in st1.members && p.0 != stream)
  {
    BatchIs(st, stream, cs);
    assert LiveIn(st, stream, cs, Player) == LiveMembers(st, stream, Player);
    assert LiveIn(st, stream, cs, Publisher) == LiveMembers(st, stream, Publisher);
  }

  // ----- The manager -----

  class RedisStreamStateManager {
    var tasks: map<string, TaskHash>
    var pubs: map<string, StreamTask>
    var members: set<(string, string)>
    var active: set<string>
    var players: int
    var zset: map<string, int>

    function State(): Store
      reads this
    {
      Store(tasks, pubs, members, active, players, zset)
    }

    constructor ()
      ensures State() == EMPTY
    {
      tasks, pubs, members, active, players, zset := map[], map[], {}, {}, 0, map[];
    }

    method GetTaskByKey(key: string) returns (t: Option<StreamTask>)
      ensures t == GetByKey(State(), key)
    {
      if key in tasks {
        t := ReadHash(tasks[key]);
      } else {
        t := None;
      }
    }

    method GetPublisherTask(stream: string) returns (t: Option<StreamTask>)
      ensures t == GetPublisher(State(), stream)
    {
      if stream in pubs {
        t := ReadHash(Stored(pubs[stream]));
      } else {
        t := None;
      }
    }

    method DeregisterTasksBatch(targets: seq<Target>) returns (count: nat)
      modifies this
      ensures State() == DropAll(old(State()), targets)
      ensures count == |targets|
    {
      if targets == [] {
        return 0;
      }
      var i := 0;
      while i < |targets|
        invariant 0 <= i <= |targets|
        invariant State() == DropAll(old(State()), targets[..i])
      {
        assert targets[..i + 1][..i] == targets[..i];
        var g := targets[i];
        tasks := tasks - {TaskKey(g.stream, g.client)};
        members := members - {(g.stream, g.client)};
        if g.kind == Player {
          players := players - 1;
        } else {
          pubs := pubs - {g.stream};
          active := active - {g.stream};
        }
        i := i + 1;
      }
      assert targets[..|targets|] == targets;
      count := |targets|;
    }

    method DeregisterTask(stream: string, client: string) returns (ok: bool)
      modifies this
      ensures State() == Deregister(old(State()), stream, client)
      ensures ok
    {
      var t := GetTaskByKey(TaskKey(stream, client));
      if t.None? {
        zset := zset - {TaskKey(stream, client)};
        return true;
      }
      var targets := [Target(stream, client, t.value.kind)];
      assert targets[..0] == [];
      var n := DeregisterTasksBatch(targets);
      ok := n > 0;
    }

    method RegisterPublisherIndices(t: StreamTask) returns (ok: bool)
      modifies this
      ensures ok == !Conflict(old(State()), t)
      ensures State() == if ok then WritePublisherIndices(old(State()), t) else old(State())
    {
      var current := GetPublisherTask(t.stream);
      if current.Some? && current.value.client != t.client {
        return false;
      }
      pubs := pubs[t.stream := t];
      members := members + {(t.stream, t.client)};
      active := active + {t.stream};
      ok := true;
    }

    method RegisterPlayerIndices(t: StreamTask)
      modifies this
      ensures State() == WritePlayerIndices(old(State()), t)
    {
      members := members + {(t.stream, t.client)};
      players := players + 1;
    }

    method RegisterTask(t: StreamTask, now: int) returns (ok: bool)
      modifies this
      ensures (State(), ok) == Register(old(State()), t, now)
    {
      var key := TaskKey(t.stream, t.client);
      if t.kind == Publisher {
        var existing := GetPublisherTask(t.stream);
        if existing.Some? && existing.value.client != t.client {
          return false;
        }
        if existing.Some? {
          var _ := DeregisterTask(t.stream, t.client);
        }
      } else if key in tasks {
        var _ := DeregisterTask(t.stream, t.client);
      }
      ghost var cleaned := State();
      assert cleaned == Precleaned(old(State()), t);
      ok := Write(t, now);
    }

    /** The part of `registerTask` from the hash write on. */
    method Write(t: StreamTask, now: int) returns (ok: bool)
      modifies this
      ensures (State(), ok) == Enrol(old(State()), t, now)
    {
      var key := TaskKey(t.stream, t.client);
      tasks := tasks[key := Stored(t)];
      var indexed := true;
      if t.kind == Publisher {
        indexed := RegisterPublisherIndices(t);
      } else {
        RegisterPlayerIndices(t);
      }
      if !indexed || !Reasonable(now) {
        var _ := DeregisterTask(t.stream, t.client);
        return false;
      }
      zset := zset[key := now];
      ok := true;
    }

    method TouchTask(stream: string, client: string, now: int) returns (ok: bool)
      modifies this
      ensures State() == Touch(old(State()), stream, client, now)
      ensures ok
    {
      var key := TaskKey(stream, client);
      var h := if key in tasks then Some(tasks[key]) else None;
      tasks := tasks[key := TouchHash(h, now)];
      zset := zset[key := now];
      // EXPIRE on the key just written reports success, so the clean-up branch is never taken.
      ok := key in tasks;
    }

    method DeregisterAllMembers(stream: string)
      modifies this
      ensures State() == ClearStream(old(State()), stream)
    {
      var cs := SetMembers(Members(State(), stream));
      ClearStreamByBatch(State(), stream, cs);
      if cs != [] {
        var targets: seq<Target> := [];
        var i := 0;
        while i < |cs|
          invariant 0 <= i <= |cs|
          invariant State() == old(State())
          invariant targets == MemberTargets(State(), stream, cs[..i])
        {
          assert cs[..i + 1][..i] == cs[..i];
          var t := GetTaskByKey(TaskKey(stream, cs[i]));
          if t.Some? {
            targets := targets + [Target(stream, cs[i], t.value.kind)];
          }
          i := i + 1;
        }
        assert cs[..|cs|] == cs;
        var _ := DeregisterTasksBatch(targets);
      }
      members := set p | p in members && p.0 != stream;
    }

    /** The returned keys are the range answer the scan worked on. */
    method ScanTimeoutTasks(now: int, timeout: int) returns (expired: seq<StreamTask>, ghost keys: seq<string>)
      modifies this
      ensures IsRange(old(zset), now - timeout, keys)
      ensures (State(), expired) == Scan(old(State()), keys, now, timeout)
    {
      var candidates := RangeByScore(zset, now - timeout);
      keys := candidates;
      expired := [];
      var i := 0;
      while i < |candidates|
        invariant 0 <= i <= |candidates|
        invariant (State(), expired) == Scan(old(State()), candidates[..i], now, timeout)
      {
        assert candidates[..i + 1][..i] == candidates[..i];
        var t := ScanCandidate(candidates[i], now, timeout);
        if t.Some? {
          expired := expired + [t.value];
        }
        i := i + 1;
      }
      assert candidates[..|candidates|] == candidates;
    }

    /** The loop body of the scan: claim, read back, then put back or remove. */
    method ScanCandidate(key: string, now: int, timeout: int) returns (expired: Option<StreamTask>)
      modifies this
      ensures (State(), expired) == ScanOne(old(State()), key, now, timeout)
    {
      if key !in zset {
        return None;
      }
      zset := zset - {key};
      var t := GetTaskByKey(key);
      if t.None? {
        return None;
      }
      if now - LastMs(t.value) < timeout {
        zset := zset[key := LastMs(t.value)];
        return None;
      }
      var _ := DeregisterTask(t.value.stream, t.value.client);
      expired := t;
    }
  }

  // ----- The scheduler -----

  class StreamTaskScheduler {
    const manager: RedisStreamStateManager
    var tasksCleaned: nat

    constructor (manager: RedisStreamStateManager)
      ensures this.manager == manager && tasksCleaned == 0
    {
      this.manager := manager;
      tasksCleaned := 0;
    }

    method OnPublishDone(stream: string, client: string)
      modifies manager
      ensures manager.State() == PublishDone(old(manager.State()), stream, client)
    {
      var t := manager.GetTaskByKey(TaskKey(stream, client));
      if t.Some? && t.value.kind == Publisher {
        manager.DeregisterAllMembers(stream);
      }
    }

    method OnPlayDone(stream: string, client: string)
      modifies manager
      ensures manager.State() == Deregister(old(manager.State()), stream, client)
    {
      var _ := manager.DeregisterTask(stream, client);
    }

    /** One round of the cleanup thread. `keys` is what the range query returned and `died` lists the
        streams of the expired publishers once each. */
    method CleanupRound(now: int, timeout: int) returns (ghost keys: seq<string>, ghost died: seq<string>)
      modifies this, manager
      ensures IsRange(old(manager.zset), now - timeout, keys)
      ensures Lists(died, PublisherStreams(Scan(old(manager.State()), keys, now, timeout).1))
      ensures manager.State() == CleanupPass(old(manager.State()), keys, died, now, timeout)
      ensures tasksCleaned == old(tasksCleaned) + |Scan(old(manager.State()), keys, now, timeout).1|
    {
      var expired;
      expired, keys := manager.ScanTimeoutTasks(now, timeout);
      var targets: seq<Target>, streams: set<string> := [], {};
      var i := 0;
      while i < |expired|
        invariant 0 <= i <= |expired|
        invariant targets == Targets(expired)[..i]
        invariant streams == PublisherStreams(expired[..i])
        invariant tasksCleaned == old(tasksCleaned) + i
        invariant (manager.State(), expired) == Scan(old(manager.State()), keys, now, timeout)
      {
        var t := expired[i];
        assert expired[..i + 1] == expired[..i] + [t];
        targets := targets + [TargetOf(t)];
        tasksCleaned := tasksCleaned + 1;
        if t.kind == Publisher {
          streams := streams + {t.stream};
        }
        i := i + 1;
      }
      assert expired[..|expired|] == expired;
      assert targets == Targets(expired);
      var _ := manager.DeregisterTasksBatch(targets);
      died := ClearDead(streams);
    }

    method ClearDead(streams: set<string>) returns (ghost died: seq<string>)
      modifies manager
      ensures Lists(died, streams)
      ensures manager.State() == ClearStreams(old(manager.State()), died)
    {
      var order := SetMembers(streams);
      died := order;
      var i := 0;
      while i < |order|
        invariant 0 <= i <= |order|
        invariant manager.State() == ClearStreams(old(manager.State()), order[..i])
      {
        assert order[..i + 1][..i] == order[..i];
        manager.DeregisterAllMembers(order[i]);
        i := i + 1;
      }
      assert order[..|order|] == order;
    }
  }
}
