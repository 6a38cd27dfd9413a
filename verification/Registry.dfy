/** The stream registry on values: the six linked Redis structures and what each call of the
    state manager does to them. */
module Registry {
  import opened Text
  import opened StreamTasks
  import opened TaskCodec

  /** `task:<stream>:<client>` */
  function TaskKey(stream: string, client: string): string {
    "task:" + stream + ":" + client
  }

  /** Scores are whole milliseconds; a double holds each of them exactly. */
  datatype Store = Store(
    tasks: map<string, TaskHash>,      // by task key, each with a 60 s TTL
    pubs: map<string, StreamTask>,     // `pub:<stream>`, no TTL, always a whole task
    members: set<(string, string)>,    // (stream, client): the sets `stream:members:<stream>`
    active: set<string>,               // `active_pubs`
    players: int,                      // `global_players` total
    zset: map<string, int>)            // `task_timestamps`: task key to score

  const EMPTY := Store(map[], map[], {}, {}, 0, map[])

  datatype Target = Target(stream: string, client: string, kind: StreamType)

  function TargetOf(t: StreamTask): Target {
    Target(t.stream, t.client, t.kind)
  }

  // ----- Queries -----

  function GetByKey(st: Store, key: string): (r: Option<StreamTask>)
    ensures r.Some? ==> key in st.tasks && st.tasks[key].Stored?
  {
    if key in st.tasks then ReadHash(st.tasks[key]) else None
  }

  function GetTask(st: Store, stream: string, client: string): Option<StreamTask> {
    GetByKey(st, TaskKey(stream, client))
  }

  function GetPublisher(st: Store, stream: string): Option<StreamTask> {
    if stream in st.pubs then ReadHash(Stored(st.pubs[stream])) else None
  }

  /** `getActivePlayerCount`: the total is read with `stoull`, which wraps a negative number. */
  function ActivePlayerCount(st: Store): nat {
    if 0 <= st.players then st.players else st.players % 0x1_0000_0000_0000_0000
  }

  // ----- Removing -----

  /** The pipeline commands of `deregisterTasksBatch` for one target. The timestamp set is not
      touched. */
  function Drop(st: Store, g: Target): Store {
    var st1 := st.(tasks := st.tasks - {TaskKey(g.stream, g.client)},
                   members := st.members - {(g.stream, g.client)});
    if g.kind == Player then st1.(players := st1.players - 1)
    else st1.(pubs := st1.pubs - {g.stream}, active := st1.active - {g.stream})
  }

  function DropAll(st: Store, gs: seq<Target>): Store {
    if gs == [] then st else Drop(DropAll(st, gs[..|gs| - 1]), gs[|gs| - 1])
  }

  function Deregister(st: Store, stream: string, client: string): Store {
    match GetTask(st, stream, client)
    case None => st.(zset := st.zset - {TaskKey(stream, client)})
    case Some(t) => Drop(st, Target(stream, client, t.kind))
  }

  // ----- Registering -----

  function WriteTask(st: Store, t: StreamTask): Store {
    st.(tasks := st.tasks[TaskKey(t.stream, t.client) := Stored(t)])
  }

  function WritePublisherIndices(st: Store, t: StreamTask): Store {
    st.(pubs := st.pubs[t.stream := t],
        members := st.members + {(t.stream, t.client)},
        active := st.active + {t.stream})
  }

  function WritePlayerIndices(st: Store, t: StreamTask): Store {
    st.(members := st.members + {(t.stream, t.client)}, players := st.players + 1)
  }

  /** Another client holds the publisher lock of the task's stream. */
  predicate Conflict(st: Store, t: StreamTask) {
    var p := GetPublisher(st, t.stream);
    p.Some? && p.value.client != t.client
  }

  /** What is cleaned before a registration that meets no conflict. */
  function Precleaned(st: Store, t: StreamTask): Store {
    if (if t.kind == Publisher then GetPublisher(st, t.stream).Some?
        else TaskKey(t.stream, t.client) in st.tasks)
    then Deregister(st, t.stream, t.client)
    else st
  }

  function WriteIndices(st: Store, t: StreamTask): Store {
    if t.kind == Publisher then WritePublisherIndices(st, t) else WritePlayerIndices(st, t)
  }

  /** The writes of a registration, undone by a deregistration when one of its checks fails. */
  function Enrol(st: Store, t: StreamTask, now: int): (Store, bool) {
    var st1 := WriteTask(st, t);
    if t.kind == Publisher && Conflict(st1, t) then (Deregister(st1, t.stream, t.client), false)
    else
      var st2 := WriteIndices(st1, t);
      if !Reasonable(now) then (Deregister(st2, t.stream, t.client), false)
      else (st2.(zset := st2.zset[TaskKey(t.stream, t.client) := now]), true)
  }

  /** `registerTask` when every Redis command succeeds; `now` is the clock at the end of it. */
  function Register(st: Store, t: StreamTask, now: int): (Store, bool) {
    if t.kind == Publisher && Conflict(st, t) then (st, false)
    else Enrol(Precleaned(st, t), t, now)
  }

  // ----- Heartbeat and expiry -----

  function Touch(st: Store, stream: string, client: string, now: int): Store {
    var key := TaskKey(stream, client);
    var h := if key in st.tasks then Some(st.tasks[key]) else None;
    st.(tasks := st.tasks[key := TouchHash(h, now)], zset := st.zset[key := now])
  }

  /** The TTL of a task hash runs out. */
  function Expire(st: Store, key: string): Store {
    st.(tasks := st.tasks - {key})
  }

  // ----- Clearing a stream -----

  function Members(st: Store, stream: string): set<string> {
    set p | p in st.members && p.0 == stream :: p.1
  }

  /** The members of a stream that have a readable task, of the given kind. */
  function LiveMembers(st: Store, stream: string, kind: StreamType): set<string> {
    set c | c in Members(st, stream) && GetTask(st, stream, c).Some? && GetTask(st, stream, c).value.kind == kind
  }

  function KeysOf(stream: string, clients: set<string>): set<string> {
    set c | c in clients :: TaskKey(stream, c)
  }

  /** `deregisterAllMembers`, in closed form: the hashes of all readable members go, each player
      among them lowers the counter by one, a publisher among them takes the lock and the active
      entry along, and the members set goes in any case. */
  function ClearStream(st: Store, stream: string): Store {
    var st1 := st.(tasks := st.tasks - KeysOf(stream, LiveMembers(st, stream, Player))
                                     - KeysOf(stream, LiveMembers(st, stream, Publisher)),
                   members := (set p | p in st.members && p.0 != stream),
                   players := st.players - |LiveMembers(st, stream, Player)|);
    if LiveMembers(st, stream, Publisher) == {} then st1
    else st1.(pubs := st1.pubs - {stream}, active := st1.active - {stream})
  }

  function ClearStreams(st: Store, streams: seq<string>): Store {
    if streams == [] then st
    else ClearStream(ClearStreams(st, streams[..|streams| - 1]), streams[|streams| - 1])
  }

  /** `onPublishDone`: only a client whose readable task is a publisher clears the stream. */
  function PublishDone(st: Store, stream: string, client: string): Store {
    var t := GetTask(st, stream, client);
    if t.Some? && t.value.kind == Publisher then ClearStream(st, stream) else st
  }

  // ----- Timeout scan -----

  /** The double check: the task read back is still inside its timeout. */
  predicate StillFresh(t: StreamTask, now: int, timeout: int) {
    now - LastMs(t) < timeout
  }

  /** One candidate of the scan, without interruption. */
  function ScanOne(st: Store, key: string, now: int, timeout: int): (Store, Option<StreamTask>) {
    if key !in st.zset then (st, None)
    else
      var claimed := st.(zset := st.zset - {key});
      match GetByKey(claimed, key)
      case None => (claimed, None)
      case Some(t) =>
        if StillFresh(t, now, timeout) then (claimed.(zset := claimed.zset[key := LastMs(t)]), None)
        else (Deregister(claimed, t.stream, t.client), Some(t))
  }

  /** All candidates in turn: the store after them and the expired tasks in order. */
  function Scan(st: Store, keys: seq<string>, now: int, timeout: int): (Store, seq<StreamTask>) {
    if keys == [] then (st, [])
    else
      var (st1, out) := Scan(st, keys[..|keys| - 1], now, timeout);
      var (st2, t) := ScanOne(st1, keys[|keys| - 1], now, timeout);
      (st2, if t.Some? then out + [t.value] else out)
  }

  function Targets(ts: seq<StreamTask>): (gs: seq<Target>)
    ensures |gs| == |ts| && forall i :: 0 <= i < |ts| ==> gs[i] == TargetOf(ts[i])
  {
    seq(|ts|, i requires 0 <= i < |ts| => TargetOf(ts[i]))
  }

  /** One round of the cleanup thread: scan, deregister the expired tasks a second time, then
      clear the streams in `died`. */
  function CleanupPass(st: Store, keys: seq<string>, died: seq<string>, now: int, timeout: int): Store {
    var (st1, out) := Scan(st, keys, now, timeout);
    ClearStreams(DropAll(st1, Targets(out)), died)
  }

  /** `keys` is an answer of `ZRANGEBYSCORE 0 cutoff`: every member in the interval, once, by
      ascending score. */
  ghost predicate IsRange(zset: map<string, int>, cutoff: int, keys: seq<string>) {
    && (forall i :: 0 <= i < |keys| ==> keys[i] in zset && 0 <= zset[keys[i]] <= cutoff)
    && (forall k :: k in zset && 0 <= zset[k] <= cutoff ==> k in keys)
    && (forall i, j :: 0 <= i < j < |keys| ==> keys[i] != keys[j] && zset[keys[i]] <= zset[keys[j]])
  }

  // ----- Which keys a call can reach -----

  /** A whole hash lies under the key its own names build. */
  ghost predicate NamesMatch(st: Store) {
    forall k :: k in st.tasks && st.tasks[k].Stored? ==>
      TaskKey(st.tasks[k].task.stream, st.tasks[k].task.client) == k
  }

  ghost predicate SameBut(st: Store, st': Store, key: string) {
    && st'.tasks - {key} == st.tasks - {key}
    && st'.zset - {key} == st.zset - {key}
  }

  lemma SameButAt(st: Store, st': Store, key: string, k: string)
    requires SameBut(st, st', key) && k != key
    ensures k in st'.tasks <==> k in st.tasks
    ensures k in st.tasks ==> st'.tasks[k] == st.tasks[k]
    ensures k in st'.zset <==> k in st.zset
    ensures k in st.zset ==> st'.zset[k] == st.zset[k]
    ensures GetByKey(st', k) == GetByKey(st, k)
  {
    assert k in st'.tasks - {key} <==> k in st'.tasks;
    assert k in st.tasks - {key} <==> k in st.tasks;
    assert k in st'.zset - {key} <==> k in st'.zset;
    assert k in st.zset - {key} <==> k in st.zset;
    if k in st.tasks {
      assert (st'.tasks - {key})[k] == (st.tasks - {key})[k];
    }
    if k in st.zset {
      assert (st'.zset - {key})[k] == (st.zset - {key})[k];
    }
  }

  /** Deregistering reaches only its own key and leaves it unreadable. */
  lemma DeregisterReach(st: Store, stream: string, client: string)
    ensures var st' := Deregister(st, stream, client);
            var key := TaskKey(stream, client);
            && SameBut(st, st', key)
            && GetByKey(st', key).None?
            && (key in st'.tasks ==> key in st.tasks && st'.tasks[key] == st.tasks[key])
            && st'.zset.Keys <= st.zset.Keys
  {
  }

  ghost predicate Enrolled(st: Store, t: StreamTask, now: int) {
    var key := TaskKey(t.stream, t.client);
    key in st.tasks && st.tasks[key] == Stored(t) && key in st.zset && st.zset[key] == now
  }

  lemma EnrolReach(st: Store, t: StreamTask, now: int)
    ensures var (st', ok) := Enrol(st, t, now);
            var key := TaskKey(t.stream, t.client);
            && SameBut(st, st', key)
            && (key in st'.tasks ==> st'.tasks[key] == Stored(t))
            && st'.zset.Keys <= st.zset.Keys + {key}
            && (if ok then Enrolled(st', t, now)
                else GetByKey(st', key).None? && st'.zset.Keys <= st.zset.Keys)
  {
    var st1 := WriteTask(st, t);
    var st2 := WriteIndices(st1, t);
    assert SameBut(st, st1, TaskKey(t.stream, t.client));
    assert st2.tasks == st1.tasks && st2.zset == st1.zset;
    if t.kind == Publisher && Conflict(st1, t) {
      DeregisterReach(st1, t.stream, t.client);
    } else if !Reasonable(now) {
      DeregisterReach(st2, t.stream, t.client);
    } else {
      assert Enrol(st, t, now).0.tasks == st1.tasks;
    }
  }

  /** Registering reaches only its own key; afterwards the task is stored and timed, or the store
      is the same, or the key is unreadable. */
  lemma RegisterReach(st: Store, t: StreamTask, now: int)
    ensures var (st', ok) := Register(st, t, now);
            var key := TaskKey(t.stream, t.client);
            && SameBut(st, st', key)
            && (st' == st || (key in st'.tasks ==> st'.tasks[key] == Stored(t)))
            && st'.zset.Keys <= st.zset.Keys + {key}
            && (if ok then Enrolled(st', t, now)
                else st' == st || (GetByKey(st', key).None? && st'.zset.Keys <= st.zset.Keys))
  {
    DeregisterReach(st, t.stream, t.client);
    EnrolReach(Precleaned(st, t), t, now);
  }
}
