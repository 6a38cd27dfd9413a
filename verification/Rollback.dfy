/** Registration when Redis commands fail, and what its undo restores. A command that reports
    failure has had no effect, except that the index pipeline may have been applied up to any
    prefix; the commands of the undo itself succeed. */
module Rollback {
  import opened Text
  import opened StreamTasks
  import opened TaskCodec
  import opened Registry
  import opened Agreement

  /** Which commands succeed. `applied` is the number of index pipeline commands that took effect
      before it failed. */
  datatype Faults = Faults(hashSet: bool, expire: bool, pipeline: bool, applied: nat,
                           setAdd: bool, increment: bool, zsetAdd: bool)

  const NO_FAULTS := Faults(true, true, true, 0, true, true, true)

  function PipelinePrefix(st: Store, t: StreamTask, applied: nat): Store {
    st.(pubs := if applied >= 1 then st.pubs[t.stream := t] else st.pubs,
        members := if applied >= 2 then st.members + {(t.stream, t.client)} else st.members,
        active := if applied >= 3 then st.active + {t.stream} else st.active)
  }

  /** The index step: the store it leaves and whether it reports success. A failed increment of the
      player counter is only logged. */
  function FaultyIndices(st: Store, t: StreamTask, f: Faults): (Store, bool) {
    if t.kind == Publisher then
      if Conflict(st, t) then (st, false)
      else if !f.pipeline then (PipelinePrefix(st, t, f.applied), false)
      else (WritePublisherIndices(st, t), true)
    else if !f.setAdd then (st, false)
    else if !f.increment then (st.(members := st.members + {(t.stream, t.client)}), true)
    else (WritePlayerIndices(st, t), true)
  }

  function FaultyEnrol(st: Store, t: StreamTask, now: int, f: Faults): (Store, bool) {
    var key := TaskKey(t.stream, t.client);
    var st1 := WriteTask(st, t);
    if !f.hashSet then (st, false)
    else if !f.expire then (st1.(tasks := st1.tasks - {key}), false)
    else
      var (st2, ok) := FaultyIndices(st1, t, f);
      if !ok || !Reasonable(now) || !f.zsetAdd then (Deregister(st2, t.stream, t.client), false)
      else (st2.(zset := st2.zset[key := now]), true)
  }

  function FaultyRegister(st: Store, t: StreamTask, now: int, f: Faults): (Store, bool) {
    if t.kind == Publisher && Conflict(st, t) then (st, false)
    else FaultyEnrol(Precleaned(st, t), t, now, f)
  }

  lemma WithoutFaults(st: Store, t: StreamTask, now: int)
    ensures FaultyRegister(st, t, now, NO_FAULTS) == Register(st, t, now)
  {
  }

  lemma FaultyIndicesReach(st: Store, t: StreamTask, f: Faults)
    ensures FaultyIndices(st, t, f).0.tasks == st.tasks && FaultyIndices(st, t, f).0.zset == st.zset
  {
  }

  lemma FaultyEnrolReach(st: Store, t: StreamTask, now: int, f: Faults)
    ensures var (st', ok) := FaultyEnrol(st, t, now, f);
            var key := TaskKey(t.stream, t.client);
            && SameBut(st, st', key)
            && (key in st'.tasks ==> st'.tasks[key] == Stored(t) || st' == st)
            && st'.zset.Keys <= st.zset.Keys + {key}
            && (if ok then key in st'.zset
                else st'.zset.Keys <= st.zset.Keys && (GetByKey(st', key).Some? ==> st' == st))
  {
    var key := TaskKey(t.stream, t.client);
    var st1 := WriteTask(st, t);
    FaultyIndicesReach(st1, t, f);
    DeregisterReach(FaultyIndices(st1, t, f).0, t.stream, t.client);
    assert st1.tasks - {key} == st.tasks - {key};
  }

  /** A registration with any fault reaches only its own key. It leaves there the new task with its
      timestamp, or nothing readable, or the store as it was. */
  lemma FaultyReach(st: Store, t: StreamTask, now: int, f: Faults)
    ensures var (st', ok) := FaultyRegister(st, t, now, f);
            var key := TaskKey(t.stream, t.client);
            && SameBut(st, st', key)
            && (key in st'.tasks ==> st'.tasks[key] == Stored(t) || (key in st.tasks && st'.tasks[key] == st.tasks[key]))
            && st'.zset.Keys <= st.zset.Keys + {key}
            && (if ok then key in st'.zset
                else st'.zset.Keys <= st.zset.Keys && (GetByKey(st', key).Some? ==> st' == st))
  {
    DeregisterReach(st, t.stream, t.client);
    FaultyEnrolReach(Precleaned(st, t), t, now, f);
  }

  // ----- When a failed registration leaves the store as it was -----

  /** The store holds no hash and no membership of this client, and for a publisher no lock and no
      active entry of its stream. A timestamp left behind by an earlier deregistration may be there. */
  ghost predicate Fresh(st: Store, t: StreamTask) {
    && TaskKey(t.stream, t.client) !in st.tasks
    && (t.stream, t.client) !in st.members
    && (t.kind == Publisher ==> t.stream !in st.pubs && t.stream !in st.active)
  }

  /** The cleaning before the writes is skipped, or finds nothing to clean. */
  predicate CleansNothing(st: Store, t: StreamTask) {
    var key := TaskKey(t.stream, t.client);
    || (if t.kind == Publisher then GetPublisher(st, t.stream).None? else key !in st.tasks)
    || (GetByKey(st, key).None? && key !in st.zset)
  }

  /** A task that cannot be read back is never undone; it only leaves the store as it was if each
      write that happened repeated what was already there. */
  predicate RepeatsStore(st: Store, t: StreamTask, f: Faults) {
    var key := TaskKey(t.stream, t.client);
    && key in st.tasks && st.tasks[key] == Stored(t) && key !in st.zset
    && (if t.kind == Player then f.setAdd ==> (t.stream, t.client) in st.members && !f.increment
        else
          var applied := if f.pipeline then 3 else f.applied;
          && (applied >= 1 ==> t.stream in st.pubs && st.pubs[t.stream] == t)
          && (applied >= 2 ==> (t.stream, t.client) in st.members)
          && (applied >= 3 ==> t.stream in st.active))
  }

  /** The guards under which a failed registration has no effect. */
  ghost predicate Restorable(st: Store, t: StreamTask, f: Faults) {
    || (t.kind == Publisher && Conflict(st, t))
    || (CleansNothing(st, t)
        && if !f.hashSet then true
           else if !f.expire then TaskKey(t.stream, t.client) !in st.tasks
           else if InRange(t) then Fresh(st, t) && (t.kind == Player ==> f.setAdd && f.increment)
           else RepeatsStore(st, t, f))
  }

  lemma CleaningChanges(st: Store, t: StreamTask)
    ensures Precleaned(st, t) == st <==> CleansNothing(st, t)
    ensures var key := TaskKey(t.stream, t.client);
            || CleansNothing(st, t)
            || (GetByKey(st, key).Some? && key !in Precleaned(st, t).tasks)
            || (key in st.zset && key !in Precleaned(st, t).zset)
  {
    var key := TaskKey(t.stream, t.client);
    assert key !in st.zset ==> st.zset - {key} == st.zset;
  }

  lemma UndoPublisher(st: Store, t: StreamTask, f: Faults)
    requires InRange(t) && t.kind == Publisher && !Conflict(st, t)
    ensures Deregister(FaultyIndices(WriteTask(st, t), t, f).0, t.stream, t.client)
            == st.(tasks := st.tasks - {TaskKey(t.stream, t.client)},
                   members := st.members - {(t.stream, t.client)},
                   pubs := st.pubs - {t.stream},
                   active := st.active - {t.stream})
  {
    var key := TaskKey(t.stream, t.client);
    var st2 := FaultyIndices(WriteTask(st, t), t, f).0;
    var st3 := Deregister(st2, t.stream, t.client);
    assert GetTask(st2, t.stream, t.client).Some?;
    assert st3.tasks == st.tasks - {key};
    assert st3.members == st.members - {(t.stream, t.client)};
    assert st3.pubs == st.pubs - {t.stream};
    assert st3.active == st.active - {t.stream};
  }

  lemma UndoPlayer(st: Store, t: StreamTask, f: Faults)
    requires InRange(t) && t.kind == Player
    ensures Deregister(FaultyIndices(WriteTask(st, t), t, f).0, t.stream, t.client)
            == st.(tasks := st.tasks - {TaskKey(t.stream, t.client)},
                   members := st.members - {(t.stream, t.client)},
                   players := st.players - if f.setAdd && f.increment then 0 else 1)
  {
    var st2 := FaultyIndices(WriteTask(st, t), t, f).0;
    var st3 := Deregister(st2, t.stream, t.client);
    assert GetTask(st2, t.stream, t.client).Some?;
    assert st3.tasks == st.tasks - {TaskKey(t.stream, t.client)};
    assert st3.members == st.members - {(t.stream, t.client)};
  }

  /** The undo of a readable task, on a store that was cleaned: nothing of the client is left. */
  lemma UndoReadable(st: Store, t: StreamTask, f: Faults)
    requires InRange(t) && (t.kind == Publisher ==> !Conflict(st, t))
    ensures var st' := Deregister(FaultyIndices(WriteTask(st, t), t, f).0, t.stream, t.client);
            && TaskKey(t.stream, t.client) !in st'.tasks
            && st'.zset == st.zset
            && (st' == st <==> Fresh(st, t) && (t.kind == Player ==> f.setAdd && f.increment))
  {
    if t.kind == Publisher {
      UndoPublisher(st, t, f);
    } else {
      UndoPlayer(st, t, f);
    }
  }

  lemma UndoUnreadable(st: Store, t: StreamTask, f: Faults)
    requires !InRange(t) && (t.kind == Publisher ==> !Conflict(st, t))
    ensures var st' := Deregister(FaultyIndices(WriteTask(st, t), t, f).0, t.stream, t.client);
            var key := TaskKey(t.stream, t.client);
            && key in st'.tasks && st'.tasks[key] == Stored(t) && key !in st'.zset
            && (st' == st <==> RepeatsStore(st, t, f))
  {
    var key := TaskKey(t.stream, t.client);
    var st2 := FaultyIndices(WriteTask(st, t), t, f).0;
    assert GetTask(st2, t.stream, t.client).None?;
    var st' := Deregister(st2, t.stream, t.client);
    assert st' == st2.(zset := st.zset - {key});
    if RepeatsStore(st, t, f) {
      assert st'.tasks == st.tasks && st'.zset == st.zset;
      assert st'.pubs == st.pubs && st'.members == st.members && st'.active == st.active;
    }
  }

  /** One failed registration, on a store that is already clean. */
  lemma EnrolFailure(st: Store, t: StreamTask, now: int, f: Faults)
    requires (t.kind == Publisher ==> !Conflict(st, t)) && !FaultyEnrol(st, t, now, f).1
    ensures var st' := FaultyEnrol(st, t, now, f).0;
            var key := TaskKey(t.stream, t.client);
            && st'.zset.Keys <= st.zset.Keys
            && (st' == st <==> if !f.hashSet then true
                               else if !f.expire then key !in st.tasks
                               else if InRange(t) then Fresh(st, t) && (t.kind == Player ==> f.setAdd && f.increment)
                               else RepeatsStore(st, t, f))
            && (key in st'.tasks ==> (!f.hashSet && key in st.tasks && st'.tasks[key] == st.tasks[key])
                                     || (st'.tasks[key] == Stored(t) && !InRange(t)))
  {
    var key := TaskKey(t.stream, t.client);
    if f.hashSet && !f.expire {
      assert WriteTask(st, t).tasks - {key} == st.tasks - {key};
      assert key !in st.tasks ==> st.tasks - {key} == st.tasks;
    } else if f.hashSet {
      if InRange(t) {
        UndoReadable(st, t, f);
      } else {
        UndoUnreadable(st, t, f);
      }
    }
  }

  /** Over every store and every fault: a failed registration leaves the store as it was if and only
      if its guards say so. */
  lemma FailureRestoresExactly(st: Store, t: StreamTask, now: int, f: Faults)
    requires !FaultyRegister(st, t, now, f).1
    ensures FaultyRegister(st, t, now, f).0 == st <==> Restorable(st, t, f)
  {
    if t.kind == Player || !Conflict(st, t) {
      var st0 := Precleaned(st, t);
      CleaningChanges(st, t);
      if t.kind == Publisher {
        DeregisterKeepsNoConflict(st, t);
      }
      EnrolFailure(st0, t, now, f);
    }
  }

  /** For a client that the store does not know, that is: the hash was never written, or the hash can
      be read back and, for a player, the counter was raised before it is lowered. */
  predicate Undoable(t: StreamTask, f: Faults) {
    || !f.hashSet
    || !f.expire
    || (InRange(t) && (t.kind == Player ==> f.setAdd && f.increment))
  }

  lemma FailureRestores(st: Store, t: StreamTask, now: int, f: Faults)
    requires Fresh(st, t) && !FaultyRegister(st, t, now, f).1
    ensures FaultyRegister(st, t, now, f).0 == st <==> Undoable(t, f)
  {
    FailureRestoresExactly(st, t, now, f);
  }

  /** For publishers with times in range the promise of the interface holds at every step. */
  lemma PublisherFailureRestores(st: Store, t: StreamTask, now: int, f: Faults)
    requires Fresh(st, t) && t.kind == Publisher && InRange(t) && !FaultyRegister(st, t, now, f).1
    ensures FaultyRegister(st, t, now, f).0 == st
  {
    FailureRestoresExactly(st, t, now, f);
  }

  /** A player whose member entry or counter could not be written is counted down all the same. */
  lemma PlayerFailureUndercounts(st: Store, t: StreamTask, now: int, f: Faults)
    requires Fresh(st, t) && t.kind == Player && InRange(t) && f.hashSet && f.expire && !(f.setAdd && f.increment)
    requires !FaultyRegister(st, t, now, f).1
    ensures FaultyRegister(st, t, now, f).0 == st.(players := st.players - 1)
  {
    UndoPlayer(st, t, f);
  }

  /** A client that reconnects and fails, at whatever step, has lost its old registration. */
  lemma ReconnectFailureLosesOld(st: Store, t: StreamTask, now: int, f: Faults)
    requires GetTask(st, t.stream, t.client).Some? && !FaultyRegister(st, t, now, f).1
    requires t.kind == Publisher ==> GetPublisher(st, t.stream).Some? && !Conflict(st, t)
    ensures GetTask(FaultyRegister(st, t, now, f).0, t.stream, t.client).None?
    ensures FaultyRegister(st, t, now, f).0 != st
  {
    DeregisterReach(st, t.stream, t.client);
    if t.kind == Publisher {
      DeregisterKeepsNoConflict(st, t);
    }
    EnrolFailure(Precleaned(st, t), t, now, f);
  }

  // ----- Faults and the agreement of the indices -----

  /** Whatever part of the indices was written, dropping the task leaves what dropping it with all
      of them leaves, up to the counter. */
  lemma DropAfterAny(st: Store, t: StreamTask, f: Faults)
    requires t.kind == Publisher ==> !Conflict(st, t)
    ensures var a := Drop(FaultyIndices(WriteTask(st, t), t, f).0, TargetOf(t));
            var b := Drop(WriteIndices(WriteTask(st, t), t), TargetOf(t));
            a.tasks == b.tasks && a.pubs == b.pubs && a.members == b.members && a.active == b.active
  {
    var a := Drop(FaultyIndices(WriteTask(st, t), t, f).0, TargetOf(t));
    var b := Drop(WriteIndices(WriteTask(st, t), t), TargetOf(t));
    assert a.pubs == b.pubs;
    assert a.members == b.members;
    assert a.active == b.active;
  }

  lemma UndoAgrees(st: Store, t: StreamTask, f: Faults, S: iset<string>, C: iset<string>)
    requires Agree(st, S, C) && Separable(S, C) && t.stream in S && t.client in C && InRange(t)
    requires t.kind == Publisher ==> !Conflict(st, t)
    ensures Agree(Deregister(FaultyIndices(WriteTask(st, t), t, f).0, t.stream, t.client), S, C)
  {
    var whole := WriteIndices(WriteTask(st, t), t);
    WriteAgrees(st, t, S, C);
    DropAgrees(whole, t, S, C);
    DropAfterAny(st, t, f);
    var st2 := FaultyIndices(WriteTask(st, t), t, f).0;
    assert Deregister(st2, t.stream, t.client) == Drop(st2, TargetOf(t));
    TimestampsFree(Drop(whole, TargetOf(t)), Drop(st2, TargetOf(t)), S, C);
  }

  lemma FaultyEnrolAgrees(st: Store, t: StreamTask, now: int, f: Faults, S: iset<string>, C: iset<string>)
    requires Agree(st, S, C) && Separable(S, C) && t.stream in S && t.client in C && InRange(t)
    requires t.kind == Publisher ==> !Conflict(st, t)
    ensures Agree(FaultyEnrol(st, t, now, f).0, S, C)
  {
    var key := TaskKey(t.stream, t.client);
    if f.hashSet && !f.expire {
      ExpireAgrees(st, key, S, C);
      assert WriteTask(st, t).tasks - {key} == st.tasks - {key};
    } else if f.hashSet {
      UndoAgrees(st, t, f, S, C);
      WriteAgrees(st, t, S, C);
      if FaultyEnrol(st, t, now, f).1 {
        TimestampsFree(WriteIndices(WriteTask(st, t), t), FaultyEnrol(st, t, now, f).0, S, C);
      }
    }
  }

  lemma FaultyRegisterAgrees(st: Store, t: StreamTask, now: int, f: Faults, S: iset<string>, C: iset<string>)
    requires Agree(st, S, C) && Separable(S, C) && t.stream in S && t.client in C && InRange(t)
    ensures Agree(FaultyRegister(st, t, now, f).0, S, C)
  {
    if t.kind == Player || !Conflict(st, t) {
      DeregisterAgrees(st, t.stream, t.client, S, C);
      if t.kind == Publisher {
        DeregisterKeepsNoConflict(st, t);
      }
      FaultyEnrolAgrees(Precleaned(st, t), t, now, f, S, C);
    }
  }
}
