/** What a registration accepts and what it leaves, said of the six structures themselves. */
module Registration {
  import opened Text
  import opened StreamTasks
  import opened TaskCodec
  import opened Registry
  import opened Rollback

  /** The hash under the task's key is a whole one of that kind with times in range. */
  predicate WasLive(st: Store, t: StreamTask, kind: StreamType) {
    var key := TaskKey(t.stream, t.client);
    key in st.tasks && st.tasks[key].Stored? && InRange(st.tasks[key].task) && st.tasks[key].task.kind == kind
  }

  /** A readable lock of the stream names this client. */
  predicate OwnLock(st: Store, t: StreamTask) {
    t.stream in st.pubs && InRange(st.pubs[t.stream]) && st.pubs[t.stream].client == t.client
  }

  /** A readable lock of the stream names another client. */
  predicate ForeignLock(st: Store, t: StreamTask) {
    t.stream in st.pubs && InRange(st.pubs[t.stream]) && st.pubs[t.stream].client != t.client
  }

  /** A registration succeeds if and only if the clock is in range and it is not that of a publisher of a
      stream whose readable lock names another client. In particular a publisher may always register
      again over its own lock, and a player always. */
  lemma AcceptsExactly(st: Store, t: StreamTask, now: int)
    ensures Register(st, t, now).1 <==> Reasonable(now) && !(t.kind == Publisher && ForeignLock(st, t))
  {
  }

  /** A refused registration changes nothing. */
  lemma RefusalChangesNothing(st: Store, t: StreamTask, now: int)
    requires t.kind == Publisher && ForeignLock(st, t)
    ensures Register(st, t, now) == (st, false)
  {
  }

  /** What the cleaning before the writes can change: entries of the client itself, the lock and active
      entry of its stream, and the counter by a live player. */
  lemma CleanedIs(st: Store, t: StreamTask)
    requires t.kind == Publisher ==> !ForeignLock(st, t)
    ensures var st0 := Precleaned(st, t);
            var key, pair := TaskKey(t.stream, t.client), (t.stream, t.client);
            && st0.tasks - {key} == st.tasks - {key} && st0.zset - {key} == st.zset - {key}
            && st0.members - {pair} == st.members - {pair}
            && st0.pubs - {t.stream} == st.pubs - {t.stream} && st0.active - {t.stream} == st.active - {t.stream}
            && (t.kind == Player && !WasLive(st, t, Publisher) ==> st0.pubs == st.pubs && st0.active == st.active)
            && (t.kind == Player && WasLive(st, t, Publisher) ==>
                  st0.pubs == st.pubs - {t.stream} && st0.active == st.active - {t.stream})
            && st0.players == st.players - (if WasLive(st, t, Player) && (t.kind == Player || OwnLock(st, t)) then 1 else 0)
            && (t.kind == Publisher ==> !Conflict(st0, t))
  {
    DeregisterReach(st, t.stream, t.client);
  }

  lemma AfterEnrol(st: Store, t: StreamTask, now: int)
    requires Reasonable(now) && (t.kind == Publisher ==> !Conflict(st, t))
    ensures Enrol(st, t, now) == (
      Store(st.tasks[TaskKey(t.stream, t.client) := Stored(t)],
            if t.kind == Publisher then st.pubs[t.stream := t] else st.pubs,
            st.members + {(t.stream, t.client)},
            if t.kind == Publisher then st.active + {t.stream} else st.active,
            st.players + (if t.kind == Player then 1 else 0),
            st.zset[TaskKey(t.stream, t.client) := now]),
      true)
  {
  }

  lemma SetOver<K, V>(m: map<K, V>, m': map<K, V>, k: K, v: V)
    requires m - {k} == m' - {k}
    ensures m[k := v] == m'[k := v]
  {
    assert m[k := v] == (m - {k})[k := v];
    assert m'[k := v] == (m' - {k})[k := v];
  }

  lemma AddOver<T>(a: set<T>, a': set<T>, e: T)
    requires a - {e} == a' - {e}
    ensures a + {e} == a' + {e}
  {
    assert a + {e} == (a - {e}) + {e};
    assert a' + {e} == (a' - {e}) + {e};
  }

  /** After a publisher was registered: its hash, score, membership, lock and active entry are there, and
      everything else is as it was, except that a live player of the same client that held the lock too is
      counted down. */
  lemma PublisherRegistered(st: Store, t: StreamTask, now: int)
    requires t.kind == Publisher && Register(st, t, now).1
    ensures Register(st, t, now).0 == Store(
      st.tasks[TaskKey(t.stream, t.client) := Stored(t)],
      st.pubs[t.stream := t],
      st.members + {(t.stream, t.client)},
      st.active + {t.stream},
      st.players - (if OwnLock(st, t) && WasLive(st, t, Player) then 1 else 0),
      st.zset[TaskKey(t.stream, t.client) := now])
  {
    var key := TaskKey(t.stream, t.client);
    var st0 := Precleaned(st, t);
    AcceptsExactly(st, t, now);
    CleanedIs(st, t);
    AfterEnrol(st0, t, now);
    SetOver(st0.tasks, st.tasks, key, Stored(t));
    SetOver(st0.zset, st.zset, key, now);
    SetOver(st0.pubs, st.pubs, t.stream, t);
    AddOver(st0.members, st.members, (t.stream, t.client));
    AddOver(st0.active, st.active, t.stream);
  }

  /** After a player was registered: its hash, score and membership are there and it is counted once, up
      by one unless it was live before; everything else is as it was, except that a client that was the
      live publisher gives up the lock and the active entry of the stream. */
  lemma PlayerRegistered(st: Store, t: StreamTask, now: int)
    requires t.kind == Player && Register(st, t, now).1
    ensures Register(st, t, now).0 == Store(
      st.tasks[TaskKey(t.stream, t.client) := Stored(t)],
      if WasLive(st, t, Publisher) then st.pubs - {t.stream} else st.pubs,
      st.members + {(t.stream, t.client)},
      if WasLive(st, t, Publisher) then st.active - {t.stream} else st.active,
      st.players + (if WasLive(st, t, Player) then 0 else 1),
      st.zset[TaskKey(t.stream, t.client) := now])
  {
    var key := TaskKey(t.stream, t.client);
    var st0 := Precleaned(st, t);
    AcceptsExactly(st, t, now);
    CleanedIs(st, t);
    AfterEnrol(st0, t, now);
    SetOver(st0.tasks, st.tasks, key, Stored(t));
    SetOver(st0.zset, st.zset, key, now);
    AddOver(st0.members, st.members, (t.stream, t.client));
  }

  /** With a clock out of range, a readable task that is not refused is undone: nothing of the client is
      left but a timestamp, and for a publisher the stream has no lock and no active entry. */
  lemma BadClockLeavesNothing(st: Store, t: StreamTask, now: int)
    requires InRange(t) && !Reasonable(now) && !(t.kind == Publisher && ForeignLock(st, t))
    ensures var st' := Register(st, t, now).0;
            && st'.tasks == st.tasks - {TaskKey(t.stream, t.client)}
            && st'.members == st.members - {(t.stream, t.client)}
            && (t.kind == Publisher ==> st'.pubs == st.pubs - {t.stream} && st'.active == st.active - {t.stream})
  {
    var st0 := Precleaned(st, t);
    CleanedIs(st, t);
    BadClockUndoes(st0, t, now);
  }

  lemma BadClockUndoes(st: Store, t: StreamTask, now: int)
    requires InRange(t) && !Reasonable(now) && (t.kind == Publisher ==> !Conflict(st, t))
    ensures var st' := Enrol(st, t, now).0;
            && st'.tasks == st.tasks - {TaskKey(t.stream, t.client)}
            && st'.members == st.members - {(t.stream, t.client)}
            && (t.kind == Publisher ==> st'.pubs == st.pubs - {t.stream} && st'.active == st.active - {t.stream})
  {
    assert Enrol(st, t, now).0 == Deregister(FaultyIndices(WriteTask(st, t), t, NO_FAULTS).0, t.stream, t.client);
    if t.kind == Publisher {
      UndoPublisher(st, t, NO_FAULTS);
    } else {
      UndoPlayer(st, t, NO_FAULTS);
    }
  }

  // ----- With faults -----

  /** With any fault: a registration succeeds if and only if it would without, the hash, its expiry and its
      score could be written, and the index pipeline of a publisher or the member entry of a player. A
      player counter that could not be raised does not stop it. */
  lemma AcceptsWithFaults(st: Store, t: StreamTask, now: int, f: Faults)
    ensures FaultyRegister(st, t, now, f).1 <==>
            && Register(st, t, now).1
            && f.hashSet && f.expire && f.zsetAdd
            && (t.kind == Publisher ==> f.pipeline) && (t.kind == Player ==> f.setAdd)
  {
    AcceptsExactly(st, t, now);
    if t.kind == Player || !ForeignLock(st, t) {
      CleanedIs(st, t);
    }
  }

  /** And then it leaves what it would have left without, except for a count that was not raised. */
  lemma AcceptedWithFaults(st: Store, t: StreamTask, now: int, f: Faults)
    requires FaultyRegister(st, t, now, f).1
    ensures var st' := Register(st, t, now).0;
            FaultyRegister(st, t, now, f).0
            == st'.(players := st'.players - if t.kind == Player && !f.increment then 1 else 0)
  {
    AcceptsWithFaults(st, t, now, f);
    AcceptsExactly(st, t, now);
    CleanedIs(st, t);
  }
}
