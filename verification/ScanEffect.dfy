/** What an uninterrupted timeout scan does, in closed form, and what is left for the second
    deregistration of the cleanup thread to do. */
module ScanEffect {
  import opened Text
  import opened StreamTasks
  import opened TaskCodec
  import opened Registry

  predicate Expired(st: Store, key: string, now: int, timeout: int) {
    GetByKey(st, key).Some? && !StillFresh(GetByKey(st, key).value, now, timeout)
  }

  function ExpiredKeys(st: Store, keys: seq<string>, now: int, timeout: int): set<string> {
    set k | k in keys && Expired(st, k, now, timeout)
  }

  /** The readable tasks among `keys` whose last activity is at or before the cutoff, in order. */
  function ExpiredTasks(st: Store, keys: seq<string>, now: int, timeout: int): seq<StreamTask> {
    if keys == [] then []
    else
      var out := ExpiredTasks(st, keys[..|keys| - 1], now, timeout);
      var k := keys[|keys| - 1];
      if Expired(st, k, now, timeout) then out + [GetByKey(st, k).value] else out
  }

  function PlayersIn(ts: seq<StreamTask>): nat {
    if ts == [] then 0
    else PlayersIn(ts[..|ts| - 1]) + if ts[|ts| - 1].kind == Player then 1 else 0
  }

  function PublisherStreams(ts: seq<StreamTask>): set<string> {
    set t | t in ts && t.kind == Publisher :: t.stream
  }

  function Pairs(ts: seq<StreamTask>): set<(string, string)> {
    set t | t in ts :: (t.stream, t.client)
  }

  /** The timestamp set afterwards: of the scanned keys only the fresh ones are back, each with its
      own last-active time. */
  function ZsetAfter(st: Store, keys: seq<string>, now: int, timeout: int): map<string, int> {
    map k | k in st.zset && (k in keys ==> GetByKey(st, k).Some? && !Expired(st, k, now, timeout)) ::
      if k in keys then LastMs(GetByKey(st, k).value) else st.zset[k]
  }

  function AfterScan(st: Store, keys: seq<string>, now: int, timeout: int): Store {
    var out := ExpiredTasks(st, keys, now, timeout);
    Store(
      st.tasks - ExpiredKeys(st, keys, now, timeout),
      st.pubs - PublisherStreams(out),
      st.members - Pairs(out),
      st.active - PublisherStreams(out),
      st.players - PlayersIn(out),
      ZsetAfter(st, keys, now, timeout))
  }

  ghost predicate Distinct(keys: seq<string>) {
    forall i, j :: 0 <= i < j < |keys| ==> keys[i] != keys[j]
  }

  lemma ZsetMore(st: Store, keys: seq<string>, k: string, now: int, timeout: int)
    requires k in st.zset && k !in keys
    ensures var z := ZsetAfter(st, keys, now, timeout);
            && k in z
            && ZsetAfter(st, keys + [k], now, timeout)
               == if GetByKey(st, k).Some? && !Expired(st, k, now, timeout)
                  then (z - {k})[k := LastMs(GetByKey(st, k).value)] else z - {k}
  {
  }

  lemma KeysMore(st: Store, keys: seq<string>, k: string, now: int, timeout: int)
    ensures ExpiredKeys(st, keys + [k], now, timeout)
            == ExpiredKeys(st, keys, now, timeout) + if Expired(st, k, now, timeout) then {k} else {}
    ensures ExpiredTasks(st, keys + [k], now, timeout)
            == ExpiredTasks(st, keys, now, timeout) + if Expired(st, k, now, timeout) then [GetByKey(st, k).value] else []
  {
    assert (keys + [k])[..|keys|] == keys;
  }

  lemma ExpiredMore(st: Store, keys: seq<string>, k: string, t: StreamTask, now: int, timeout: int)
    requires NamesMatch(st) && k in st.zset && k !in keys
    requires GetByKey(st, k) == Some(t) && Expired(st, k, now, timeout)
    ensures var st1 := AfterScan(st, keys, now, timeout);
            Drop(st1.(zset := st1.zset - {k}), TargetOf(t)) == AfterScan(st, keys + [k], now, timeout)
  {
    var out := ExpiredTasks(st, keys, now, timeout);
    KeysMore(st, keys, k, now, timeout);
    ZsetMore(st, keys, k, now, timeout);
    PairsMore(out, t);
    assert (out + [t])[..|out|] == out;
    assert TaskKey(t.stream, t.client) == k;
    MinusMore(st.tasks, ExpiredKeys(st, keys, now, timeout), k);
    MinusMore(st.pubs, PublisherStreams(out), t.stream);
  }

  lemma MinusMore<V>(m: map<string, V>, a: set<string>, k: string)
    ensures m - a - {k} == m - (a + {k})
  {
  }

  /** One more key, not scanned before, from the closed form of the keys before it. */
  lemma ScanOneMore(st: Store, keys: seq<string>, k: string, now: int, timeout: int)
    requires NamesMatch(st) && k in st.zset && k !in keys
    ensures ScanOne(AfterScan(st, keys, now, timeout), k, now, timeout)
            == (AfterScan(st, keys + [k], now, timeout),
                if Expired(st, k, now, timeout) then GetByKey(st, k) else None)
  {
    var st1 := AfterScan(st, keys, now, timeout);
    KeysMore(st, keys, k, now, timeout);
    ZsetMore(st, keys, k, now, timeout);
    var claimed := st1.(zset := st1.zset - {k});
    assert GetByKey(claimed, k) == GetByKey(st, k);
    if Expired(st, k, now, timeout) {
      var t := GetByKey(st, k).value;
      assert TaskKey(t.stream, t.client) == k;
      ExpiredMore(st, keys, k, t, now, timeout);
    } else {
      assert ExpiredKeys(st, keys + [k], now, timeout) == ExpiredKeys(st, keys, now, timeout);
    }
  }

  lemma PairsMore(out: seq<StreamTask>, t: StreamTask)
    ensures Pairs(out + [t]) == Pairs(out) + {(t.stream, t.client)}
    ensures PublisherStreams(out + [t]) == PublisherStreams(out) + if t.kind == Publisher then {t.stream} else {}
  {
  }

  /** The scan loop computes the closed form. */
  lemma {:induction false} ScanIs(st: Store, keys: seq<string>, now: int, timeout: int)
    requires NamesMatch(st) && Distinct(keys)
    requires forall i :: 0 <= i < |keys| ==> keys[i] in st.zset
    ensures Scan(st, keys, now, timeout) == (AfterScan(st, keys, now, timeout), ExpiredTasks(st, keys, now, timeout))
  {
    if keys == [] {
      assert AfterScan(st, keys, now, timeout) == st;
    } else {
      var front, k := keys[..|keys| - 1], keys[|keys| - 1];
      assert keys == front + [k];
      ScanIs(st, front, now, timeout);
      ScanOneMore(st, front, k, now, timeout);
    }
  }

  // ----- The scan as its caller sees it -----

  lemma {:induction false} ExpiredTasksAre(st: Store, keys: seq<string>, now: int, timeout: int, t: StreamTask)
    ensures t in ExpiredTasks(st, keys, now, timeout) <==>
            exists k :: k in keys && Expired(st, k, now, timeout) && GetByKey(st, k) == Some(t)
  {
    if keys != [] {
      var front, k := keys[..|keys| - 1], keys[|keys| - 1];
      assert keys == front + [k];
      ExpiredTasksAre(st, front, now, timeout, t);
      assert forall j :: j in keys <==> j in front || j == k;
      if Expired(st, k, now, timeout) && GetByKey(st, k) == Some(t) {
        assert k in keys;
      }
    }
  }

  /** An uninterrupted scan returns exactly the readable tasks that the timestamp set offers and
      whose last activity is at or before the cutoff, removes exactly their hashes, leaves every
      other hash as it was, and leaves no score between 0 and the cutoff. */
  lemma UninterruptedScan(st: Store, keys: seq<string>, now: int, timeout: int)
    requires NamesMatch(st) && IsRange(st.zset, now - timeout, keys)
    ensures var (st', out) := Scan(st, keys, now, timeout);
            && (forall t :: t in out <==>
                  exists k :: k in st.zset && 0 <= st.zset[k] <= now - timeout
                              && GetByKey(st, k) == Some(t) && LastMs(t) <= now - timeout)
            && (forall k :: k in st.tasks && k !in st'.tasks <==> k in keys && Expired(st, k, now, timeout))
            && (forall k :: k in st'.tasks ==> k in st.tasks && st'.tasks[k] == st.tasks[k])
            && (forall k :: k in st'.zset ==> !(0 <= st'.zset[k] <= now - timeout))
            && st' == AfterScan(st, keys, now, timeout)
  {
    ScanIs(st, keys, now, timeout);
    var (st', out) := Scan(st, keys, now, timeout);
    forall t
      ensures t in out <==>
              exists k :: k in st.zset && 0 <= st.zset[k] <= now - timeout
                          && GetByKey(st, k) == Some(t) && LastMs(t) <= now - timeout
    {
      ExpiredTasksAre(st, keys, now, timeout, t);
      if t in out {
        var k :| k in keys && Expired(st, k, now, timeout) && GetByKey(st, k) == Some(t);
        assert k in st.zset && 0 <= st.zset[k] <= now - timeout;
      }
      if k :| k in st.zset && 0 <= st.zset[k] <= now - timeout
              && GetByKey(st, k) == Some(t) && LastMs(t) <= now - timeout {
        assert k in keys && Expired(st, k, now, timeout);
      }
    }
  }

  // ----- The second deregistration -----

  ghost predicate Gone(st: Store, g: Target) {
    && TaskKey(g.stream, g.client) !in st.tasks
    && (g.stream, g.client) !in st.members
    && (g.kind == Publisher ==> g.stream !in st.pubs && g.stream !in st.active)
  }

  lemma ScanOneGone(st: Store, key: string, now: int, timeout: int, g: Target)
    requires NamesMatch(st)
    ensures var (st', t) := ScanOne(st, key, now, timeout);
            && NamesMatch(st')
            && (Gone(st, g) ==> Gone(st', g))
            && (t.Some? ==> Gone(st', TargetOf(t.value)))
  {
  }

  /** After the scan, nothing of any task it returned is left, whatever keys it was given. */
  lemma {:induction false} ScanGone(st: Store, keys: seq<string>, now: int, timeout: int)
    requires NamesMatch(st)
    ensures var (st', out) := Scan(st, keys, now, timeout);
            NamesMatch(st') && forall t :: t in out ==> Gone(st', TargetOf(t))
  {
    if keys != [] {
      var front, k := keys[..|keys| - 1], keys[|keys| - 1];
      ScanGone(st, front, now, timeout);
      var (st1, out) := Scan(st, front, now, timeout);
      forall t | t in out
        ensures Gone(ScanOne(st1, k, now, timeout).0, TargetOf(t))
      {
        ScanOneGone(st1, k, now, timeout, TargetOf(t));
      }
      ScanOneGone(st1, k, now, timeout, Target("", "", Player));
    }
  }

  /** Deregistering such tasks again does one thing: it lowers the player counter once more for
      each player. */
  lemma {:induction false} DropAllGone(st: Store, ts: seq<StreamTask>)
    requires forall t :: t in ts ==> Gone(st, TargetOf(t))
    ensures DropAll(st, Targets(ts)) == st.(players := st.players - PlayersIn(ts))
  {
    if ts != [] {
      var front, t := ts[..|ts| - 1], ts[|ts| - 1];
      assert Targets(ts)[..|ts| - 1] == Targets(front);
      DropAllGone(st, front);
      assert t in ts;
      var st1 := st.(players := st.players - PlayersIn(front));
      assert Gone(st, TargetOf(t));
      assert st1.tasks - {TaskKey(t.stream, t.client)} == st1.tasks;
      assert st1.members - {(t.stream, t.client)} == st1.members;
      assert t.kind == Publisher ==> st1.pubs - {t.stream} == st1.pubs && st1.active - {t.stream} == st1.active;
    }
  }

  /** Between the scan and the stream clearing, the cleanup thread has counted each expired player
      down twice. */
  lemma SecondDeregistration(st: Store, keys: seq<string>, now: int, timeout: int)
    requires NamesMatch(st)
    ensures var (st', out) := Scan(st, keys, now, timeout);
            DropAll(st', Targets(out)) == st'.(players := st'.players - PlayersIn(out))
  {
    ScanGone(st, keys, now, timeout);
    DropAllGone(Scan(st, keys, now, timeout).0, Scan(st, keys, now, timeout).1);
  }
}
