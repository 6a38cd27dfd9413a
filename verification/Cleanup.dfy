/** What a round of the cleanup thread leaves: the expired tasks are gone, and of a stream whose publisher
    expired nothing is left. */
module Cleanup {
  import opened Text
  import opened StreamTasks
  import opened TaskCodec
  import opened Registry
  import opened ScanEffect
  import opened Agreement
  import opened PlayerCount
  import opened Gateway
  import opened Teardown

  /** A whole hash among `keys` with times in range and no activity since the cutoff. */
  predicate TimedOut(st: Store, keys: seq<string>, k: string, cutoff: int) {
    k in keys && k in st.tasks && st.tasks[k].Stored? && InRange(st.tasks[k].task) && LastMs(st.tasks[k].task) <= cutoff
  }

  predicate OfStreams(h: TaskHash, streams: seq<string>) {
    h.Stored? && h.task.stream in streams
  }

  /** The streams in `died` are those of the publishers that timed out. */
  ghost predicate DiedExactly(st: Store, keys: seq<string>, died: seq<string>, cutoff: int) {
    forall s :: s in died <==> exists k :: TimedOut(st, keys, k, cutoff) && IsPublisherOf(st.tasks[k], s)
  }

  // ----- Clearing streams without a publisher -----

  ghost predicate Cleared(st: Store, st': Store, died: seq<string>) {
    && (forall k :: k in st'.tasks <==> k in st.tasks && !OfStreams(st.tasks[k], died))
    && (forall k :: k in st'.tasks ==> st'.tasks[k] == st.tasks[k])
    && (forall m :: m in st'.members <==> m in st.members && m.0 !in died)
    && st'.pubs == st.pubs && st'.active == st.active && st'.zset == st.zset
  }

  lemma ClearedOne(st: Store, s: string, S: iset<string>, C: iset<string>)
    requires Agree(st, S, C) && Separable(S, C) && s in S && s !in st.pubs
    ensures Cleared(st, ClearStream(st, s), [s])
  {
    MembersAreTasks(st, s, Player, S, C);
    MembersAreTasks(st, s, Publisher, S, C);
    forall k | k in st.tasks && OfStream(st.tasks[k], s)
      ensures st.tasks[k].task.kind == Player
    {
      assert HashOk(st, k, st.tasks[k].task, S, C);
    }
    assert KeysOf(s, LiveMembers(st, s, Publisher)) == {};
    KeysCount(s, LiveMembers(st, s, Publisher));
    forall k | k in st.tasks
      ensures OfStreams(st.tasks[k], [s]) == OfStream(st.tasks[k], s)
    {
    }
  }

  lemma ClearedMore(st: Store, st1: Store, st2: Store, died: seq<string>, s: string)
    requires Cleared(st, st1, died) && Cleared(st1, st2, [s])
    ensures Cleared(st, st2, died + [s])
  {
    forall k | k in st.tasks
      ensures OfStreams(st.tasks[k], died + [s]) == (OfStreams(st.tasks[k], died) || OfStreams(st.tasks[k], [s]))
    {
    }
  }

  lemma {:induction false} ClearStreamsIs(st: Store, died: seq<string>, S: iset<string>, C: iset<string>)
    requires Agree(st, S, C) && Separable(S, C)
    requires forall i :: 0 <= i < |died| ==> died[i] in S && died[i] !in st.pubs
    ensures Cleared(st, ClearStreams(st, died), died)
  {
    if died != [] {
      var front, s := died[..|died| - 1], died[|died| - 1];
      ClearStreamsIs(st, front, S, C);
      ClearStreamsAgrees(st, front, S, C);
      ClearedOne(ClearStreams(st, front), s, S, C);
      ClearedMore(st, ClearStreams(st, front), ClearStreams(st, died), front, s);
      assert died == front + [s];
    }
  }

  // ----- The scan before it -----

  lemma TimedOutIs(st: Store, keys: seq<string>, k: string, now: int, timeout: int)
    ensures TimedOut(st, keys, k, now - timeout) <==> k in keys && Expired(st, k, now, timeout)
  {
  }

  /** The scan, said of the hashes: what timed out goes with its member entry, and a publisher with its
      lock and active entry. */
  ghost predicate Scanned(st: Store, st': Store, keys: seq<string>, died: seq<string>, cutoff: int) {
    && (forall k :: k in st'.tasks <==> k in st.tasks && !TimedOut(st, keys, k, cutoff))
    && (forall k :: k in st'.tasks ==> st'.tasks[k] == st.tasks[k])
    && (forall s, c :: (s, c) in st'.members <==>
          (s, c) in st.members && !exists k :: TimedOut(st, keys, k, cutoff) && Owns(st.tasks[k], s, c))
    && (forall s :: s in st'.pubs <==> s in st.pubs && s !in died)
    && (forall s :: s in st'.pubs ==> st'.pubs[s] == st.pubs[s])
    && (forall s :: s in st'.active <==> s in st.active && s !in died)
  }

  predicate Owns(h: TaskHash, s: string, c: string) {
    h.Stored? && h.task.stream == s && h.task.client == c
  }

  lemma ReportedHas(st: Store, keys: seq<string>, now: int, timeout: int, k: string)
    requires TimedOut(st, keys, k, now - timeout)
    ensures GetByKey(st, k).Some? && GetByKey(st, k).value in ExpiredTasks(st, keys, now, timeout)
    ensures TargetOf(GetByKey(st, k).value) == TargetOf(st.tasks[k].task)
  {
    TimedOutIs(st, keys, k, now, timeout);
    ExpiredTasksAre(st, keys, now, timeout, GetByKey(st, k).value);
  }

  lemma ReportedFrom(st: Store, keys: seq<string>, now: int, timeout: int, t: StreamTask) returns (k: string)
    requires t in ExpiredTasks(st, keys, now, timeout)
    ensures TimedOut(st, keys, k, now - timeout) && TargetOf(st.tasks[k].task) == TargetOf(t)
  {
    ExpiredTasksAre(st, keys, now, timeout, t);
    k :| k in keys && Expired(st, k, now, timeout) && GetByKey(st, k) == Some(t);
    TimedOutIs(st, keys, k, now, timeout);
  }

  lemma ReportedStreams(st: Store, keys: seq<string>, now: int, timeout: int, died: seq<string>, s: string)
    requires DiedExactly(st, keys, died, now - timeout)
    ensures s in PublisherStreams(ExpiredTasks(st, keys, now, timeout)) <==> s in died
  {
    var out := ExpiredTasks(st, keys, now, timeout);
    if s in PublisherStreams(out) {
      var t :| t in out && t.kind == Publisher && t.stream == s;
      var k := ReportedFrom(st, keys, now, timeout, t);
      assert IsPublisherOf(st.tasks[k], s);
    }
    if s in died {
      var k :| TimedOut(st, keys, k, now - timeout) && IsPublisherOf(st.tasks[k], s);
      ReportedHas(st, keys, now, timeout, k);
    }
  }

  lemma ReportedPairs(st: Store, keys: seq<string>, now: int, timeout: int, s: string, c: string)
    ensures (s, c) in Pairs(ExpiredTasks(st, keys, now, timeout)) <==>
            exists k :: TimedOut(st, keys, k, now - timeout) && Owns(st.tasks[k], s, c)
  {
    var out := ExpiredTasks(st, keys, now, timeout);
    if (s, c) in Pairs(out) {
      var t :| t in out && (t.stream, t.client) == (s, c);
      var k := ReportedFrom(st, keys, now, timeout, t);
      assert Owns(st.tasks[k], s, c);
    }
    if k :| TimedOut(st, keys, k, now - timeout) && Owns(st.tasks[k], s, c) {
      ReportedHas(st, keys, now, timeout, k);
    }
  }

  lemma ScannedIs(st: Store, keys: seq<string>, now: int, timeout: int, died: seq<string>)
    requires NamesMatch(st) && IsRange(st.zset, now - timeout, keys) && DiedExactly(st, keys, died, now - timeout)
    ensures Scanned(st, Scan(st, keys, now, timeout).0, keys, died, now - timeout)
  {
    ScanIs(st, keys, now, timeout);
    forall s
      ensures s in PublisherStreams(ExpiredTasks(st, keys, now, timeout)) <==> s in died
    {
      ReportedStreams(st, keys, now, timeout, died, s);
    }
    forall s, c
      ensures (s, c) in Pairs(ExpiredTasks(st, keys, now, timeout)) <==>
              exists k :: TimedOut(st, keys, k, now - timeout) && Owns(st.tasks[k], s, c)
    {
      ReportedPairs(st, keys, now, timeout, s, c);
    }
    forall k
      ensures k in ExpiredKeys(st, keys, now, timeout) <==> TimedOut(st, keys, k, now - timeout)
    {
      TimedOutIs(st, keys, k, now, timeout);
    }
  }

  // ----- The round -----

  /** After a round of the cleanup thread on a store whose indices agree: a hash is gone if and only if it
      timed out or belongs to a stream whose publisher did; a member entry, if and only if its task timed
      out or its stream's publisher did; and exactly those streams have lost their lock and active entry.
      Everything else is as it was. */
  lemma CleanupExact(st: Store, keys: seq<string>, died: seq<string>, now: int, timeout: int, S: iset<string>, C: iset<string>)
    requires Agree(st, S, C) && Separable(S, C)
    requires IsRange(st.zset, now - timeout, keys) && DiedExactly(st, keys, died, now - timeout)
    ensures var st' := CleanupPass(st, keys, died, now, timeout);
            && (forall k :: k in st'.tasks <==>
                  k in st.tasks && !TimedOut(st, keys, k, now - timeout) && !OfStreams(st.tasks[k], died))
            && (forall k :: k in st'.tasks ==> st'.tasks[k] == st.tasks[k])
            && (forall s, c :: (s, c) in st'.members <==>
                  (s, c) in st.members && s !in died
                  && !exists k :: TimedOut(st, keys, k, now - timeout) && Owns(st.tasks[k], s, c))
            && (forall s :: s in st'.pubs <==> s in st.pubs && s !in died)
            && (forall s :: s in st'.pubs ==> st'.pubs[s] == st.pubs[s])
            && (forall s :: s in st'.active <==> s in st.active && s !in died)
            && st'.zset == ZsetAfter(st, keys, now, timeout)
  {
    var (st1, out) := Scan(st, keys, now, timeout);
    AgreeNamesMatch(st, S, C);
    ScanIs(st, keys, now, timeout);
    ScannedIs(st, keys, now, timeout, died);
    SecondDeregistration(st, keys, now, timeout);
    ScanAgrees(st, keys, now, timeout, S, C);
    var st2 := DropAll(st1, Targets(out));
    TimestampsFree(st1, st2, S, C);
    DiedInNames(st, keys, died, now - timeout, S, C);
    ClearStreamsIs(st2, died, S, C);
  }

  lemma DiedInNames(st: Store, keys: seq<string>, died: seq<string>, cutoff: int, S: iset<string>, C: iset<string>)
    requires Agree(st, S, C) && DiedExactly(st, keys, died, cutoff)
    ensures forall s :: s in died ==> s in S
  {
    forall s | s in died
      ensures s in S
    {
      var k :| TimedOut(st, keys, k, cutoff) && IsPublisherOf(st.tasks[k], s);
      assert HashOk(st, k, st.tasks[k].task, S, C);
    }
  }
}
