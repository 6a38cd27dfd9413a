/** The cut cleanup pass against the round in one piece: what it comes to when nobody else moves, and that
    it clears every stream it owes a clearing before it is over, whoever moves. */
module PassRuns {
  import opened Text
  import opened StreamTasks
  import opened TaskCodec
  import opened Registry
  import opened ScanEffect
  import opened Agreement
  import ScanRefinement
  import opened Gateway

  // ----- Nobody else moves -----

  function Reported(t: Option<StreamTask>): seq<Target> {
    if t.Some? then [TargetOf(t.value)] else []
  }

  function With(x: System, p: nat, st: Store, c: Pass): System {
    x.(st := st, passes := x.passes[p := c])
  }

  lemma AdvanceIs(x: System, p: nat)
    requires Enabled(x, Advance(p)) && x.passes[p] != Clearing([])
    ensures Next(x, Advance(p)) == With(x, p, StoreAfter(x.st, x.passes[p]), PassAfter(x.st, x.passes[p]))
  {
  }

  /** One more access of the pass. */
  lemma Step(x: System, a: seq<Gateway.Step>, p: nat, st: Store, c: Pass) returns (b: seq<Gateway.Step>)
    requires CanRun(x, a) && Run(x, a) == With(x, p, st, c) && c != Clearing([]) && (c.Scanning? ==> c.rest != [])
    ensures CanRun(x, b) && Run(x, b) == With(x, p, StoreAfter(st, c), PassAfter(st, c))
  {
    AdvanceIs(Run(x, a), p);
    b := Then(x, a, Advance(p));
    assert Run(x, b).passes == x.passes[p := PassAfter(st, c)];
  }

  /** The read of a claimed key and what follows from it. */
  lemma DecideAlone(x: System, a: seq<Gateway.Step>, p: nat, st: Store, c: Pass) returns (b: seq<Gateway.Step>)
    requires CanRun(x, a) && c.Claimed? && c.key !in st.zset && Run(x, a) == With(x, p, st, c)
    ensures CanRun(x, b)
    ensures var t := GetByKey(st, c.key);
            var keep := t.Some? && StillFresh(t.value, c.now, c.timeout);
            Run(x, b) == With(x, p,
              if t.None? then st
              else if keep then st.(zset := st.zset[c.key := LastMs(t.value)])
              else Deregister(st, t.value.stream, t.value.client),
              Scanning(c.now, c.timeout, c.rest, c.out + Reported(if keep then None else t)))
  {
    b := Step(x, a, p, st, c);
    var c' := PassAfter(st, c);
    assert c.out + [] == c.out;
    if !c'.Scanning? {
      b := Step(x, b, p, st, c');
    }
  }

  /** One key of the scan. */
  lemma KeyAlone(x: System, a: seq<Gateway.Step>, p: nat, st: Store, c: Pass) returns (b: seq<Gateway.Step>)
    requires CanRun(x, a) && c.Scanning? && c.rest != [] && Run(x, a) == With(x, p, st, c)
    ensures CanRun(x, b)
    ensures var (st', t) := ScanOne(st, c.rest[0], c.now, c.timeout);
            Run(x, b) == With(x, p, st', Scanning(c.now, c.timeout, c.rest[1..], c.out + Reported(t)))
  {
    b := Step(x, a, p, st, c);
    if c.rest[0] in st.zset {
      b := DecideAlone(x, b, p, StoreAfter(st, c), PassAfter(st, c));
    } else {
      assert st.zset - {c.rest[0]} == st.zset;
      assert c.out + [] == c.out;
    }
  }

  lemma TargetsMore(ts: seq<StreamTask>, t: Option<StreamTask>)
    ensures Targets(ts + (if t.Some? then [t.value] else [])) == Targets(ts) + Reported(t)
  {
  }

  /** The first `n` keys of the scan. */
  lemma {:induction false} KeysAlone(x: System, a: seq<Gateway.Step>, p: nat, st: Store, c: Pass, n: nat) returns (b: seq<Gateway.Step>)
    requires CanRun(x, a) && c.Scanning? && c.out == [] && n <= |c.rest| && Run(x, a) == With(x, p, st, c)
    ensures CanRun(x, b)
    ensures var (st', out) := Scan(st, c.rest[..n], c.now, c.timeout);
            Run(x, b) == With(x, p, st', Scanning(c.now, c.timeout, c.rest[n..], Targets(out)))
  {
    if n == 0 {
      b := a;
      assert c.rest[0..] == c.rest && c.rest[..0] == [];
    } else {
      b := KeysAlone(x, a, p, st, c, n - 1);
      var (st1, out) := Scan(st, c.rest[..n - 1], c.now, c.timeout);
      var (st2, t) := ScanOne(st1, c.rest[n - 1], c.now, c.timeout);
      assert c.rest[n - 1..][0] == c.rest[n - 1] && c.rest[n - 1..][1..] == c.rest[n..];
      b := KeyAlone(x, b, p, st1, Scanning(c.now, c.timeout, c.rest[n - 1..], Targets(out)));
      ScanRefinement.ScanMore(st, c.rest, n - 1, c.now, c.timeout, st2, t);
      TargetsMore(out, t);
    }
  }

  /** The first `n` clearings. */
  lemma {:induction false} ClearsAlone(x: System, a: seq<Gateway.Step>, p: nat, st: Store, died: seq<string>, n: nat) returns (b: seq<Gateway.Step>)
    requires CanRun(x, a) && n <= |died| && Run(x, a) == With(x, p, st, Clearing(died))
    ensures CanRun(x, b) && Run(x, b) == With(x, p, ClearStreams(st, died[..n]), Clearing(died[n..]))
  {
    if n == 0 {
      b := a;
      assert died[0..] == died && died[..0] == [];
    } else {
      b := ClearsAlone(x, a, p, st, died, n - 1);
      assert died[n - 1..] != [] && died[n - 1..][0] == died[n - 1] && died[n - 1..][1..] == died[n..];
      b := Step(x, b, p, ClearStreams(st, died[..n - 1]), Clearing(died[n - 1..]));
      assert died[..n][..n - 1] == died[..n - 1];
    }
  }

  lemma DiedIs(out: seq<StreamTask>, s: string)
    ensures DiedIn(Targets(out), s) <==> s in PublisherStreams(out)
  {
    if s in PublisherStreams(out) {
      var t :| t in out && t.kind == Publisher && t.stream == s;
      var i :| 0 <= i < |out| && out[i] == t;
      assert Targets(out)[i].stream == s;
    }
  }

  /** The end of the scan and the batch. */
  lemma BatchAlone(x: System, a: seq<Gateway.Step>, p: nat, st: Store, c: Pass, died: seq<string>) returns (b: seq<Gateway.Step>)
    requires CanRun(x, a) && c.Scanning? && c.rest == [] && Run(x, a) == With(x, p, st, c)
    requires forall s :: s in died <==> DiedIn(c.out, s)
    ensures CanRun(x, b) && Run(x, b) == With(x, p, DropAll(st, c.out), Clearing(died))
  {
    b := Then(x, a, EndScan(p, died));
    assert Run(x, b).passes == x.passes[p := Batching(c.out, died)];
    b := Step(x, b, p, st, Batching(c.out, died));
  }

  /** From every state: a pass that nobody disturbs is over, and has done to the store what the round in
      one piece does. */
  lemma PassAlone(x: System, p: nat, now: int, timeout: int, keys: seq<string>, died: seq<string>) returns (steps: seq<Gateway.Step>)
    requires Enabled(x, BeginPass(p, now, timeout, keys))
    requires forall s :: s in died <==> s in PublisherStreams(Scan(x.st, keys, now, timeout).1)
    ensures CanRun(x, steps) && Run(x, steps) == x.(st := CleanupPass(x.st, keys, died, now, timeout))
  {
    var (st, out) := Scan(x.st, keys, now, timeout);
    steps := ScanAlone(x, p, now, timeout, keys);
    forall s
      ensures s in died <==> DiedIn(Targets(out), s)
    {
      DiedIs(out, s);
    }
    steps := BatchAlone(x, steps, p, st, Scanning(now, timeout, [], Targets(out)), died);
    steps := ClearsAlone(x, steps, p, DropAll(st, Targets(out)), died, |died|);
    assert died[..|died|] == died && died[|died|..] == [];
    steps := Then(x, steps, Advance(p));
    assert Run(x, steps).passes == x.passes;
  }

  lemma ScanAlone(x: System, p: nat, now: int, timeout: int, keys: seq<string>) returns (steps: seq<Gateway.Step>)
    requires Enabled(x, BeginPass(p, now, timeout, keys))
    ensures CanRun(x, steps)
    ensures var (st, out) := Scan(x.st, keys, now, timeout);
            Run(x, steps) == With(x, p, st, Scanning(now, timeout, [], Targets(out)))
  {
    steps := Then(x, [], BeginPass(p, now, timeout, keys));
    steps := KeysAlone(x, steps, p, x.st, Scanning(now, timeout, keys, []), |keys|);
    assert keys[..|keys|] == keys && keys[|keys|..] == [];
  }

  // ----- Whoever moves -----

  /** The pass still owes the clearing of `s`. */
  ghost predicate Owes(x: System, p: nat, s: string) {
    p in x.passes && (x.passes[p].Batching? || x.passes[p].Clearing?) && s in x.passes[p].died
  }

  /** The next step of the pass clears `s`. */
  ghost predicate Clears(x: System, p: nat, s: string) {
    p in x.passes && x.passes[p].Clearing? && x.passes[p].died != [] && x.passes[p].died[0] == s
  }

  lemma OwesOn(x: System, st: Gateway.Step, p: nat, s: string)
    requires Enabled(x, st) && Owes(x, p, s) && !(st == Advance(p) && Clears(x, p, s))
    ensures Owes(Next(x, st), p, s)
  {
  }

  /** In every run, with whatever in between: a pass that is over has cleared each stream it owed. */
  lemma {:induction false} PassClears(x: System, steps: seq<Gateway.Step>, p: nat, s: string) returns (i: nat)
    requires CanRun(x, steps) && Owes(x, p, s) && p !in Run(x, steps).passes
    ensures i < |steps| && steps[i] == Advance(p) && CanRun(x, steps[..i])
    ensures Clears(Run(x, steps[..i]), p, s) && Enabled(Run(x, steps[..i]), Advance(p))
    decreases |steps|
  {
    assert steps != [];
    if steps[0] == Advance(p) && Clears(x, p, s) {
      i := 0;
      assert steps[..0] == [];
    } else {
      OwesOn(x, steps[0], p, s);
      var j := PassClears(Next(x, steps[0]), steps[1..], p, s);
      i := j + 1;
      assert steps[..i][1..] == steps[1..][..j];
    }
  }

  /** At the step that does it, the stream loses all its member entries, and nobody who had one has a
      readable task of the stream any more. */
  lemma ClearingClears(x: System, p: nat, s: string)
    requires Clears(x, p, s)
    ensures Enabled(x, Advance(p))
    ensures var st' := Next(x, Advance(p)).st;
            && (forall c :: (s, c) !in st'.members)
            && (forall c :: (s, c) in x.st.members ==> GetTask(st', s, c).None?)
  {
    var st' := Next(x, Advance(p)).st;
    AdvanceStore(x, p);
    forall c | (s, c) in x.st.members
      ensures GetTask(st', s, c).None?
    {
      assert c in Members(x.st, s);
      if GetTask(x.st, s, c).Some? {
        var kind := GetTask(x.st, s, c).value.kind;
        assert c in LiveMembers(x.st, s, kind);
        assert TaskKey(s, c) in KeysOf(s, LiveMembers(x.st, s, kind));
      }
    }
  }
}
