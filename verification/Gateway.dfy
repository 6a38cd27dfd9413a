/** Runs of the gateway: manager calls, registrations that fail at any command, TTL expiries, cleanup
    passes cut at every Redis command of their scan and at every call after it, and end-of-publish
    callbacks cut between their check and their clearing, with anything in between. */
module Gateway {
  import opened Text
  import opened StreamTasks
  import opened TaskCodec
  import opened Registry
  import opened ScanEffect
  import opened Agreement
  import opened Rollback
  import opened PlayerCount

  /** Where a cleanup pass is: in its scan, with the tasks reported so far in `out`; about to deregister
      them again; or about to clear the streams in `died`. */
  datatype Pass =
    | Scanning(now: int, timeout: int, rest: seq<string>, out: seq<Target>)
    | Claimed(now: int, timeout: int, rest: seq<string>, out: seq<Target>, key: string)
    | PutBack(now: int, timeout: int, rest: seq<string>, out: seq<Target>, key: string, score: int)
    | Doomed(now: int, timeout: int, rest: seq<string>, out: seq<Target>, task: StreamTask)
    | Batching(out: seq<Target>, died: seq<string>)
    | Clearing(died: seq<string>)

  /** `callbacks` holds the streams whose end-of-publish callback has passed its check. */
  datatype System = System(st: Store, passes: map<nat, Pass>, callbacks: map<nat, string>)

  datatype Step =
    | Call(op: Op)
    | Failing(task: StreamTask, now: int, faults: Faults)
    | BeginPass(p: nat, now: int, timeout: int, keys: seq<string>)
    | EndScan(p: nat, died: seq<string>)
    | Advance(p: nat)
    | CheckDone(q: nat, stream: string, client: string)
    | ClearDone(q: nat)

  predicate DiedIn(gs: seq<Target>, stream: string) {
    exists i :: 0 <= i < |gs| && gs[i].kind == Publisher && gs[i].stream == stream
  }

  ghost predicate Enabled(x: System, s: Step) {
    match s
    case Call(_) => true
    case Failing(_, _, _) => true
    case BeginPass(p, now, timeout, keys) => p !in x.passes && IsRange(x.st.zset, now - timeout, keys)
    case EndScan(p, died) =>
      && p in x.passes && x.passes[p].Scanning? && x.passes[p].rest == []
      && forall stream :: stream in died <==> DiedIn(x.passes[p].out, stream)
    case Advance(p) => p in x.passes && (x.passes[p].Scanning? ==> x.passes[p].rest != [])
    case CheckDone(q, _, _) => q !in x.callbacks
    case ClearDone(q) => q in x.callbacks
  }

  /** The next access of a pass to the store: what it leaves there. */
  function StoreAfter(st: Store, c: Pass): Store
    requires c.Scanning? ==> c.rest != []
  {
    match c
    case Scanning(_, _, rest, _) => st.(zset := st.zset - {rest[0]})
    case Claimed(_, _, _, _, _) => st
    case PutBack(_, _, _, _, key, score) => st.(zset := st.zset[key := score])
    case Doomed(_, _, _, _, t) => Deregister(st, t.stream, t.client)
    case Batching(out, _) => DropAll(st, out)
    case Clearing(died) => if died == [] then st else ClearStream(st, died[0])
  }

  /** And where the pass is then. */
  function PassAfter(st: Store, c: Pass): Pass
    requires c.Scanning? ==> c.rest != []
  {
    match c
    case Scanning(now, timeout, rest, out) =>
      if rest[0] in st.zset then Claimed(now, timeout, rest[1..], out, rest[0])
      else Scanning(now, timeout, rest[1..], out)
    case Claimed(now, timeout, rest, out, key) =>
      (match GetByKey(st, key)
       case None => Scanning(now, timeout, rest, out)
       case Some(t) =>
         if StillFresh(t, now, timeout) then PutBack(now, timeout, rest, out, key, LastMs(t))
         else Doomed(now, timeout, rest, out, t))
    case PutBack(now, timeout, rest, out, _, _) => Scanning(now, timeout, rest, out)
    case Doomed(now, timeout, rest, out, t) => Scanning(now, timeout, rest, out + [TargetOf(t)])
    case Batching(_, died) => Clearing(died)
    case Clearing(died) => Clearing(if died == [] then [] else died[1..])
  }

  function Next(x: System, s: Step): System
    requires Enabled(x, s)
  {
    match s
    case Call(op) => x.(st := Apply(x.st, op))
    case Failing(t, now, f) => x.(st := FaultyRegister(x.st, t, now, f).0)
    case BeginPass(p, now, timeout, keys) => x.(passes := x.passes[p := Scanning(now, timeout, keys, [])])
    case EndScan(p, died) => x.(passes := x.passes[p := Batching(x.passes[p].out, died)])
    case Advance(p) =>
      var c := x.passes[p];
      if c == Clearing([]) then x.(passes := x.passes - {p})
      else x.(st := StoreAfter(x.st, c), passes := x.passes[p := PassAfter(x.st, c)])
    case CheckDone(q, stream, client) =>
      var t := GetTask(x.st, stream, client);
      if t.Some? && t.value.kind == Publisher then x.(callbacks := x.callbacks[q := stream]) else x
    case ClearDone(q) => x.(st := ClearStream(x.st, x.callbacks[q]), callbacks := x.callbacks - {q})
  }

  const START := System(EMPTY, map[], map[])

  ghost predicate CanRun(x: System, steps: seq<Step>)
    decreases |steps|
  {
    steps == [] || (Enabled(x, steps[0]) && CanRun(Next(x, steps[0]), steps[1..]))
  }

  ghost function Run(x: System, steps: seq<Step>): System
    requires CanRun(x, steps)
    decreases |steps|
  {
    if steps == [] then x else Run(Next(x, steps[0]), steps[1..])
  }

  // ----- What a step can write -----

  /** Every whole hash was there before with the same names and kind, or is `t`; every lock was there
      before, or is `t`'s; every member was there before, or is `t`'s client. */
  ghost predicate Inherits(st: Store, st': Store, t: Option<StreamTask>) {
    && (forall k :: k in st'.tasks && st'.tasks[k].Stored? && Some(st'.tasks[k].task) != t ==>
          k in st.tasks && st.tasks[k].Stored? && TargetOf(st'.tasks[k].task) == TargetOf(st.tasks[k].task))
    && (forall k :: k in st'.tasks && st'.tasks[k].Stored? && Some(st'.tasks[k].task) == t ==>
          (k in st.tasks && st.tasks[k].Stored? && TargetOf(st'.tasks[k].task) == TargetOf(st.tasks[k].task))
          || k == TaskKey(t.value.stream, t.value.client))
    && (forall s :: s in st'.pubs ==>
          (s in st.pubs && st'.pubs[s] == st.pubs[s]) || (t.Some? && s == t.value.stream && st'.pubs[s] == t.value))
    && (forall m :: m in st'.members ==> m in st.members || (t.Some? && m == (t.value.stream, t.value.client)))
  }

  /** The task a step registers, if it is one that registers. */
  function Registered(s: Step): Option<StreamTask> {
    match s
    case Call(RegisterOp(t, _)) => Some(t)
    case Failing(t, _, _) => Some(t)
    case _ => None
  }

  lemma FaultyIndicesInherit(st: Store, t: StreamTask, f: Faults)
    ensures Inherits(st, FaultyIndices(WriteTask(st, t), t, f).0, Some(t))
  {
  }

  lemma ThenShrinks(st: Store, st1: Store, st2: Store, t: Option<StreamTask>)
    requires Inherits(st, st1, t) && Shrinks(st1, st2)
    ensures Inherits(st, st2, t)
  {
  }

  lemma ShrinksThen(st: Store, st1: Store, st2: Store, t: Option<StreamTask>)
    requires Shrinks(st, st1) && Inherits(st1, st2, t)
    ensures Inherits(st, st2, t)
  {
  }

  lemma FaultyEnrolInherits(st: Store, t: StreamTask, now: int, f: Faults)
    ensures Inherits(st, FaultyEnrol(st, t, now, f).0, Some(t))
  {
    var st' := FaultyEnrol(st, t, now, f).0;
    if !f.hashSet || !f.expire {
      assert Shrinks(st, st');
    } else {
      var st2 := FaultyIndices(WriteTask(st, t), t, f).0;
      FaultyIndicesInherit(st, t, f);
      DeregisterShrinks(st2, t.stream, t.client);
      assert st' == Deregister(st2, t.stream, t.client)
             || (st'.tasks == st2.tasks && st'.pubs == st2.pubs && st'.members == st2.members);
      ThenShrinks(st, st2, st', Some(t));
    }
  }

  lemma DeregisterShrinks(st: Store, stream: string, client: string)
    ensures Shrinks(st, Deregister(st, stream, client))
  {
  }

  lemma FaultyInherits(st: Store, t: StreamTask, now: int, f: Faults)
    ensures Inherits(st, FaultyRegister(st, t, now, f).0, Some(t))
  {
    if t.kind == Player || !Conflict(st, t) {
      var st0 := Precleaned(st, t);
      FaultyEnrolInherits(st0, t, now, f);
      ShrinksThen(st, st0, FaultyEnrol(st0, t, now, f).0, Some(t));
    }
  }

  lemma CallInherits(st: Store, op: Op)
    ensures Inherits(st, Apply(st, op), Registered(Call(op)))
  {
    match op
    case RegisterOp(t, now) =>
      WithoutFaults(st, t, now);
      FaultyInherits(st, t, now, NO_FAULTS);
    case TouchOp(_, _, _) =>
    case _ => OthersShrink(st, op);
  }

  lemma PassShrinks(st: Store, c: Pass)
    requires c.Scanning? ==> c.rest != []
    ensures Shrinks(st, StoreAfter(st, c))
  {
    if c.Batching? {
      DropAllShrinks(st, c.out);
    }
  }

  lemma NextInherits(x: System, s: Step)
    requires Enabled(x, s)
    ensures Inherits(x.st, Next(x, s).st, Registered(s))
  {
    match s
    case Call(op) => CallInherits(x.st, op);
    case Failing(t, now, f) => FaultyInherits(x.st, t, now, f);
    case Advance(p) => PassShrinks(x.st, x.passes[p]);
    case _ =>
  }

  // ----- Names, in every run -----

  /** Times in range, and only names of `S` and `C`. The clock of a failing registration is free. */
  ghost predicate Ordinary(s: Step, S: iset<string>, C: iset<string>) {
    match s
    case Call(op) => Timely(op) && Over(op, S, C)
    case Failing(t, _, _) => InRange(t) && t.stream in S && t.client in C
    case _ => true
  }

  ghost predicate OrdinaryRun(x: System, steps: seq<Step>, S: iset<string>, C: iset<string>)
    decreases |steps|
  {
    steps == [] || (
      && Enabled(x, steps[0]) && Ordinary(steps[0], S, C)
      && OrdinaryRun(Next(x, steps[0]), steps[1..], S, C))
  }

  /** Whole hashes lie under their own keys, everything is named over `S` and `C`, and every lock can be
      read. */
  ghost predicate Named(st: Store, S: iset<string>, C: iset<string>) {
    && (forall k :: k in st.tasks && st.tasks[k].Stored? ==> NamedHash(k, st.tasks[k].task, S, C))
    && MembersOk(st, S, C)
    && (forall s :: s in st.pubs ==> st.pubs[s].stream == s && InRange(st.pubs[s]))
  }

  ghost predicate NamedHash(k: string, t: StreamTask, S: iset<string>, C: iset<string>) {
    k == TaskKey(t.stream, t.client) && t.stream in S && t.client in C
  }

  /** What a pass has reported, or is about to, and has still to deregister again. */
  function Owing(c: Pass): seq<Target> {
    match c
    case Clearing(_) => []
    case Doomed(_, _, _, out, t) => out + [TargetOf(t)]
    case _ => c.out
  }

  ghost predicate Due(x: System, g: Target) {
    exists p :: p in x.passes && g in Owing(x.passes[p])
  }

  ghost predicate DueNamed(x: System, S: iset<string>, C: iset<string>) {
    forall g :: Due(x, g) ==> g.stream in S && g.client in C
  }

  lemma InheritsNames(st: Store, st': Store, t: Option<StreamTask>, S: iset<string>, C: iset<string>)
    requires Named(st, S, C) && Inherits(st, st', t)
    requires t.Some? ==> t.value.stream in S && t.value.client in C && InRange(t.value)
    ensures Named(st', S, C)
  {
    forall k | k in st'.tasks && st'.tasks[k].Stored?
      ensures NamedHash(k, st'.tasks[k].task, S, C)
    {
      if k in st.tasks && st.tasks[k].Stored? && TargetOf(st'.tasks[k].task) == TargetOf(st.tasks[k].task) {
        assert NamedHash(k, st.tasks[k].task, S, C);
      }
    }
  }

  /** A target becomes due when its task is read as expired. */
  lemma DueBefore(x: System, s: Step, g: Target)
    requires Enabled(x, s) && Due(Next(x, s), g)
    ensures Due(x, g) || (s.Advance? && x.passes[s.p].Claimed? && GetByKey(x.st, x.passes[s.p].key).Some?
                          && g == TargetOf(GetByKey(x.st, x.passes[s.p].key).value))
  {
    var x' := Next(x, s);
    var p :| p in x'.passes && g in Owing(x'.passes[p]);
    if p in x.passes && g in Owing(x.passes[p]) {
      assert Due(x, g);
    }
  }

  lemma NextNamed(x: System, s: Step, S: iset<string>, C: iset<string>)
    requires Named(x.st, S, C) && DueNamed(x, S, C) && Enabled(x, s) && Ordinary(s, S, C)
    ensures Named(Next(x, s).st, S, C) && DueNamed(Next(x, s), S, C)
  {
    NextInherits(x, s);
    InheritsNames(x.st, Next(x, s).st, Registered(s), S, C);
    forall g | Due(Next(x, s), g)
      ensures g.stream in S && g.client in C
    {
      DueBefore(x, s, g);
      if !Due(x, g) {
        var k := x.passes[s.p].key;
        assert NamedHash(k, x.st.tasks[k].task, S, C);
      }
    }
  }

  // ----- One publisher per stream -----

  predicate IsPublisherOf(h: TaskHash, stream: string) {
    h.Stored? && h.task.kind == Publisher && h.task.stream == stream
  }

  function KeyOf(g: Target): string {
    TaskKey(g.stream, g.client)
  }

  function KeysIn(gs: seq<Target>): set<string> {
    set g | g in gs :: KeyOf(g)
  }

  function StreamsIn(gs: seq<Target>): set<string> {
    set g | g in gs && g.kind == Publisher :: g.stream
  }

  function PairsIn(gs: seq<Target>): set<(string, string)> {
    set g | g in gs :: (g.stream, g.client)
  }

  lemma NamesMore(gs: seq<Target>, g: Target)
    ensures KeysIn(gs + [g]) == KeysIn(gs) + {KeyOf(g)}
    ensures PairsIn(gs + [g]) == PairsIn(gs) + {(g.stream, g.client)}
    ensures StreamsIn(gs + [g]) == StreamsIn(gs) + if g.kind == Publisher then {g.stream} else {}
  {
  }

  ghost predicate Dropped(st: Store, st': Store, keys: set<string>, pairs: set<(string, string)>, streams: set<string>) {
    && st'.tasks == st.tasks - keys
    && st'.members == st.members - pairs
    && st'.pubs == st.pubs - streams
    && st'.active == st.active - streams
  }

  lemma DroppedMore(st: Store, st1: Store, g: Target, keys: set<string>, pairs: set<(string, string)>, streams: set<string>)
    requires Dropped(st, st1, keys, pairs, streams)
    ensures Dropped(st, Drop(st1, g), keys + {KeyOf(g)}, pairs + {(g.stream, g.client)},
                    streams + if g.kind == Publisher then {g.stream} else {})
  {
    MinusMore(st.tasks, keys, KeyOf(g));
    MinusMore(st.pubs, streams, g.stream);
    assert streams + {} == streams;
  }

  /** A batch in closed form, up to the counter. */
  lemma {:induction false} DropAllIs(st: Store, gs: seq<Target>)
    ensures Dropped(st, DropAll(st, gs), KeysIn(gs), PairsIn(gs), StreamsIn(gs))
  {
    if gs != [] {
      var front, g := gs[..|gs| - 1], gs[|gs| - 1];
      assert gs == front + [g];
      DropAllIs(st, front);
      NamesMore(front, g);
      DroppedMore(st, DropAll(st, front), g, KeysIn(front), PairsIn(front), StreamsIn(front));
    }
  }

  /** The batch takes the lock of a stream that has a publisher the batch does not deregister. */
  ghost predicate Strands(st: Store, gs: seq<Target>) {
    exists k, g :: k in st.tasks && g in gs && g.kind == Publisher
                   && IsPublisherOf(st.tasks[k], g.stream) && k !in KeysIn(gs)
  }

  /** Deregistering reported tasks again, whenever it comes, keeps every stream at one publisher with
      its lock if and only if it strands nobody. */
  lemma BatchExact(st: Store, gs: seq<Target>, S: iset<string>, C: iset<string>)
    requires Agree(st, S, C)
    ensures OnePublisher(DropAll(st, gs)) <==> !Strands(st, gs)
    ensures !Strands(st, gs) ==> Agree(DropAll(st, gs), S, C)
  {
    DropAllIs(st, gs);
    var st' := DropAll(st, gs);
    if Strands(st, gs) {
      var k, g :| k in st.tasks && g in gs && g.kind == Publisher
                  && IsPublisherOf(st.tasks[k], g.stream) && k !in KeysIn(gs);
      assert HashOk(st, k, st.tasks[k].task, S, C);
      assert ReadablePublisher(st', k);
      assert g.stream in StreamsIn(gs);
      assert GetPublisher(st', g.stream).None?;
    } else {
      forall k | k in st'.tasks && st'.tasks[k].Stored?
        ensures HashOk(st', k, st'.tasks[k].task, S, C)
      {
        BatchKeepsHash(st, gs, k, S, C);
      }
      AgreeMeansOnePublisher(st', S, C);
    }
  }

  lemma BatchKeepsHash(st: Store, gs: seq<Target>, k: string, S: iset<string>, C: iset<string>)
    requires Agree(st, S, C) && !Strands(st, gs) && k in DropAll(st, gs).tasks && DropAll(st, gs).tasks[k].Stored?
    ensures HashOk(DropAll(st, gs), k, DropAll(st, gs).tasks[k].task, S, C)
  {
    DropAllIs(st, gs);
    var t := st.tasks[k].task;
    assert HashOk(st, k, t, S, C);
    assert (t.stream, t.client) !in PairsIn(gs);
    assert t.kind == Publisher ==> t.stream !in StreamsIn(gs);
  }

  ghost predicate StepStrands(x: System, s: Step) {
    s.Advance? && s.p in x.passes && x.passes[s.p].Batching? && Strands(x.st, x.passes[s.p].out)
  }

  ghost predicate NeverStrands(x: System, steps: seq<Step>)
    requires CanRun(x, steps)
    decreases |steps|
  {
    steps == [] || (!StepStrands(x, steps[0]) && NeverStrands(Next(x, steps[0]), steps[1..]))
  }

  /** Every store of the run has one publisher per stream. */
  ghost predicate AlwaysOne(x: System, steps: seq<Step>)
    requires CanRun(x, steps)
    decreases |steps|
  {
    OnePublisher(x.st) && (steps == [] || AlwaysOne(Next(x, steps[0]), steps[1..]))
  }

  ghost predicate Inv(x: System, S: iset<string>, C: iset<string>) {
    Agree(x.st, S, C) && DueNamed(x, S, C)
  }

  lemma AgreeIsNamed(st: Store, S: iset<string>, C: iset<string>)
    requires Agree(st, S, C)
    ensures Named(st, S, C)
  {
    forall k | k in st.tasks && st.tasks[k].Stored?
      ensures NamedHash(k, st.tasks[k].task, S, C)
    {
      assert HashOk(st, k, st.tasks[k].task, S, C);
    }
  }

  lemma PassAgrees(x: System, p: nat, S: iset<string>, C: iset<string>)
    requires Inv(x, S, C) && Separable(S, C) && Enabled(x, Advance(p)) && !x.passes[p].Batching?
    ensures Agree(StoreAfter(x.st, x.passes[p]), S, C)
  {
    var c := x.passes[p];
    if c.Doomed? {
      assert Owing(c)[|c.out|] == TargetOf(c.task);
      assert Due(x, TargetOf(c.task));
      DeregisterAgrees(x.st, c.task.stream, c.task.client, S, C);
    } else if c.Clearing? {
      if c.died != [] {
        ClearStreamAgrees(x.st, c.died[0], S, C);
      }
    } else {
      TimestampsFree(x.st, StoreAfter(x.st, c), S, C);
    }
  }

  lemma AdvanceStore(x: System, p: nat)
    requires Enabled(x, Advance(p))
    ensures Next(x, Advance(p)).st == StoreAfter(x.st, x.passes[p])
  {
  }

  lemma AdvanceAgrees(x: System, p: nat, S: iset<string>, C: iset<string>)
    requires Inv(x, S, C) && Separable(S, C) && Enabled(x, Advance(p))
    ensures if StepStrands(x, Advance(p)) then !OnePublisher(StoreAfter(x.st, x.passes[p]))
            else Agree(StoreAfter(x.st, x.passes[p]), S, C)
  {
    if x.passes[p].Batching? {
      BatchExact(x.st, x.passes[p].out, S, C);
    } else {
      PassAgrees(x, p, S, C);
    }
  }

  lemma NextAgrees(x: System, s: Step, S: iset<string>, C: iset<string>)
    requires Inv(x, S, C) && Separable(S, C) && Enabled(x, s) && Ordinary(s, S, C)
    ensures if StepStrands(x, s) then !OnePublisher(Next(x, s).st) else Agree(Next(x, s).st, S, C)
  {
    match s
    case Call(op) => ApplyAgrees(x.st, op, S, C);
    case Failing(t, now, f) => FaultyRegisterAgrees(x.st, t, now, f, S, C);
    case Advance(p) =>
      AdvanceStore(x, p);
      AdvanceAgrees(x, p, S, C);
    case ClearDone(q) => ClearStreamAgrees(x.st, x.callbacks[q], S, C);
    case _ =>
  }

  /** For every run with times in range over names whose keys do not collide: all its stores have at
      most one readable publisher per stream, named by its lock, its members and the active list, if and
      only if none of its batches strands anybody. */
  lemma {:induction false} AgreementExact(x: System, steps: seq<Step>, S: iset<string>, C: iset<string>)
    requires Inv(x, S, C) && Separable(S, C) && OrdinaryRun(x, steps, S, C)
    ensures CanRun(x, steps) && (AlwaysOne(x, steps) <==> NeverStrands(x, steps))
    ensures NeverStrands(x, steps) ==> Inv(Run(x, steps), S, C)
    decreases |steps|
  {
    AgreeMeansOnePublisher(x.st, S, C);
    if steps != [] {
      var x' := Next(x, steps[0]);
      NextAgrees(x, steps[0], S, C);
      AgreeIsNamed(x.st, S, C);
      NextNamed(x, steps[0], S, C);
      OrdinaryRunsRun(x', steps[1..], S, C);
      if !StepStrands(x, steps[0]) {
        AgreementExact(x', steps[1..], S, C);
      }
    }
  }

  lemma {:induction false} OrdinaryRunsRun(x: System, steps: seq<Step>, S: iset<string>, C: iset<string>)
    requires OrdinaryRun(x, steps, S, C)
    ensures CanRun(x, steps)
    decreases |steps|
  {
    if steps != [] {
      OrdinaryRunsRun(Next(x, steps[0]), steps[1..], S, C);
    }
  }

  lemma RunCons(x: System, s: Step, rest: seq<Step>)
    requires Enabled(x, s)
    ensures CanRun(x, [s] + rest) == CanRun(Next(x, s), rest)
    ensures CanRun(x, [s] + rest) ==> Run(x, [s] + rest) == Run(Next(x, s), rest)
    ensures forall S, C :: OrdinaryRun(x, [s] + rest, S, C) <==>
              Ordinary(s, S, C) && OrdinaryRun(Next(x, s), rest, S, C)
  {
    assert ([s] + rest)[1..] == rest;
  }

  lemma {:induction false} AlwaysOneEnds(x: System, steps: seq<Step>)
    requires CanRun(x, steps) && AlwaysOne(x, steps)
    ensures OnePublisher(Run(x, steps).st)
    decreases |steps|
  {
    if steps != [] {
      AlwaysOneEnds(Next(x, steps[0]), steps[1..]);
    }
  }

  lemma {:induction false} CallsNeverStrand(x: System, steps: seq<Step>)
    requires CanRun(x, steps) && forall i :: 0 <= i < |steps| ==> steps[i].Call?
    ensures NeverStrands(x, steps)
    decreases |steps|
  {
    if steps != [] {
      CallsNeverStrand(Next(x, steps[0]), steps[1..]);
    }
  }

  /** The colliding run, as steps. */
  lemma CollisionRuns(s: string, c: string, s': string, c': string, S: iset<string>, C: iset<string>) returns (steps: seq<Step>)
    requires s in S && c in C && s' in S && c' in C
    ensures OrdinaryRun(START, steps, S, C) && CanRun(START, steps) && forall i :: 0 <= i < |steps| ==> steps[i].Call?
    ensures var ops := CollidingRun(s, c, s', c');
            Run(START, steps).st == Apply(Apply(Apply(EMPTY, ops[0]), ops[1]), ops[2])
  {
    var ops := CollidingRun(s, c, s', c');
    var a, b, d := Call(ops[0]), Call(ops[1]), Call(ops[2]);
    var x1 := Next(START, a);
    var x2 := Next(x1, b);
    MsRoundTrip(MIN_REASONABLE_MS);
    RunCons(x2, d, []);
    RunCons(x1, b, [d]);
    RunCons(START, a, [b, d]);
    assert [d] + [] == [d] && [b] + [d] == [b, d] && [a] + [b, d] == [a, b, d];
    steps := [a, b, d];
  }

  /** That a run keeps one publisher per stream exactly when none of its batches strands anybody holds of
      all runs over these names, if and only if no two (stream, client) pairs share a task key. */
  lemma PublisherAgreement(S: iset<string>, C: iset<string>)
    ensures (forall steps :: OrdinaryRun(START, steps, S, C) ==>
               CanRun(START, steps) && (AlwaysOne(START, steps) <==> NeverStrands(START, steps)))
            <==> Separable(S, C)
  {
    if Separable(S, C) {
      forall steps | OrdinaryRun(START, steps, S, C)
        ensures CanRun(START, steps) && (AlwaysOne(START, steps) <==> NeverStrands(START, steps))
      {
        AgreementExact(START, steps, S, C);
      }
    } else {
      var s, c, s', c' :| s in S && c in C && s' in S && c' in C
                          && TaskKey(s, c) == TaskKey(s', c') && !(s == s' && c == c');
      CollisionMisleads(s, c, s', c', S, C);
    }
  }

  lemma CollisionMisleads(s: string, c: string, s': string, c': string, S: iset<string>, C: iset<string>)
    requires s in S && c in C && s' in S && c' in C && TaskKey(s, c) == TaskKey(s', c') && !(s == s' && c == c')
    ensures exists steps :: OrdinaryRun(START, steps, S, C) && CanRun(START, steps)
                            && NeverStrands(START, steps) && !AlwaysOne(START, steps)
  {
    var steps := CollisionRuns(s, c, s', c', S, C);
    CollisionBreaks(s, c, s', c');
    CallsNeverStrand(START, steps);
    if AlwaysOne(START, steps) {
      AlwaysOneEnds(START, steps);
    }
  }

  // ----- A rule that clients can keep -----

  /** A client publishes a stream while a pass owes another client's deregistration as its publisher. */
  ghost predicate Intrudes(x: System, t: StreamTask) {
    t.kind == Publisher
    && exists g :: Due(x, g) && g.kind == Publisher && g.stream == t.stream && g.client != t.client
  }

  ghost predicate NoIntruder(x: System, steps: seq<Step>)
    requires CanRun(x, steps)
    decreases |steps|
  {
    steps == [] || (
      && (Registered(steps[0]).Some? ==> !Intrudes(x, Registered(steps[0]).value))
      && NoIntruder(Next(x, steps[0]), steps[1..]))
  }

  /** No other client has a publisher task of the target's stream. */
  ghost predicate NoRival(st: Store, g: Target) {
    forall k :: k in st.tasks && IsPublisherOf(st.tasks[k], g.stream) ==> st.tasks[k].task.client == g.client
  }

  ghost predicate NoRivals(x: System) {
    forall g :: Due(x, g) && g.kind == Publisher ==> NoRival(x.st, g)
  }

  lemma NoRivalStays(st: Store, st': Store, t: Option<StreamTask>, g: Target)
    requires NoRival(st, g) && Inherits(st, st', t)
    requires t.Some? && t.value.kind == Publisher && t.value.stream == g.stream ==> t.value.client == g.client
    ensures NoRival(st', g)
  {
  }

  lemma NextNoRivals(x: System, s: Step, S: iset<string>, C: iset<string>)
    requires Agree(x.st, S, C) && NoRivals(x) && Enabled(x, s)
    requires Registered(s).Some? ==> !Intrudes(x, Registered(s).value)
    ensures NoRivals(Next(x, s))
  {
    NextInherits(x, s);
    forall g | Due(Next(x, s), g) && g.kind == Publisher
      ensures NoRival(Next(x, s).st, g)
    {
      DueBefore(x, s, g);
      if !Due(x, g) {
        OnlyRival(x.st, x.passes[s.p].key, g, S, C);
      }
      NoRivalStays(x.st, Next(x, s).st, if Due(x, g) then Registered(s) else None, g);
    }
  }

  /** Whoever is read as publisher is the only one. */
  lemma OnlyRival(st: Store, key: string, g: Target, S: iset<string>, C: iset<string>)
    requires Agree(st, S, C) && GetByKey(st, key).Some? && g == TargetOf(GetByKey(st, key).value)
    ensures g.kind == Publisher ==> NoRival(st, g)
  {
    assert HashOk(st, key, st.tasks[key].task, S, C);
    forall k | k in st.tasks && IsPublisherOf(st.tasks[k], g.stream)
      ensures g.kind == Publisher ==> st.tasks[k].task.client == g.client
    {
      assert HashOk(st, k, st.tasks[k].task, S, C);
    }
  }

  lemma RivallessKey(st: Store, k: string, g: Target, gs: seq<Target>, S: iset<string>, C: iset<string>)
    requires Agree(st, S, C) && NoRival(st, g) && g in gs && k in st.tasks && IsPublisherOf(st.tasks[k], g.stream)
    ensures k in KeysIn(gs)
  {
    assert HashOk(st, k, st.tasks[k].task, S, C);
    assert KeyOf(g) in KeysIn(gs);
  }

  lemma NoRivalsNoStrand(x: System, s: Step, S: iset<string>, C: iset<string>)
    requires Agree(x.st, S, C) && NoRivals(x)
    ensures !StepStrands(x, s)
  {
    if s.Advance? && s.p in x.passes && x.passes[s.p].Batching? {
      var gs := x.passes[s.p].out;
      forall k, g | k in x.st.tasks && g in gs && g.kind == Publisher && IsPublisherOf(x.st.tasks[k], g.stream)
        ensures k in KeysIn(gs)
      {
        assert Due(x, g);
        RivallessKey(x.st, k, g, gs, S, C);
      }
    }
  }

  /** If nobody publishes a stream while a pass owes another client's deregistration as its publisher,
      no batch strands anybody. */
  lemma {:induction false} NoIntruderNoStrand(x: System, steps: seq<Step>, S: iset<string>, C: iset<string>)
    requires Inv(x, S, C) && NoRivals(x) && Separable(S, C) && OrdinaryRun(x, steps, S, C)
    requires CanRun(x, steps) && NoIntruder(x, steps)
    ensures NeverStrands(x, steps)
    decreases |steps|
  {
    if steps != [] {
      NoRivalsNoStrand(x, steps[0], S, C);
      NextNoRivals(x, steps[0], S, C);
      NextAgrees(x, steps[0], S, C);
      AgreeIsNamed(x.st, S, C);
      NextNamed(x, steps[0], S, C);
      NoIntruderNoStrand(Next(x, steps[0]), steps[1..], S, C);
    }
  }

  // ----- An intruder -----

  lemma RunUncons(x: System, a: seq<Step>)
    requires a != [] && CanRun(x, a)
    ensures Enabled(x, a[0]) && CanRun(Next(x, a[0]), a[1..]) && Run(x, a) == Run(Next(x, a[0]), a[1..])
  {
  }

  lemma AppendStep(x: System, x1: System, s: Step, rest: seq<Step>, b: seq<Step>)
    requires Enabled(x, s) && x1 == Next(x, s) && CanRun(x1, rest + b)
    ensures CanRun(x, [s] + rest + b) && Run(x, [s] + rest + b) == Run(x1, rest + b)
  {
    RunCons(x, s, rest + b);
    assert [s] + rest + b == [s] + (rest + b);
  }

  lemma {:induction false} RunAppend(x: System, a: seq<Step>, b: seq<Step>)
    requires CanRun(x, a) && CanRun(Run(x, a), b)
    ensures CanRun(x, a + b) && Run(x, a + b) == Run(Run(x, a), b)
    decreases |a|
  {
    if a == [] {
      assert a + b == b;
    } else {
      RunUncons(x, a);
      var x1, s, rest := Next(x, a[0]), a[0], a[1..];
      RunAppend(x1, rest, b);
      AppendStep(x, x1, s, rest, b);
      assert a == [s] + rest;
    }
  }

  lemma Then(x: System, a: seq<Step>, s: Step) returns (b: seq<Step>)
    requires CanRun(x, a) && Enabled(Run(x, a), s)
    ensures b == a + [s] && CanRun(x, b) && Run(x, b) == Next(Run(x, a), s)
  {
    b := a + [s];
    assert [s][1..] == [];
    RunAppend(x, a, [s]);
  }

  const LATER: int := MIN_REASONABLE_MS + 60_000

  /** A publisher is registered and a pass begins on its expired task. */
  lemma BeginOnExpired(s: string, c: string) returns (a: seq<Step>)
    ensures CanRun(START, a)
    ensures Run(START, a) == System(Register(EMPTY, PlainTask(s, c), MIN_REASONABLE_MS).0,
                                    map[0 := Scanning(LATER, 60_000, [TaskKey(s, c)], [])], map[])
  {
    FreshPublisher(EMPTY, s, c);
    a := Then(START, [], Call(RegisterOp(PlainTask(s, c), MIN_REASONABLE_MS)));
    assert [TaskKey(s, c)][0] == TaskKey(s, c);
    a := Then(START, a, BeginPass(0, LATER, 60_000, [TaskKey(s, c)]));
  }

  lemma ExpiredAlone(s: string, c: string)
    ensures var st := Register(EMPTY, PlainTask(s, c), MIN_REASONABLE_MS).0;
            var claimed := st.(zset := st.zset - {TaskKey(s, c)});
            var t := Stripped(PlainTask(s, c));
            && TaskKey(s, c) in st.zset
            && GetByKey(claimed, TaskKey(s, c)) == Some(t) && !StillFresh(t, LATER, 60_000)
            && Deregister(claimed, s, c) == EMPTY && TargetOf(t) == Target(s, c, Publisher)
  {
    FreshPublisher(EMPTY, s, c);
    MsRoundTrip(MIN_REASONABLE_MS);
    var st := Register(EMPTY, PlainTask(s, c), MIN_REASONABLE_MS).0;
    var st' := Deregister(st.(zset := st.zset - {TaskKey(s, c)}), s, c);
    assert st'.tasks == map[] && st'.pubs == map[] && st'.zset == map[] && st'.members == {} && st'.active == {};
  }

  lemma ReadExpired(s: string, c: string) returns (a: seq<Step>)
    ensures CanRun(START, a)
    ensures var st := Register(EMPTY, PlainTask(s, c), MIN_REASONABLE_MS).0;
            Run(START, a) == System(st.(zset := st.zset - {TaskKey(s, c)}),
                                    map[0 := Doomed(LATER, 60_000, [], [], Stripped(PlainTask(s, c)))], map[])
  {
    a := BeginOnExpired(s, c);
    ExpiredAlone(s, c);
    assert [TaskKey(s, c)][1..] == [];
    a := Then(START, a, Advance(0));
    a := Then(START, a, Advance(0));
  }

  /** The pass reports the publisher and is about to deregister it again. */
  lemma Reported(s: string, c: string) returns (a: seq<Step>)
    ensures CanRun(START, a)
    ensures Run(START, a) == System(EMPTY, map[0 := Batching([Target(s, c, Publisher)], [s])], map[])
  {
    a := ReadExpired(s, c);
    ExpiredAlone(s, c);
    a := Then(START, a, Advance(0));
    var gs := [Target(s, c, Publisher)];
    assert [] + gs == gs;
    assert Run(START, a).passes == map[0 := Scanning(LATER, 60_000, [], gs)];
    assert gs[0].stream == s;
    a := Then(START, a, EndScan(0, [s]));
  }

  lemma LateDropUnlocks(s: string, c: string, c': string)
    requires c != c'
    ensures !OnePublisher(DropAll(Register(EMPTY, PlainTask(s, c'), MIN_REASONABLE_MS).0, [Target(s, c, Publisher)]))
  {
    FreshPublisher(EMPTY, s, c');
    var st := Register(EMPTY, PlainTask(s, c'), MIN_REASONABLE_MS).0;
    var gs := [Target(s, c, Publisher)];
    assert gs[..|gs| - 1] == [] && DropAll(st, []) == st;
    if TaskKey(s, c) == TaskKey(s, c') {
      KeyCancels(s, c, s, c');
    }
    MsRoundTrip(MIN_REASONABLE_MS);
    var st' := Drop(st, gs[0]);
    assert ReadablePublisher(st', TaskKey(s, c')) && GetPublisher(st', s).None?;
  }

  /** For every stream and any two clients: a run in which the first is reported expired, the second
      publishes, and the pass then takes the second one's lock. */
  lemma IntruderLosesLock(s: string, c: string, c': string) returns (steps: seq<Step>)
    requires c != c'
    ensures CanRun(START, steps) && !OnePublisher(Run(START, steps).st)
    ensures |steps| >= 2 && steps[|steps| - 2..] == [Call(RegisterOp(PlainTask(s, c'), MIN_REASONABLE_MS)), Advance(0)]
  {
    steps := Reported(s, c);
    steps := Then(START, steps, Call(RegisterOp(PlainTask(s, c'), MIN_REASONABLE_MS)));
    LateDropUnlocks(s, c, c');
    steps := Then(START, steps, Advance(0));
  }

  // ----- The player counter -----

  /** Dropping a target moves the counter away from the truth by what the target says against what is
      there now. */
  function DropCharge(st: Store, g: Target): int {
    One(LivePlayer(st, TaskKey(g.stream, g.client))) - One(g.kind == Player)
  }

  function DropCharges(st: Store, gs: seq<Target>): int {
    if gs == [] then 0
    else DropCharges(st, gs[..|gs| - 1]) + DropCharge(DropAll(st, gs[..|gs| - 1]), gs[|gs| - 1])
  }

  /** A failing registration: a live player of the key, if the cleaning left one, is overwritten or
      deleted uncounted, and a player not counted up is counted down or stays uncounted. */
  function FaultCharge(st: Store, t: StreamTask, f: Faults): int {
    var lost := One(LivePlayer(Precleaned(st, t), TaskKey(t.stream, t.client)));
    if (t.kind == Publisher && Conflict(st, t)) || !f.hashSet then 0
    else if !f.expire then lost
    else lost - One(t.kind == Player && !(f.setAdd && f.increment))
  }

  function StepCharge(x: System, s: Step): int {
    match s
    case Call(op) => Charge(x.st, op)
    case Failing(t, _, f) => FaultCharge(x.st, t, f)
    case Advance(p) =>
      if p in x.passes && x.passes[p].Batching? then DropCharges(x.st, x.passes[p].out) else 0
    case _ => 0
  }

  ghost function RunCharges(x: System, steps: seq<Step>): int
    requires CanRun(x, steps)
    decreases |steps|
  {
    if steps == [] then 0 else StepCharge(x, steps[0]) + RunCharges(Next(x, steps[0]), steps[1..])
  }

  ghost predicate InTime(s: Step) {
    (s.Call? ==> Timely(s.op)) && (s.Failing? ==> InRange(s.task))
  }

  lemma DropTargetDrift(st: Store, g: Target)
    requires Sane(st)
    ensures Sane(Drop(st, g)) && Drift(Drop(st, g)) == Drift(st) + DropCharge(st, g)
  {
    PlayersBut(st, Drop(st, g), TaskKey(g.stream, g.client));
  }

  lemma {:induction false} BatchDrift(st: Store, gs: seq<Target>)
    requires Sane(st)
    ensures Sane(DropAll(st, gs)) && Drift(DropAll(st, gs)) == Drift(st) + DropCharges(st, gs)
  {
    if gs != [] {
      BatchDrift(st, gs[..|gs| - 1]);
      DropTargetDrift(DropAll(st, gs[..|gs| - 1]), gs[|gs| - 1]);
    }
  }

  lemma IndicesCount(st: Store, t: StreamTask, f: Faults)
    ensures FaultyIndices(st, t, f).0.players
            == st.players + One(t.kind == Player && f.setAdd && f.increment)
  {
  }

  lemma FaultyEnrolDrift(st: Store, t: StreamTask, now: int, f: Faults)
    requires Sane(st) && InRange(t)
    ensures var st' := FaultyEnrol(st, t, now, f).0;
            var lost := One(LivePlayer(st, TaskKey(t.stream, t.client)));
            && Sane(st')
            && Drift(st') == Drift(st) + (if !f.hashSet then 0 else if !f.expire then lost
                                          else lost - One(t.kind == Player && !(f.setAdd && f.increment)))
  {
    var key, st' := TaskKey(t.stream, t.client), FaultyEnrol(st, t, now, f).0;
    if f.hashSet {
      FaultyIndicesReach(WriteTask(st, t), t, f);
      IndicesCount(WriteTask(st, t), t, f);
      assert st'.tasks - {key} == st.tasks - {key};
      PlayersBut(st, st', key);
    }
  }

  lemma FaultyDrift(st: Store, t: StreamTask, now: int, f: Faults)
    requires Sane(st) && InRange(t)
    ensures var st' := FaultyRegister(st, t, now, f).0;
            Sane(st') && Drift(st') == Drift(st) + FaultCharge(st, t, f)
  {
    if t.kind == Player || !Conflict(st, t) {
      DropDrift(st, t.stream, t.client);
      FaultyEnrolDrift(Precleaned(st, t), t, now, f);
    }
  }

  lemma PassDrift(st: Store, c: Pass)
    requires Sane(st) && (c.Scanning? ==> c.rest != [])
    ensures Sane(StoreAfter(st, c))
    ensures Drift(StoreAfter(st, c)) == Drift(st) + if c.Batching? then DropCharges(st, c.out) else 0
  {
    match c
    case Doomed(_, _, _, _, t) => DropDrift(st, t.stream, t.client);
    case Batching(out, _) => BatchDrift(st, out);
    case Clearing(died) =>
      if died != [] {
        ClearStreamDrift(st, died[0]);
      }
    case _ => assert LivePlayers(StoreAfter(st, c)) == LivePlayers(st);
  }

  lemma StepDrift(x: System, s: Step)
    requires Sane(x.st) && Enabled(x, s) && InTime(s)
    ensures Sane(Next(x, s).st) && Drift(Next(x, s).st) == Drift(x.st) + StepCharge(x, s)
  {
    match s
    case Call(op) => ApplyDrift(x.st, op);
    case Failing(t, now, f) => FaultyDrift(x.st, t, now, f);
    case Advance(p) =>
      AdvanceStore(x, p);
      PassDrift(x.st, x.passes[p]);
    case ClearDone(q) => ClearStreamDrift(x.st, x.callbacks[q]);
    case _ =>
  }

  /** In every run with times in range, over any names and however passes interleave, the counter
      differs from the number of live player tasks by exactly the charges of the run. */
  lemma {:induction false} PlayerAccount(x: System, steps: seq<Step>)
    requires Sane(x.st) && CanRun(x, steps) && forall i :: 0 <= i < |steps| ==> InTime(steps[i])
    ensures Sane(Run(x, steps).st)
    ensures Drift(Run(x, steps).st) == Drift(x.st) + RunCharges(x, steps)
    decreases |steps|
  {
    if steps != [] {
      StepDrift(x, steps[0]);
      PlayerAccount(Next(x, steps[0]), steps[1..]);
    }
  }

  lemma PlayerAccountFromStart(steps: seq<Step>)
    requires CanRun(START, steps) && forall i :: 0 <= i < |steps| ==> InTime(steps[i])
    ensures var st := Run(START, steps).st;
            st.players == |LivePlayers(st)| + RunCharges(START, steps)
  {
    assert LivePlayers(EMPTY) == {};
    PlayerAccount(START, steps);
  }
}
