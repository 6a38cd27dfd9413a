/** Aggregation of the per-thread statistics slots while slots are acquired, written, released and
    aggregated concurrently. Reads and updates of one slot are single steps, which is what the
    sequence lock gives; everything else is cut at each access to shared state. A slot has at most
    one thread at work on it, so threads are named by their slot. */
module Aggregate {
  import opened Stats

  const SLOTS: nat := 128
  const WORD: nat := 64

  /** What the thread behind a slot is doing. The bit of a slot is set unless the slot is free. */
  datatype Phase =
    | Free
    | Acquired                             // bit set, slot not yet cleared for reuse
    | Owned
    | Took(t: Triple)                      // release: own counts read
    | Zeroed(t: Triple)                    // release: slot zeroed, counts in flight
    | ReadHistory(t: Triple, h: Triple)    // release: history read
    | Merged                               // release: history written, bit still set

  /** An aggregating thread: the sum so far, the word it is in, and the set bits of that word it has
      still to visit. `born` is the true total when it read the history, and `clean` says that no
      release had counts in flight then and none has zeroed a slot since. */
  datatype Agg = Agg(word: nat, rest: set<nat>, acc: Triple, born: Triple, clean: bool) | Done(acc: Triple, born: Triple, clean: bool)

  /** `truth` is the total ever recorded; `overlapped` says that two releases once merged into the
      history at the same time; `lost` is what merges have overwritten: the history as it was less the
      history they had read. */
  datatype Shared = Shared(phases: seq<Phase>, slots: seq<Triple>, history: Triple,
                           aggs: map<nat, Agg>, truth: Triple, overlapped: bool, lost: Balance)

  datatype Step =
    | Acquire(i: nat)
    | Clear(i: nat)
    | Record(i: nat, v: Triple)
    | ReleaseRead(i: nat)
    | ReleaseZero(i: nat)
    | ReleaseHistory(i: nat)
    | ReleaseMerge(i: nat)
    | ReleaseBit(i: nat)
    | AggStart(a: nat)
    | AggVisit(a: nat, i: nat)
    | AggWord(a: nat)

  ghost predicate WellFormed(x: Shared) {
    |x.phases| == SLOTS && |x.slots| == SLOTS
  }

  ghost predicate Enabled(x: Shared, s: Step)
    requires WellFormed(x)
  {
    match s
    case Acquire(i) => i < SLOTS && x.phases[i].Free?
    case Clear(i) => i < SLOTS && x.phases[i].Acquired?
    case Record(i, v) => i < SLOTS && x.phases[i].Owned? && Below(x.slots[i], v)
    case ReleaseRead(i) => i < SLOTS && x.phases[i].Owned?
    case ReleaseZero(i) => i < SLOTS && x.phases[i].Took?
    case ReleaseHistory(i) => i < SLOTS && x.phases[i].Zeroed?
    case ReleaseMerge(i) => i < SLOTS && x.phases[i].ReadHistory?
    case ReleaseBit(i) => i < SLOTS && x.phases[i].Merged?
    case AggStart(a) => a in x.aggs ==> x.aggs[a].Done?
    case AggVisit(a, i) => a in x.aggs && x.aggs[a].Agg? && i in x.aggs[a].rest && i < SLOTS
                           && forall j :: j in x.aggs[a].rest ==> i <= j
    case AggWord(a) => a in x.aggs && x.aggs[a].Agg? && x.aggs[a].rest == {}
  }

  /** The set bits of word `m`, as slot numbers. */
  function SetBits(x: Shared, m: nat): set<nat>
    requires |x.phases| == SLOTS
  {
    set i | 0 <= i < SLOTS && i / WORD == m && !x.phases[i].Free?
  }

  /** The total after one slot went from `before` to `after`. */
  function Grown(total: Triple, before: Triple, after: Triple): (r: Triple)
    requires Below(before, after)
    ensures forall c :: Get(r, c) == Get(total, c) + Get(after, c) - Get(before, c)
  {
    assert Get(before, Total) <= Get(after, Total) && Get(before, Success) <= Get(after, Success)
           && Get(before, Failed) <= Get(after, Failed);
    Triple(total.total + after.total - before.total,
           total.success + after.success - before.success,
           total.failed + after.failed - before.failed)
  }

  /** No release has counts in flight. */
  predicate Quiet(x: Shared) {
    forall i :: 0 <= i < |x.phases| ==> !x.phases[i].Zeroed? && !x.phases[i].ReadHistory?
  }

  function Soil(aggs: map<nat, Agg>): map<nat, Agg> {
    map a | a in aggs :: aggs[a].(clean := if aggs[a].Agg? then false else aggs[a].clean)
  }

  function Next(x: Shared, s: Step): Shared
    requires WellFormed(x) && Enabled(x, s)
  {
    match s
    case Acquire(i) => x.(phases := x.phases[i := Acquired])
    case Clear(i) => x.(phases := x.phases[i := Owned], slots := x.slots[i := ZERO])
    case Record(i, v) => x.(slots := x.slots[i := v], truth := Grown(x.truth, x.slots[i], v))
    case ReleaseRead(i) => x.(phases := x.phases[i := Took(x.slots[i])])
    case ReleaseZero(i) =>
      x.(phases := x.phases[i := Zeroed(x.phases[i].t)], slots := x.slots[i := ZERO], aggs := Soil(x.aggs))
    case ReleaseHistory(i) =>
      x.(phases := x.phases[i := ReadHistory(x.phases[i].t, x.history)],
         overlapped := x.overlapped || exists j :: 0 <= j < SLOTS && x.phases[j].ReadHistory?)
    case ReleaseMerge(i) =>
      x.(phases := x.phases[i := Merged], history := Add(x.phases[i].h, x.phases[i].t),
         lost := Forgo(x.lost, x.history, x.phases[i].h))
    case ReleaseBit(i) => x.(phases := x.phases[i := Free])
    case AggStart(a) =>
      // The history is read first, then the first word of the mask; the mask is read in its own step.
      x.(aggs := x.aggs[a := Agg(0, {}, x.history, x.truth, Quiet(x))])
    case AggVisit(a, i) =>
      var g := x.aggs[a];
      x.(aggs := x.aggs[a := g.(rest := g.rest - {i}, acc := Add(g.acc, x.slots[i]))])
    case AggWord(a) =>
      var g := x.aggs[a];
      if g.word < 2 then x.(aggs := x.aggs[a := g.(word := g.word + 1, rest := SetBits(x, g.word))])
      else x.(aggs := x.aggs[a := Done(g.acc, g.born, g.clean)])
  }

  ghost predicate CanRun(x: Shared, steps: seq<Step>)
    requires WellFormed(x)
    decreases |steps|
  {
    steps == [] || (Enabled(x, steps[0]) && CanRun(Next(x, steps[0]), steps[1..]))
  }

  ghost function Run(x: Shared, steps: seq<Step>): (x': Shared)
    requires WellFormed(x) && CanRun(x, steps)
    ensures WellFormed(x')
    decreases |steps|
  {
    if steps == [] then x else Run(Next(x, steps[0]), steps[1..])
  }

  const INITIAL := Shared(seq(SLOTS, _ => Free), seq(SLOTS, _ => ZERO), ZERO, map[], ZERO, false, EVEN)

  // ----- Sums -----

  /** The sum of one counter over the first `n` slots that are in `ids`. */
  function Sum(slots: seq<Triple>, ids: set<nat>, n: nat, c: Counter): nat
    requires n <= |slots|
  {
    if n == 0 then 0 else Sum(slots, ids, n - 1, c) + if n - 1 in ids then Get(slots[n - 1], c) else 0
  }

  function InFlight(p: Phase, c: Counter): nat {
    match p
    case Zeroed(t) => Get(t, c)
    case ReadHistory(t, _) => Get(t, c)
    case _ => 0
  }

  function Flying(phases: seq<Phase>, n: nat, c: Counter): nat
    requires n <= |phases|
  {
    if n == 0 then 0 else Flying(phases, n - 1, c) + InFlight(phases[n - 1], c)
  }

  lemma {:induction false} SumSet(slots: seq<Triple>, ids: set<nat>, n: nat, c: Counter, i: nat, v: Triple)
    requires n <= |slots| && i < |slots|
    ensures Sum(slots[i := v], ids, n, c)
            == Sum(slots, ids, n, c) + if i < n && i in ids then Get(v, c) - Get(slots[i], c) else 0
  {
    if n > 0 {
      SumSet(slots, ids, n - 1, c, i, v);
    }
  }

  lemma {:induction false} FlyingSet(phases: seq<Phase>, n: nat, c: Counter, i: nat, p: Phase)
    requires n <= |phases| && i < |phases|
    ensures Flying(phases[i := p], n, c)
            == Flying(phases, n, c) + if i < n then InFlight(p, c) - InFlight(phases[i], c) else 0
  {
    if n > 0 {
      FlyingSet(phases, n - 1, c, i, p);
    }
  }

  lemma {:induction false} SumWithout(slots: seq<Triple>, ids: set<nat>, n: nat, c: Counter, i: nat)
    requires n <= |slots| && i in ids && i < |slots|
    ensures Sum(slots, ids, n, c) == Sum(slots, ids - {i}, n, c) + if i < n then Get(slots[i], c) else 0
  {
    if n > 0 {
      SumWithout(slots, ids, n - 1, c, i);
    }
  }

  /** Ids whose slots are zero do not matter. */
  lemma {:induction false} SumSame(slots: seq<Triple>, ids: set<nat>, ids': set<nat>, n: nat, c: Counter)
    requires n <= |slots|
    requires forall i :: 0 <= i < n && slots[i] != ZERO ==> (i in ids <==> i in ids')
    ensures Sum(slots, ids, n, c) == Sum(slots, ids', n, c)
  {
    if n > 0 {
      SumSame(slots, ids, ids', n - 1, c);
    }
  }

  lemma {:induction false} FlyingQuiet(phases: seq<Phase>, n: nat, c: Counter)
    requires n <= |phases|
    requires forall i :: 0 <= i < n ==> InFlight(phases[i], c) == 0
    ensures Flying(phases, n, c) == 0
  {
    if n > 0 {
      FlyingQuiet(phases, n - 1, c);
    }
  }

  // ----- Invariant, for one counter -----

  predicate IsSlot(i: nat) {
    i < SLOTS
  }

  function All(): set<nat> {
    set i: nat | i < SLOTS && IsSlot(i)
  }

  /** The slots an aggregation may still add. */
  function Unvisited(g: Agg): set<nat>
    requires g.Agg?
  {
    set i | 0 <= i < SLOTS && (i in g.rest || i / WORD >= g.word)
  }

  /** What is in the slots and in flight. */
  function Mass(x: Shared, c: Counter): nat
    requires WellFormed(x)
  {
    Flying(x.phases, SLOTS, c) + Sum(x.slots, All(), SLOTS, c)
  }

  /** A slot holds counts only for its owner or for a release that has just read them. */
  ghost predicate SlotsOk(x: Shared)
    requires WellFormed(x)
  {
    forall i :: 0 <= i < SLOTS ==>
      match x.phases[i]
      case Owned => true
      case Took(t) => x.slots[i] == t
      case _ => x.slots[i] == ZERO
  }

  ghost predicate HistoryOk(x: Shared, c: Counter)
    requires WellFormed(x)
  {
    && Get(x.history, c) + Mass(x, c) <= Get(x.truth, c)
    && (forall i :: 0 <= i < SLOTS && x.phases[i].ReadHistory? ==>
          Get(x.phases[i].h, c) + Mass(x, c) <= Get(x.truth, c))
  }

  ghost predicate ExactOk(x: Shared, c: Counter)
    requires WellFormed(x)
  {
    && Get(x.history, c) + Mass(x, c) + Owed(x.lost, c) == Get(x.truth, c)
    && (!x.overlapped ==>
      && Owed(x.lost, c) == 0
      && (forall i :: 0 <= i < SLOTS && x.phases[i].ReadHistory? ==> x.phases[i].h == x.history)
      && (forall i, j :: 0 <= i < j < SLOTS ==> !(x.phases[i].ReadHistory? && x.phases[j].ReadHistory?)))
  }

  ghost predicate AggOk(x: Shared, g: Agg, c: Counter)
    requires WellFormed(x)
  {
    var reach := Get(g.acc, c) + if g.Agg? then Sum(x.slots, Unvisited(g), SLOTS, c) else 0;
    && reach <= Get(x.truth, c)
    && (!x.overlapped && g.clean ==> Get(g.born, c) <= reach)
    && (g.Agg? ==> g.word <= 2 && forall i :: i in g.rest ==> i < SLOTS && i / WORD < g.word)
  }

  ghost predicate Inv(x: Shared, c: Counter) {
    && WellFormed(x)
    && SlotsOk(x) && HistoryOk(x, c) && ExactOk(x, c)
    && forall a :: a in x.aggs ==> AggOk(x, x.aggs[a], c)
  }

  // ----- Steps -----

  /** A step that moves slot `i` from one phase and content to another, without touching the history
      or the readers, changes the mass and every reader's reach by that slot alone. */
  lemma MassSet(x: Shared, x': Shared, c: Counter, i: nat, p: Phase, v: Triple)
    requires WellFormed(x) && i < SLOTS && x'.phases == x.phases[i := p] && x'.slots == x.slots[i := v]
    ensures Mass(x', c) == Mass(x, c) + InFlight(p, c) - InFlight(x.phases[i], c) + Get(v, c) - Get(x.slots[i], c)
  {
    FlyingSet(x.phases, SLOTS, c, i, p);
    SumSet(x.slots, All(), SLOTS, c, i, v);
  }

  lemma SlotStepKeepsAggs(x: Shared, x': Shared, c: Counter, i: nat, v: Triple)
    requires Inv(x, c) && WellFormed(x') && i < SLOTS && x'.slots == x.slots[i := v]
    requires x'.aggs == x.aggs && x'.overlapped == x.overlapped
    requires Get(x.slots[i], c) <= Get(v, c) && Get(x'.truth, c) == Get(x.truth, c) + Get(v, c) - Get(x.slots[i], c)
    ensures forall a :: a in x'.aggs ==> AggOk(x', x'.aggs[a], c)
  {
    forall a | a in x.aggs
      ensures AggOk(x', x.aggs[a], c)
    {
      assert AggOk(x, x.aggs[a], c);
      if x.aggs[a].Agg? {
        SumSet(x.slots, Unvisited(x.aggs[a]), SLOTS, c, i, v);
      }
    }
  }

  lemma OwnerStep(x: Shared, s: Step, c: Counter)
    requires Inv(x, c) && Enabled(x, s) && (s.Acquire? || s.Clear? || s.Record? || s.ReleaseRead? || s.ReleaseBit?)
    ensures Inv(Next(x, s), c)
  {
    var x' := Next(x, s);
    var i := s.i;
    assert x'.slots == x.slots[i := x'.slots[i]];
    MassSet(x, x', c, i, x'.phases[i], x'.slots[i]);
    SlotStepKeepsAggs(x, x', c, i, x'.slots[i]);
  }

  lemma ZeroStep(x: Shared, i: nat, c: Counter)
    requires Inv(x, c) && Enabled(x, ReleaseZero(i))
    ensures Inv(Next(x, ReleaseZero(i)), c)
  {
    var x' := Next(x, ReleaseZero(i));
    MassSet(x, x', c, i, x'.phases[i], ZERO);
    forall a | a in x'.aggs
      ensures AggOk(x', x'.aggs[a], c)
    {
      assert AggOk(x, x.aggs[a], c);
      if x.aggs[a].Agg? {
        assert Unvisited(x'.aggs[a]) == Unvisited(x.aggs[a]);
        SumSet(x.slots, Unvisited(x.aggs[a]), SLOTS, c, i, ZERO);
      }
    }
  }

  lemma HistoryStep(x: Shared, i: nat, c: Counter)
    requires Inv(x, c) && Enabled(x, ReleaseHistory(i))
    ensures Inv(Next(x, ReleaseHistory(i)), c)
  {
    var x' := Next(x, ReleaseHistory(i));
    assert x'.slots == x.slots[i := x.slots[i]];
    MassSet(x, x', c, i, x'.phases[i], x.slots[i]);
    forall a | a in x'.aggs
      ensures AggOk(x', x'.aggs[a], c)
    {
      assert AggOk(x, x.aggs[a], c);
    }
  }

  lemma MergeStep(x: Shared, i: nat, c: Counter)
    requires Inv(x, c) && Enabled(x, ReleaseMerge(i))
    ensures Inv(Next(x, ReleaseMerge(i)), c)
  {
    var x' := Next(x, ReleaseMerge(i));
    assert x'.slots == x.slots[i := x.slots[i]];
    MassSet(x, x', c, i, Merged, x.slots[i]);
    forall a | a in x'.aggs
      ensures AggOk(x', x'.aggs[a], c)
    {
      assert AggOk(x, x.aggs[a], c);
    }
  }

  lemma AggStep(x: Shared, s: Step, c: Counter)
    requires Inv(x, c) && Enabled(x, s) && (s.AggStart? || s.AggVisit? || s.AggWord?)
    ensures AggOk(Next(x, s), Next(x, s).aggs[s.a], c)
  {
    var x' := Next(x, s);
    var g' := x'.aggs[s.a];
    match s {
      case AggStart(a) =>
        assert Unvisited(g') == All();
        if Quiet(x) {
          FlyingQuiet(x.phases, SLOTS, c);
        }
      case AggVisit(a, i) =>
        assert AggOk(x, x.aggs[a], c);
        SumWithout(x.slots, Unvisited(x.aggs[a]), SLOTS, c, i);
        assert Unvisited(g') == Unvisited(x.aggs[a]) - {i};
      case AggWord(a) =>
        assert AggOk(x, x.aggs[a], c);
        if g'.Agg? {
          SumSame(x.slots, Unvisited(x.aggs[a]), Unvisited(g'), SLOTS, c);
        } else {
          assert Unvisited(x.aggs[a]) == {};
          SumSame(x.slots, Unvisited(x.aggs[a]), {}, SLOTS, c);
          SumNone(x.slots, SLOTS, c);
        }
    }
  }

  lemma {:induction false} SumNone(slots: seq<Triple>, n: nat, c: Counter)
    requires n <= |slots|
    ensures Sum(slots, {}, n, c) == 0
  {
    if n > 0 {
      SumNone(slots, n - 1, c);
    }
  }

  lemma NextKeepsInv(x: Shared, s: Step, c: Counter)
    requires Inv(x, c) && Enabled(x, s)
    ensures Inv(Next(x, s), c)
  {
    match s
    case ReleaseZero(i) => ZeroStep(x, i, c);
    case ReleaseHistory(i) => HistoryStep(x, i, c);
    case ReleaseMerge(i) => MergeStep(x, i, c);
    case AggStart(a) => AggStep(x, s, c); AggFrame(x, s, c);
    case AggVisit(a, i) => AggStep(x, s, c); AggFrame(x, s, c);
    case AggWord(a) => AggStep(x, s, c); AggFrame(x, s, c);
    case _ => OwnerStep(x, s, c);
  }

  lemma AggFrame(x: Shared, s: Step, c: Counter)
    requires Inv(x, c) && Enabled(x, s) && (s.AggStart? || s.AggVisit? || s.AggWord?)
    requires AggOk(Next(x, s), Next(x, s).aggs[s.a], c)
    ensures Inv(Next(x, s), c)
  {
    var x' := Next(x, s);
    forall a | a in x'.aggs
      ensures AggOk(x', x'.aggs[a], c)
    {
      if a != s.a {
        assert AggOk(x, x.aggs[a], c);
      }
    }
  }

  lemma {:induction false} RunKeepsInv(x: Shared, steps: seq<Step>, c: Counter)
    requires Inv(x, c) && CanRun(x, steps)
    ensures Inv(Run(x, steps), c)
    decreases |steps|
  {
    if steps != [] {
      NextKeepsInv(x, steps[0], c);
      RunKeepsInv(Next(x, steps[0]), steps[1..], c);
    }
  }

  lemma InitialInv(c: Counter)
    ensures Inv(INITIAL, c)
  {
    FlyingQuiet(INITIAL.phases, SLOTS, c);
    SumSame(INITIAL.slots, All(), {}, SLOTS, c);
    SumNone(INITIAL.slots, SLOTS, c);
  }

  /** No aggregation ever counts anything twice: in every interleaving, with any number of releases
      at once, each finished sum is at most the total ever recorded. It misses nothing recorded
      before it began, if no release had counts on the way while it ran and no two releases ever
      merged at the same time. */
  lemma AggregateIsBounded(steps: seq<Step>, a: nat)
    requires CanRun(INITIAL, steps)
    requires a in Run(INITIAL, steps).aggs && Run(INITIAL, steps).aggs[a].Done?
    ensures var x := Run(INITIAL, steps);
            && Below(x.aggs[a].acc, x.truth)
            && (!x.overlapped && x.aggs[a].clean ==> Below(x.aggs[a].born, x.aggs[a].acc))
  {
    var x := Run(INITIAL, steps);
    var g := x.aggs[a];
    forall c
      ensures Get(g.acc, c) <= Get(x.truth, c)
      ensures !x.overlapped && g.clean ==> Get(g.born, c) <= Get(g.acc, c)
    {
      InitialInv(c);
      RunKeepsInv(INITIAL, steps, c);
      assert AggOk(x, g, c);
    }
  }

  /** In every run, history, slots, counts in flight and what overlapping merges have overwritten add
      up to the total ever recorded; what was overwritten is never negative, and nothing as long as no
      two releases merged at the same time. A free slot always holds zero. */
  lemma CountsAreConserved(steps: seq<Step>, c: Counter)
    requires CanRun(INITIAL, steps)
    ensures var x := Run(INITIAL, steps);
            && Get(x.history, c) + Mass(x, c) + Owed(x.lost, c) == Get(x.truth, c)
            && 0 <= Owed(x.lost, c)
            && (!x.overlapped ==> Owed(x.lost, c) == 0)
            && (forall i :: 0 <= i < SLOTS && x.phases[i].Free? ==> x.slots[i] == ZERO)
  {
    InitialInv(c);
    RunKeepsInv(INITIAL, steps, c);
  }

  // ----- Building runs -----

  lemma RunCons(x: Shared, s: Step, steps: seq<Step>)
    requires WellFormed(x) && Enabled(x, s)
    ensures CanRun(x, [s] + steps) == CanRun(Next(x, s), steps)
    ensures CanRun(x, [s] + steps) ==> Run(x, [s] + steps) == Run(Next(x, s), steps)
  {
    assert ([s] + steps)[1..] == steps;
  }

  lemma {:induction false} RunAppend(x: Shared, a: seq<Step>, b: seq<Step>)
    requires WellFormed(x) && CanRun(x, a) && CanRun(Run(x, a), b)
    ensures CanRun(x, a + b) && Run(x, a + b) == Run(Run(x, a), b)
    decreases |a|
  {
    if a == [] {
      assert a + b == b;
    } else {
      RunAppend(Next(x, a[0]), a[1..], b);
      RunCons(x, a[0], a[1..] + b);
      assert a + b == [a[0]] + (a[1..] + b);
    }
  }

  lemma Then(x: Shared, a: seq<Step>, s: Step) returns (b: seq<Step>)
    requires WellFormed(x) && CanRun(x, a) && Enabled(Run(x, a), s)
    ensures b == a + [s] && CanRun(x, b) && Run(x, b) == Next(Run(x, a), s)
  {
    b := a + [s];
    RunCons(Run(x, a), s, []);
    assert [s] + [] == [s];
    RunAppend(x, a, [s]);
  }
}
