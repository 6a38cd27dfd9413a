/** The registry of statistics slots: who holds which slot when threads search concurrently, and the
    three calls run to completion. A mask word is its 64 bits. */
module SlotRegistry {
  import opened Text
  import opened Stats
  import opened Aggregate

  type Word = w: seq<bool> | |w| == WORD witness seq(WORD, _ => false)

  // ----- Concurrent search -----

  /** Where a thread is in `acquireSlot`: about to load the mask of a round, looking at bit `i` of
      its copy, about to reload after a lost race, or done. */
  datatype Thread =
    | Outside
    | Load(m: nat)
    | Look(m: nat, i: nat, mask: Word)
    | Reload(m: nat, i: nat)
    | Holds(id: nat)

  datatype Registry = Registry(words: seq<Word>, threads: map<nat, Thread>)

  datatype Step = Enter(p: nat) | Move(p: nat) | Leave(p: nat)

  ghost predicate Shape(x: Registry) {
    && |x.words| == 2
    && forall p :: p in x.threads ==>
         match x.threads[p]
         case Load(m) => m < 2
         case Look(m, i, _) => m < 2 && i <= WORD
         case Reload(m, i) => m < 2 && i < WORD
         case Holds(id) => id < SLOTS
         case Outside => true
  }

  ghost predicate Enabled(x: Registry, s: Step) {
    match s
    case Enter(p) => p in x.threads ==> x.threads[p].Outside?
    case Move(p) => p in x.threads && (x.threads[p].Load? || x.threads[p].Look? || x.threads[p].Reload?)
    case Leave(p) => p in x.threads && x.threads[p].Holds?
  }

  predicate BitOf(words: seq<Word>, id: nat)
    requires |words| == 2 && id < SLOTS
  {
    words[id / WORD][id % WORD]
  }

  function SetTo(words: seq<Word>, m: nat, i: nat, b: bool): seq<Word>
    requires m < |words| && i < WORD
  {
    words[m := words[m][i := b]]
  }

  /** One access to shared state. Every round loads word 0, whatever word it then tries to claim in. */
  function MoveOn(x: Registry, p: nat): Registry
    requires Shape(x) && Enabled(x, Move(p))
  {
    match x.threads[p]
    case Load(m) => x.(threads := x.threads[p := Look(m, 0, x.words[0])])
    case Reload(m, i) => x.(threads := x.threads[p := Look(m, i + 1, x.words[m])])
    case Look(m, i, mask) =>
      if i == WORD then x.(threads := x.threads[p := if m == 0 then Load(1) else Outside])
      else if mask[i] then x.(threads := x.threads[p := Look(m, i + 1, mask)])
      else if x.words[m][i] then x.(threads := x.threads[p := Reload(m, i)])
      else Registry(SetTo(x.words, m, i, true), x.threads[p := Holds(m * WORD + i)])
  }

  function Next(x: Registry, s: Step): (x': Registry)
    requires Shape(x) && Enabled(x, s)
    ensures Shape(x')
  {
    match s
    case Enter(p) => x.(threads := x.threads[p := Load(0)])
    case Move(p) => MoveOn(x, p)
    case Leave(p) =>
      var id := x.threads[p].id;
      Registry(SetTo(x.words, id / WORD, id % WORD, false), x.threads[p := Outside])
  }

  ghost predicate Holder(x: Registry, p: nat, id: nat) {
    p in x.threads && x.threads[p] == Holds(id)
  }

  /** A bit is set exactly when some thread holds the slot, and then only one does. */
  ghost predicate Exclusive(x: Registry) {
    && Shape(x)
    && (forall id :: 0 <= id < SLOTS && BitOf(x.words, id) ==> exists p :: Holder(x, p, id))
    && (forall p, id :: Holder(x, p, id) ==> BitOf(x.words, id))
    && (forall p, q, id :: Holder(x, p, id) && Holder(x, q, id) ==> p == q)
  }

  lemma BitSet(words: seq<Word>, m: nat, i: nat, b: bool, id: nat)
    requires |words| == 2 && m < 2 && i < WORD && id < SLOTS
    ensures BitOf(SetTo(words, m, i, b), id) == if id == m * WORD + i then b else BitOf(words, id)
  {
  }

  /** A thread that does not hold a slot takes a step that claims none. */
  lemma KeepExclusive(x: Registry, p: nat, t: Thread)
    requires Exclusive(x) && (p in x.threads ==> !x.threads[p].Holds?) && !t.Holds?
    requires Shape(x.(threads := x.threads[p := t]))
    ensures Exclusive(x.(threads := x.threads[p := t]))
  {
    var x' := x.(threads := x.threads[p := t]);
    forall q, id
      ensures Holder(x', q, id) <==> Holder(x, q, id)
    {
    }
    forall id | 0 <= id < SLOTS && BitOf(x'.words, id)
      ensures exists q :: Holder(x', q, id)
    {
      var q :| Holder(x, q, id);
      assert Holder(x', q, id);
    }
  }

  lemma ClaimExclusive(x: Registry, p: nat, m: nat, i: nat)
    requires Exclusive(x) && (p in x.threads ==> !x.threads[p].Holds?) && m < 2 && i < WORD && !x.words[m][i]
    ensures Exclusive(Registry(SetTo(x.words, m, i, true), x.threads[p := Holds(m * WORD + i)]))
  {
    var x' := Registry(SetTo(x.words, m, i, true), x.threads[p := Holds(m * WORD + i)]);
    var mine := m * WORD + i;
    assert !BitOf(x.words, mine);
    forall q, id
      ensures Holder(x', q, id) <==> Holder(x, q, id) || (q == p && id == mine)
    {
    }
    forall id | 0 <= id < SLOTS
      ensures BitOf(x'.words, id) <==> id == mine || BitOf(x.words, id)
    {
      BitSet(x.words, m, i, true, id);
    }
    forall id | 0 <= id < SLOTS && BitOf(x'.words, id)
      ensures exists q :: Holder(x', q, id)
    {
      if id == mine {
        assert Holder(x', p, id);
      } else {
        var q :| Holder(x, q, id);
        assert Holder(x', q, id);
      }
    }
  }

  lemma LeaveExclusive(x: Registry, p: nat)
    requires Exclusive(x) && Enabled(x, Leave(p))
    ensures Exclusive(Next(x, Leave(p)))
  {
    var x' := Next(x, Leave(p));
    var mine := x.threads[p].id;
    assert Holder(x, p, mine);
    forall q, id
      ensures Holder(x', q, id) <==> Holder(x, q, id) && q != p
    {
    }
    forall id | 0 <= id < SLOTS
      ensures BitOf(x'.words, id) <==> id != mine && BitOf(x.words, id)
    {
      BitSet(x.words, mine / WORD, mine % WORD, false, id);
    }
    forall id | 0 <= id < SLOTS && BitOf(x'.words, id)
      ensures exists q :: Holder(x', q, id)
    {
      var q :| Holder(x, q, id);
      assert Holder(x', q, id);
    }
  }

  lemma NextExclusive(x: Registry, s: Step)
    requires Exclusive(x) && Enabled(x, s)
    ensures Exclusive(Next(x, s))
  {
    match s
    case Enter(p) => KeepExclusive(x, p, Load(0));
    case Leave(p) => LeaveExclusive(x, p);
    case Move(p) =>
      var t := x.threads[p];
      if t.Look? && t.i < WORD && !t.mask[t.i] && !x.words[t.m][t.i] {
        ClaimExclusive(x, p, t.m, t.i);
      } else {
        KeepExclusive(x, p, Next(x, s).threads[p]);
      }
  }

  ghost predicate CanRun(x: Registry, steps: seq<Step>)
    requires Shape(x)
    decreases |steps|
  {
    steps == [] || (Enabled(x, steps[0]) && CanRun(Next(x, steps[0]), steps[1..]))
  }

  ghost function Run(x: Registry, steps: seq<Step>): (x': Registry)
    requires Shape(x) && CanRun(x, steps)
    ensures Shape(x')
    decreases |steps|
  {
    if steps == [] then x else Run(Next(x, steps[0]), steps[1..])
  }

  /** No two threads ever hold the same slot, in every interleaving of searches and releases. */
  lemma {:induction false} SlotsAreExclusive(x: Registry, steps: seq<Step>)
    requires Exclusive(x) && CanRun(x, steps)
    ensures Exclusive(Run(x, steps))
    decreases |steps|
  {
    if steps != [] {
      NextExclusive(x, steps[0]);
      SlotsAreExclusive(Next(x, steps[0]), steps[1..]);
    }
  }

  // ----- A search that nobody disturbs -----

  lemma {:induction false} RunAppend(x: Registry, a: seq<Step>, b: seq<Step>)
    requires Shape(x) && CanRun(x, a) && CanRun(Run(x, a), b)
    ensures CanRun(x, a + b) && Run(x, a + b) == Run(Run(x, a), b)
    decreases |a|
  {
    if a == [] {
      assert a + b == b;
    } else {
      RunAppend(Next(x, a[0]), a[1..], b);
      assert (a + b)[1..] == a[1..] + b;
    }
  }

  lemma Then(x: Registry, a: seq<Step>, s: Step) returns (b: seq<Step>)
    requires Shape(x) && CanRun(x, a) && Enabled(Run(x, a), s)
    ensures b == a + [s] && CanRun(x, b) && Run(x, b) == Next(Run(x, a), s)
  {
    b := a + [s];
    assert [s][1..] == [];
    RunAppend(x, a, [s]);
  }

  /** The first clear bit of a word from `i` on; WORD if there is none. */
  function FirstClear(w: Word, i: nat): (j: nat)
    requires i <= WORD
    ensures i <= j <= WORD && (j < WORD ==> !w[j]) && forall k :: i <= k < j ==> w[k]
    decreases WORD - i
  {
    if i == WORD || !w[i] then i else FirstClear(w, i + 1)
  }

  /** The search passes over set bits. */
  lemma {:induction false} PassSetBits(x: Registry, a: seq<Step>, p: nat, m: nat, i: nat, mask: Word) returns (b: seq<Step>)
    requires Shape(x) && CanRun(x, a) && m < 2 && i <= WORD
    requires Run(x, a) == Registry(x.words, x.threads[p := Look(m, i, mask)])
    ensures CanRun(x, b) && Run(x, b) == Registry(x.words, x.threads[p := Look(m, FirstClear(mask, i), mask)])
    decreases WORD - i
  {
    b := a;
    if i < WORD && mask[i] {
      b := Then(x, a, Move(p));
      assert Run(x, b).threads == x.threads[p := Look(m, i + 1, mask)];
      b := PassSetBits(x, b, p, m, i + 1, mask);
    }
  }

  /** One round up to the first clear bit of word 0. */
  lemma OneRound(x: Registry, a: seq<Step>, p: nat, m: nat) returns (b: seq<Step>)
    requires Shape(x) && CanRun(x, a) && m < 2 && Run(x, a) == Registry(x.words, x.threads[p := Load(m)])
    ensures CanRun(x, b)
    ensures Run(x, b) == Registry(x.words, x.threads[p := Look(m, FirstClear(x.words[0], 0), x.words[0])])
  {
    b := Then(x, a, Move(p));
    assert Run(x, b).threads == x.threads[p := Look(m, 0, x.words[0])];
    b := PassSetBits(x, b, p, m, 0, x.words[0]);
  }

  lemma FirstRound(x: Registry, p: nat) returns (steps: seq<Step>)
    requires Shape(x) && Enabled(x, Enter(p))
    ensures CanRun(x, steps)
    ensures Run(x, steps) == Registry(x.words, x.threads[p := Look(0, FirstClear(x.words[0], 0), x.words[0])])
  {
    steps := Then(x, [], Enter(p));
    steps := OneRound(x, steps, p, 0);
  }

  /** A round that has found nothing ends. */
  lemma RoundEnds(x: Registry, a: seq<Step>, p: nat, m: nat, mask: Word) returns (b: seq<Step>)
    requires Shape(x) && CanRun(x, a) && m < 2
    requires Run(x, a) == Registry(x.words, x.threads[p := Look(m, WORD, mask)])
    ensures CanRun(x, b)
    ensures Run(x, b) == Registry(x.words, x.threads[p := if m == 0 then Load(1) else Outside])
  {
    b := Then(x, a, Move(p));
    assert Run(x, b).threads == x.threads[p := if m == 0 then Load(1) else Outside];
  }

  lemma SecondRound(x: Registry, a: seq<Step>, p: nat) returns (steps: seq<Step>)
    requires Shape(x) && CanRun(x, a) && FirstClear(x.words[0], 0) == WORD
    requires Run(x, a) == Registry(x.words, x.threads[p := Look(0, WORD, x.words[0])])
    ensures CanRun(x, steps) && Run(x, steps) == Registry(x.words, x.threads[p := Outside])
  {
    steps := RoundEnds(x, a, p, 0, x.words[0]);
    steps := OneRound(x, steps, p, 1);
    steps := RoundEnds(x, steps, p, 1, x.words[0]);
  }

  /** Left alone, a search claims the lowest clear bit of word 0, and nothing if word 0 is full. */
  lemma SearchAlone(x: Registry, p: nat) returns (steps: seq<Step>)
    requires Shape(x) && Enabled(x, Enter(p))
    ensures CanRun(x, steps)
    ensures var i := FirstClear(x.words[0], 0);
            Run(x, steps) == if i < WORD then Registry(SetTo(x.words, 0, i, true), x.threads[p := Holds(i)])
                             else Registry(x.words, x.threads[p := Outside])
  {
    steps := FirstRound(x, p);
    var i := FirstClear(x.words[0], 0);
    if i < WORD {
      steps := Then(x, steps, Move(p));
      assert Run(x, steps).threads == x.threads[p := Holds(i)];
    } else {
      steps := SecondRound(x, steps, p);
    }
  }

  /** A search that loses the race for a bit goes on behind it with a fresh copy of the word it claims
      in. */
  lemma LostRaceGoesOn(x: Registry, p: nat)
    requires Shape(x) && p in x.threads && x.threads[p].Look? && x.threads[p].i < WORD
    requires !x.threads[p].mask[x.threads[p].i] && x.words[x.threads[p].m][x.threads[p].i]
    ensures var t := x.threads[p];
            && Enabled(x, Move(p)) && Enabled(Next(x, Move(p)), Move(p))
            && Next(Next(x, Move(p)), Move(p)) == x.(threads := x.threads[p := Look(t.m, t.i + 1, x.words[t.m])])
  {
    var t := x.threads[p];
    var y := Next(x, Move(p));
    assert y.threads == x.threads[p := Reload(t.m, t.i)];
    assert Next(y, Move(p)).threads == x.threads[p := Look(t.m, t.i + 1, x.words[t.m])];
  }

  // ----- Calls run to completion -----

  /** The slots whose bit is set. */
  function ActiveSlots(words: seq<Word>): set<nat>
    requires |words| == 2
  {
    set id | 0 <= id < SLOTS && BitOf(words, id)
  }

  function BitsLeft(w: Word, n: nat): nat
    requires n <= WORD
  {
    if n == 0 then 0 else BitsLeft(w, n - 1) + if w[n - 1] then 1 else 0
  }

  lemma {:induction false} BitsLeftClear(w: Word, n: nat, i: nat)
    requires n <= WORD && i < WORD && w[i]
    ensures BitsLeft(w[i := false], n) == BitsLeft(w, n) - if i < n then 1 else 0
  {
    if n > 0 {
      BitsLeftClear(w, n - 1, i);
    }
  }

  /** `__builtin_ctzll`: the lowest set bit. */
  method LowestBit(w: Word) returns (i: nat)
    requires exists k :: 0 <= k < WORD && w[k]
    ensures i < WORD && w[i] && forall j :: 0 <= j < i ==> !w[j]
  {
    i := 0;
    while !w[i]
      invariant i < WORD
      invariant forall j :: 0 <= j < i ==> !w[j]
      decreases WORD - i
    {
      i := i + 1;
    }
  }

  /** The slots still to be added: the set bits of the copy of word `m`, and later words as they are. */
  function ToAdd(words: seq<Word>, m: nat, mask: Word): set<nat>
    requires |words| == 2
  {
    set id | 0 <= id < SLOTS && (if id / WORD == m then mask[id % WORD] else id / WORD > m && BitOf(words, id))
  }

  class ThreadLocalRegistry {
    const slots: array<Triple>
    const words: array<Word>
    var history: Triple

    ghost predicate Valid()
      reads this, slots, words
    {
      && slots.Length == SLOTS && words.Length == 2
      && forall id :: 0 <= id < SLOTS && !BitOf(words[..], id) ==> slots[id] == ZERO
    }

    /** What an aggregation is to report. */
    ghost function Reported(c: Counter): nat
      requires Valid()
      reads this, slots, words
    {
      Get(history, c) + Sum(slots[..], ActiveSlots(words[..]), SLOTS, c)
    }

    constructor ()
      ensures Valid() && fresh(slots) && fresh(words)
      ensures forall c :: Reported(c) == 0
    {
      slots := new Triple[SLOTS](_ => ZERO);
      words := new Word[2](_ => seq(WORD, _ => false));
      history := ZERO;
      new;
      forall c
        ensures Reported(c) == 0
      {
        SumSame(slots[..], ActiveSlots(words[..]), {}, SLOTS, c);
        SumNone(slots[..], SLOTS, c);
      }
    }

    /** The lowest clear bit of word 0 is claimed; with word 0 full the answer is "none", whatever
        word 1 looks like, so the upper 64 slots are never given out. What an aggregation reports
        does not change. */
    method AcquireSlot() returns (id: Option<nat>)
      requires Valid()
      modifies slots, words
      ensures Valid()
      ensures id.None? <==> forall i :: 0 <= i < WORD ==> old(words[0])[i]
      ensures id.None? ==> words[..] == old(words[..]) && slots[..] == old(slots[..])
      ensures id.Some? ==>
                && id.value < WORD
                && !old(words[0])[id.value] && (forall i :: 0 <= i < id.value ==> old(words[0])[i])
                && words[..] == SetTo(old(words[..]), 0, id.value, true)
                && slots[..] == old(slots[..])[id.value := ZERO]
      ensures forall c :: Reported(c) == old(Reported(c))
    {
      var m := 0;
      while m < 2
        invariant 0 <= m <= 2
        invariant words[..] == old(words[..]) && slots[..] == old(slots[..])
        invariant m > 0 ==> forall i :: 0 <= i < WORD ==> words[0][i]
      {
        var mask := words[0];
        var i := 0;
        while i < WORD
          invariant 0 <= i <= WORD
          invariant mask == words[0]
          invariant words[..] == old(words[..]) && slots[..] == old(slots[..])
          invariant forall j :: 0 <= j < i ==> mask[j]
        {
          if !mask[i] {
            // With no other thread at work the claim cannot be lost.
            assert m == 0;
            words[m] := words[m][i := true];
            slots[m * WORD + i] := ZERO;
            id := Some(m * WORD + i);
            ghost var ws := old(words[..]);
            assert words[..] == SetTo(ws, 0, i, true);
            AcquireKeeps(old(slots[..]), ws, i);
            return;
          }
          i := i + 1;
        }
        m := m + 1;
      }
      id := None;
    }

    /** The slot is emptied into the history and freed; what an aggregation reports stays the same. */
    method ReleaseSlot(id: nat)
      requires Valid()
      modifies this, slots, words
      ensures Valid()
      ensures id >= SLOTS ==> history == old(history) && words[..] == old(words[..]) && slots[..] == old(slots[..])
      ensures id < SLOTS ==>
                && history == Add(old(history), old(slots[id]))
                && slots[..] == old(slots[..])[id := ZERO]
                && words[..] == SetTo(old(words[..]), id / WORD, id % WORD, false)
      ensures forall c :: Reported(c) == old(Reported(c))
    {
      if id >= SLOTS {
        return;
      }
      var t := slots[id];
      slots[id] := ZERO;
      history := Add(history, t);
      words[id / WORD] := words[id / WORD][id % WORD := false];
      assert words[..] == SetTo(old(words[..]), id / WORD, id % WORD, false);
      ReleaseKeeps(old(slots[..]), old(words[..]), id);
    }

    /** The owner of a slot publishes new counts: the reported sum moves by exactly the difference. */
    method Update(id: nat, v: Triple)
      requires Valid() && id < SLOTS && BitOf(words[..], id)
      modifies slots
      ensures Valid() && slots[..] == old(slots[..])[id := v]
      ensures forall c :: Reported(c) == old(Reported(c)) + Get(v, c) - Get(old(slots[id]), c)
    {
      slots[id] := v;
      assert slots[..] == old(slots[..])[id := v];
      forall c
        ensures Reported(c) == old(Reported(c)) + Get(v, c) - Get(old(slots[id]), c)
      {
        SumSet(old(slots[..]), ActiveSlots(words[..]), SLOTS, c, id, v);
      }
    }

    method Aggregate() returns (sum: Triple)
      requires Valid()
      ensures forall c :: Get(sum, c) == Reported(c)
    {
      sum := history;
      var m := 0;
      ghost var todo := ActiveSlots(words[..]);
      while m < 2
        invariant 0 <= m <= 2
        invariant todo == set id | 0 <= id < SLOTS && id / WORD >= m && BitOf(words[..], id)
        invariant forall c :: Get(sum, c) + Sum(slots[..], todo, SLOTS, c) == Reported(c)
      {
        var mask := words[m];
        assert todo == ToAdd(words[..], m, mask);
        while exists k :: 0 <= k < WORD && mask[k]
          invariant todo == ToAdd(words[..], m, mask)
          invariant forall c :: Get(sum, c) + Sum(slots[..], todo, SLOTS, c) == Reported(c)
          decreases BitsLeft(mask, WORD)
        {
          var i := LowestBit(mask);
          ghost var id := m * WORD + i;
          forall c
            ensures Sum(slots[..], todo, SLOTS, c) == Sum(slots[..], todo - {id}, SLOTS, c) + Get(slots[id], c)
          {
            SumWithout(slots[..], todo, SLOTS, c, id);
          }
          sum := Add(sum, slots[m * WORD + i]);
          BitsLeftClear(mask, WORD, i);
          mask := mask[i := false];
          assert todo - {id} == ToAdd(words[..], m, mask);
          todo := todo - {id};
        }
        m := m + 1;
      }
      assert todo == {};
      forall c
        ensures Get(sum, c) == Reported(c)
      {
        SumNone(slots[..], SLOTS, c);
      }
    }
  }

  lemma AcquireKeeps(slots: seq<Triple>, words: seq<Word>, i: nat)
    requires |slots| == SLOTS && |words| == 2 && i < WORD && slots[i] == ZERO
    ensures forall c :: Sum(slots[i := ZERO], ActiveSlots(SetTo(words, 0, i, true)), SLOTS, c)
                     == Sum(slots, ActiveSlots(words), SLOTS, c)
  {
    forall c
      ensures Sum(slots[i := ZERO], ActiveSlots(SetTo(words, 0, i, true)), SLOTS, c)
           == Sum(slots, ActiveSlots(words), SLOTS, c)
    {
      assert slots[i := ZERO] == slots;
      SumSame(slots, ActiveSlots(SetTo(words, 0, i, true)), ActiveSlots(words), SLOTS, c);
    }
  }

  lemma ReleaseKeeps(slots: seq<Triple>, words: seq<Word>, id: nat)
    requires |slots| == SLOTS && |words| == 2 && id < SLOTS
    requires !BitOf(words, id) ==> slots[id] == ZERO
    ensures forall c :: Sum(slots[id := ZERO], ActiveSlots(SetTo(words, id / WORD, id % WORD, false)), SLOTS, c)
                     == Sum(slots, ActiveSlots(words), SLOTS, c) - Get(slots[id], c)
  {
    forall c
      ensures Sum(slots[id := ZERO], ActiveSlots(SetTo(words, id / WORD, id % WORD, false)), SLOTS, c)
           == Sum(slots, ActiveSlots(words), SLOTS, c) - Get(slots[id], c)
    {
      SumSame(slots[id := ZERO], ActiveSlots(SetTo(words, id / WORD, id % WORD, false)), ActiveSlots(words), SLOTS, c);
      SumSet(slots, ActiveSlots(words), SLOTS, c, id, ZERO);
    }
  }
}
