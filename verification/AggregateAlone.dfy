/** An aggregation that nobody disturbs ends, and returns the history plus every slot whose bit is set. */
module AggregateAlone {
  import opened Stats
  import opened Aggregate

  lemma {:induction false} Lowest(ids: set<nat>) returns (low: nat)
    requires ids != {}
    ensures low in ids && forall j :: j in ids ==> low <= j
    decreases ids
  {
    low :| low in ids;
    if ids - {low} != {} {
      var i := low;
      var m := Lowest(ids - {i});
      low := if i <= m then i else m;
      forall j | j in ids
        ensures low <= j
      {
        assert j == i || j in ids - {i};
      }
    } else {
      assert forall j :: j in ids ==> j == low || j in ids - {low};
    }
  }

  /** Everything but the aggregations is as in `x`. */
  ghost predicate SameSlots(x: Shared, y: Shared) {
    y == x.(aggs := y.aggs)
  }

  /** The aggregation is in word `word` with `rest` to visit. */
  ghost predicate At(y: Shared, g: nat, word: nat, rest: set<nat>) {
    g in y.aggs && y.aggs[g].Agg? && y.aggs[g].word == word && y.aggs[g].rest == rest
  }

  /** All visits of one word. */
  lemma {:induction false} VisitAll(x: Shared, a: seq<Step>, g: nat, word: nat, rest: set<nat>) returns (b: seq<Step>)
    requires WellFormed(x) && CanRun(x, a) && SameSlots(x, Run(x, a)) && At(Run(x, a), g, word, rest)
    requires forall i :: i in rest ==> i < SLOTS
    ensures CanRun(x, b) && SameSlots(x, Run(x, b)) && At(Run(x, b), g, word, {})
    ensures forall c :: Get(Run(x, b).aggs[g].acc, c) == Get(Run(x, a).aggs[g].acc, c) + Sum(x.slots, rest, SLOTS, c)
    decreases rest
  {
    if rest == {} {
      b := a;
      forall c
        ensures Sum(x.slots, {}, SLOTS, c) == 0
      {
        SumNone(x.slots, SLOTS, c);
      }
    } else {
      var i := Lowest(rest);
      b := Then(x, a, AggVisit(g, i));
      var acc := Run(x, b).aggs[g].acc;
      b := VisitAll(x, b, g, word, rest - {i});
      forall c
        ensures Sum(x.slots, rest, SLOTS, c) == Sum(x.slots, rest - {i}, SLOTS, c) + Get(x.slots[i], c)
      {
        SumWithout(x.slots, rest, SLOTS, c, i);
      }
    }
  }

  /** One word: load the mask, then visit its set bits. */
  lemma OneWord(x: Shared, a: seq<Step>, g: nat, word: nat) returns (b: seq<Step>)
    requires WellFormed(x) && CanRun(x, a) && SameSlots(x, Run(x, a)) && At(Run(x, a), g, word, {}) && word < 2
    ensures CanRun(x, b) && SameSlots(x, Run(x, b)) && At(Run(x, b), g, word + 1, {})
    ensures forall c :: Get(Run(x, b).aggs[g].acc, c)
                        == Get(Run(x, a).aggs[g].acc, c) + Sum(x.slots, SetBits(x, word), SLOTS, c)
  {
    b := Then(x, a, AggWord(g));
    b := VisitAll(x, b, g, word + 1, SetBits(x, word));
  }

  lemma {:induction false} SumUnion(slots: seq<Triple>, ids: set<nat>, ids': set<nat>, n: nat, c: Counter)
    requires n <= |slots| && ids !! ids'
    ensures Sum(slots, ids + ids', n, c) == Sum(slots, ids, n, c) + Sum(slots, ids', n, c)
  {
    if n > 0 {
      SumUnion(slots, ids, ids', n - 1, c);
    }
  }

  /** The slots whose bit is set. */
  function SetSlots(x: Shared): set<nat>
    requires WellFormed(x)
  {
    set i | 0 <= i < SLOTS && !x.phases[i].Free?
  }

  lemma AggregationAlone(x: Shared, g: nat) returns (steps: seq<Step>)
    requires WellFormed(x) && Enabled(x, AggStart(g))
    ensures CanRun(x, steps) && SameSlots(x, Run(x, steps))
    ensures g in Run(x, steps).aggs && Run(x, steps).aggs[g].Done?
    ensures forall c :: Get(Run(x, steps).aggs[g].acc, c)
                        == Get(x.history, c) + Sum(x.slots, SetSlots(x), SLOTS, c)
  {
    steps := Then(x, [], AggStart(g));
    steps := OneWord(x, steps, g, 0);
    steps := OneWord(x, steps, g, 1);
    var acc := Run(x, steps).aggs[g].acc;
    steps := Then(x, steps, AggWord(g));
    assert SetSlots(x) == SetBits(x, 0) + SetBits(x, 1);
    forall c
      ensures Sum(x.slots, SetSlots(x), SLOTS, c)
              == Sum(x.slots, SetBits(x, 0), SLOTS, c) + Sum(x.slots, SetBits(x, 1), SLOTS, c)
    {
      SumUnion(x.slots, SetBits(x, 0), SetBits(x, 1), SLOTS, c);
    }
  }
}
