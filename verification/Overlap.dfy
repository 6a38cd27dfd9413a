/** Releases that merge their counts into the history at the same time: what they lose, and how many
    at a time are safe. */
module Overlap {
  import opened Stats
  import opened Aggregate

  /** Two releases that do merge at the same time lose the counts of one of them. */
  lemma OverlappingReleasesLose(x: Shared, i: nat, j: nat)
    requires WellFormed(x) && i < SLOTS && j < SLOTS && i != j && x.phases[i].Zeroed? && x.phases[j].Zeroed?
    ensures var steps := [ReleaseHistory(i), ReleaseHistory(j), ReleaseMerge(i), ReleaseMerge(j)];
            && CanRun(x, steps)
            && Run(x, steps).history == Add(x.history, x.phases[j].t)
            && Run(x, steps).lost == Forgo(x.lost, Add(x.history, x.phases[i].t), x.history)
            && Run(x, steps).phases[i].Merged? && Run(x, steps).phases[j].Merged?
  {
    var s1, s2, s3, s4 := ReleaseHistory(i), ReleaseHistory(j), ReleaseMerge(i), ReleaseMerge(j);
    var x1 := Next(x, s1);
    var x2 := Next(x1, s2);
    var x3 := Next(x2, s3);
    var x4 := Next(x3, s4);
    RunCons(x3, s4, []);
    RunCons(x2, s3, [s4]);
    RunCons(x1, s2, [s3, s4]);
    RunCons(x, s1, [s2, s3, s4]);
    assert [s1] + [s2, s3, s4] == [s1, s2, s3, s4];
    assert [s2] + [s3, s4] == [s2, s3, s4] && [s3] + [s4] == [s3, s4] && [s4] + [] == [s4];
    assert Run(x, [s1, s2, s3, s4]) == x4;
  }

  // ----- How many merges at a time -----

  /** How many of the first `n` slots are between reading and writing the history. */
  function Merging(phases: seq<Phase>, n: nat): nat
    requires n <= |phases|
  {
    if n == 0 then 0 else Merging(phases, n - 1) + if phases[n - 1].ReadHistory? then 1 else 0
  }

  /** At most `n` releases are between reading and writing the history, all along the run. */
  ghost predicate Within(x: Shared, steps: seq<Step>, n: nat)
    requires WellFormed(x) && CanRun(x, steps)
    decreases |steps|
  {
    Merging(x.phases, SLOTS) <= n && (steps == [] || Within(Next(x, steps[0]), steps[1..], n))
  }

  lemma {:induction false} CountsOne(phases: seq<Phase>, n: nat, i: nat)
    requires i < n <= |phases| && phases[i].ReadHistory?
    ensures Merging(phases, n) >= 1
  {
    if i < n - 1 {
      CountsOne(phases, n - 1, i);
    }
  }

  lemma {:induction false} CountsTwo(phases: seq<Phase>, n: nat, i: nat, j: nat)
    requires i < j < n <= |phases| && phases[i].ReadHistory? && phases[j].ReadHistory?
    ensures Merging(phases, n) >= 2
  {
    if j < n - 1 {
      CountsTwo(phases, n - 1, i, j);
    } else {
      CountsOne(phases, n - 1, i);
    }
  }

  lemma {:induction false} CountsAtMost(phases: seq<Phase>, n: nat, i: nat, j: nat)
    requires n <= |phases| && forall k :: 0 <= k < n && k != i && k != j ==> !phases[k].ReadHistory?
    ensures Merging(phases, n) <= (if i < n then 1 else 0) + (if j < n then 1 else 0)
  {
    if n > 0 {
      CountsAtMost(phases, n - 1, i, j);
    }
  }

  lemma StepStaysApart(x: Shared, s: Step)
    requires WellFormed(x) && Enabled(x, s) && !x.overlapped && Merging(Next(x, s).phases, SLOTS) <= 1
    ensures !Next(x, s).overlapped
  {
    if s.ReleaseHistory? {
      var x' := Next(x, s);
      if j :| 0 <= j < SLOTS && x.phases[j].ReadHistory? {
        assert x'.phases[j].ReadHistory? && x'.phases[s.i].ReadHistory?;
        if s.i < j {
          CountsTwo(x'.phases, SLOTS, s.i, j);
        } else {
          CountsTwo(x'.phases, SLOTS, j, s.i);
        }
        assert false;
      }
    }
  }

  lemma {:induction false} StaysApart(x: Shared, steps: seq<Step>, n: nat)
    requires WellFormed(x) && CanRun(x, steps) && !x.overlapped && Within(x, steps, n) && n <= 1
    ensures !Run(x, steps).overlapped
    decreases |steps|
  {
    if steps != [] {
      StepStaysApart(x, steps[0]);
      StaysApart(Next(x, steps[0]), steps[1..], n);
    }
  }

  /** The step is one of slot `i` or `j`. */
  predicate OfSlots(s: Step, i: nat, j: nat) {
    !s.AggStart? && !s.AggVisit? && !s.AggWord? && (s.i == i || s.i == j)
  }

  lemma {:induction false} TwoSlotsWithin(x: Shared, steps: seq<Step>, i: nat, j: nat)
    requires WellFormed(x) && CanRun(x, steps)
    requires forall k :: 0 <= k < SLOTS && k != i && k != j ==> x.phases[k].Free?
    requires forall k :: 0 <= k < |steps| ==> OfSlots(steps[k], i, j)
    ensures Within(x, steps, 2)
    decreases |steps|
  {
    CountsAtMost(x.phases, SLOTS, i, j);
    if steps != [] {
      assert OfSlots(steps[0], i, j);
      TwoSlotsWithin(Next(x, steps[0]), steps[1..], i, j);
    }
  }

  /** A slot is acquired, used and on its way to be merged; the history is as before. */
  lemma UseAndZero(x: Shared, a: seq<Step>, i: nat, v: Triple) returns (b: seq<Step>)
    requires WellFormed(x) && CanRun(x, a) && i < SLOTS && Run(x, a).phases[i].Free?
    ensures CanRun(x, b) && a <= b && forall k :: |a| <= k < |b| ==> OfSlots(b[k], i, i)
    ensures Run(x, b).phases == Run(x, a).phases[i := Zeroed(v)]
    ensures Run(x, b).history == Run(x, a).history && Run(x, b).lost == Run(x, a).lost
  {
    b := Then(x, a, Acquire(i));
    b := Then(x, b, Clear(i));
    b := Then(x, b, Record(i, v));
    b := Then(x, b, ReleaseRead(i));
    b := Then(x, b, ReleaseZero(i));
    assert Run(x, b).phases == Run(x, a).phases[i := Zeroed(v)];
  }

  /** From the start, for any two slots and any counts: a run of these two slots alone that loses exactly
      the first one's counts. */
  lemma OverlapRun(i: nat, j: nat, v: Triple, w: Triple) returns (steps: seq<Step>)
    requires i < SLOTS && j < SLOTS && i != j
    ensures CanRun(INITIAL, steps) && forall k :: 0 <= k < |steps| ==> OfSlots(steps[k], i, j)
    ensures Run(INITIAL, steps).lost == Balance(v.total, v.success, v.failed)
    ensures Run(INITIAL, steps).history == w
  {
    var a := UseAndZero(INITIAL, [], i, v);
    var b := UseAndZero(INITIAL, a, j, w);
    var x := Run(INITIAL, b);
    OverlappingReleasesLose(x, i, j);
    var merge := [ReleaseHistory(i), ReleaseHistory(j), ReleaseMerge(i), ReleaseMerge(j)];
    RunAppend(INITIAL, b, merge);
    steps := b + merge;
  }

  /** All runs with at most `n` merges at a time lose nothing if and only if `n` is at most one. */
  lemma ConservesExactly(n: nat)
    ensures (forall steps, c :: CanRun(INITIAL, steps) && Within(INITIAL, steps, n) ==>
               Owed(Run(INITIAL, steps).lost, c) == 0)
            <==> n <= 1
  {
    if n <= 1 {
      forall steps, c | CanRun(INITIAL, steps) && Within(INITIAL, steps, n)
        ensures Owed(Run(INITIAL, steps).lost, c) == 0
      {
        StaysApart(INITIAL, steps, n);
        CountsAreConserved(steps, c);
      }
    } else {
      var steps := OverlapRun(0, 1, Triple(1, 1, 0), ZERO);
      TwoSlotsWithin(INITIAL, steps, 0, 1);
      WithinMore(INITIAL, steps, 2, n);
      assert Owed(Run(INITIAL, steps).lost, Total) == 1;
    }
  }

  lemma {:induction false} WithinMore(x: Shared, steps: seq<Step>, n: nat, m: nat)
    requires WellFormed(x) && CanRun(x, steps) && Within(x, steps, n) && n <= m
    ensures Within(x, steps, m)
    decreases |steps|
  {
    if steps != [] {
      WithinMore(Next(x, steps[0]), steps[1..], n, m);
    }
  }
}
