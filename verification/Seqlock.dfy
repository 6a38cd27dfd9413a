/** A statistics slot guarded by a sequence number, as interleaved loads and stores: one writer at a
    time, any number of readers. */
module Seqlock {
  import opened Stats

  /** Where the writer is in `update`: between calls, or after the first increment with the first
      few fields stored. */
  datatype Writer =
    | Resting
    | Opened(v: Triple)
    | WroteTotal(v: Triple)
    | WroteSuccess(v: Triple)
    | WroteFailed(v: Triple)

  /** Where a reader is in `read`. `from` is the number of updates completed when the call began;
      a finished reader keeps the number of the update it returned. */
  datatype Reader =
    | Entering(from: nat)
    | GotSeq(from: nat, s1: nat)
    | GotTotal(from: nat, s1: nat, t: nat)
    | GotSuccess(from: nat, s1: nat, t: nat, s: nat)
    | GotFailed(from: nat, s1: nat, t: nat, s: nat, f: nat)
    | Returned(from: nat, v: Triple, version: nat)

  /** `history[i]` is the triple of the i-th completed update; the initial one is `history[0]`. */
  datatype Slot = Slot(seqNo: nat, total: nat, success: nat, failed: nat,
                       writer: Writer, readers: map<nat, Reader>, history: seq<Triple>)

  const INITIAL := Slot(0, 0, 0, 0, Resting, map[], [ZERO])

  datatype Step = BeginUpdate(v: Triple) | Write | BeginRead(r: nat) | Read(r: nat)

  predicate Enabled(x: Slot, step: Step) {
    match step
    case BeginUpdate(_) => x.writer.Resting?
    case Write => !x.writer.Resting?
    case BeginRead(r) => r in x.readers ==> x.readers[r].Returned?
    case Read(r) => r in x.readers && !x.readers[r].Returned?
  }

  function WriterNext(x: Slot): Slot
    requires !x.writer.Resting?
  {
    match x.writer
    case Opened(v) => x.(total := v.total, writer := WroteTotal(v))
    case WroteTotal(v) => x.(success := v.success, writer := WroteSuccess(v))
    case WroteSuccess(v) => x.(failed := v.failed, writer := WroteFailed(v))
    case WroteFailed(v) => x.(seqNo := x.seqNo + 1, writer := Resting, history := x.history + [v])
  }

  /** One load of a reader; after the second load of the sequence number it returns or retries. */
  function ReaderNext(x: Slot, r: Reader): Reader
    requires !r.Returned?
  {
    match r
    case Entering(from) => GotSeq(from, x.seqNo)
    case GotSeq(from, s1) => GotTotal(from, s1, x.total)
    case GotTotal(from, s1, t) => GotSuccess(from, s1, t, x.success)
    case GotSuccess(from, s1, t, s) => GotFailed(from, s1, t, s, x.failed)
    case GotFailed(from, s1, t, s, f) =>
      if s1 % 2 == 1 || s1 != x.seqNo then Entering(from) else Returned(from, Triple(t, s, f), s1 / 2)
  }

  /** The number of updates completed so far. */
  function Completed(x: Slot): nat {
    if x.history == [] then 0 else |x.history| - 1
  }

  function Next(x: Slot, step: Step): Slot
    requires Enabled(x, step)
  {
    match step
    case BeginUpdate(v) => x.(seqNo := x.seqNo + 1, writer := Opened(v))
    case Write => WriterNext(x)
    case BeginRead(r) => x.(readers := x.readers[r := Entering(Completed(x))])
    case Read(r) => x.(readers := x.readers[r := ReaderNext(x, x.readers[r])])
  }

  predicate CanRun(x: Slot, steps: seq<Step>)
    decreases |steps|
  {
    steps == [] || (Enabled(x, steps[0]) && CanRun(Next(x, steps[0]), steps[1..]))
  }

  function Run(x: Slot, steps: seq<Step>): Slot
    requires CanRun(x, steps)
    decreases |steps|
  {
    if steps == [] then x else Run(Next(x, steps[0]), steps[1..])
  }

  // ----- Invariant -----

  ghost predicate WriterOk(x: Slot) {
    && |x.history| >= 1
    && var last := x.history[|x.history| - 1];
    && x.seqNo == 2 * (|x.history| - 1) + (if x.writer.Resting? then 0 else 1)
    && match x.writer
       case Resting => Triple(x.total, x.success, x.failed) == last
       case Opened(_) => Triple(x.total, x.success, x.failed) == last
       case WroteTotal(v) => x.total == v.total
       case WroteSuccess(v) => x.total == v.total && x.success == v.success
       case WroteFailed(v) => Triple(x.total, x.success, x.failed) == v
  }

  /** The fields a reader has collected belong to update `s1 / 2` as long as the sequence number has
      not moved on from an even `s1`. */
  ghost predicate ReaderOk(x: Slot, r: Reader) {
    && r.from < |x.history|
    && match r
       case Entering(_) => true
       case GotSeq(from, s1) => 2 * from <= s1 <= x.seqNo
       case GotTotal(from, s1, t) =>
         2 * from <= s1 <= x.seqNo && (Steady(x, s1) ==> t == x.total)
       case GotSuccess(from, s1, t, s) =>
         2 * from <= s1 <= x.seqNo && (Steady(x, s1) ==> t == x.total && s == x.success)
       case GotFailed(from, s1, t, s, f) =>
         2 * from <= s1 <= x.seqNo && (Steady(x, s1) ==> t == x.total && s == x.success && f == x.failed)
       case Returned(from, v, version) =>
         from <= version < |x.history| && v == x.history[version]
  }

  predicate Steady(x: Slot, s1: nat) {
    s1 == x.seqNo && s1 % 2 == 0
  }

  ghost predicate Inv(x: Slot) {
    WriterOk(x) && forall r :: r in x.readers ==> ReaderOk(x, x.readers[r])
  }

  lemma NextKeepsInv(x: Slot, step: Step)
    requires Inv(x) && Enabled(x, step)
    ensures Inv(Next(x, step))
  {
    var x' := Next(x, step);
    assert WriterOk(x');
    forall r | r in x'.readers
      ensures ReaderOk(x', x'.readers[r])
    {
      if r in x.readers {
        assert ReaderOk(x, x.readers[r]);
      }
    }
  }

  /** In every interleaving, every read that leaves its retry loop returns the triple of one single
      update, and of one no older than the last update completed when the read began. */
  lemma {:induction false} ReadsAreAtomic(x: Slot, steps: seq<Step>)
    requires Inv(x) && CanRun(x, steps)
    ensures Inv(Run(x, steps))
    ensures forall r :: r in Run(x, steps).readers && Run(x, steps).readers[r].Returned? ==>
              var got := Run(x, steps).readers[r];
              got.from <= got.version < |Run(x, steps).history| && got.v == Run(x, steps).history[got.version]
    decreases |steps|
  {
    if steps != [] {
      NextKeepsInv(x, steps[0]);
      ReadsAreAtomic(Next(x, steps[0]), steps[1..]);
    } else {
      forall r | r in x.readers
        ensures ReaderOk(x, x.readers[r])
      {
      }
    }
  }

  /** The history only grows, so a version number keeps its meaning. */
  lemma {:induction false} HistoryGrows(x: Slot, steps: seq<Step>)
    requires CanRun(x, steps)
    ensures x.history <= Run(x, steps).history
    decreases |steps|
  {
    if steps != [] {
      HistoryGrows(Next(x, steps[0]), steps[1..]);
    }
  }

  /** A reader's later call never returns an older update than its earlier one. */
  lemma ReadsDoNotGoBack(x: Slot, r: nat, steps: seq<Step>)
    requires Inv(x) && r in x.readers && x.readers[r].Returned?
    requires CanRun(Next(x, BeginRead(r)), steps)
    requires forall i :: 0 <= i < |steps| ==> steps[i] != BeginRead(r)
    ensures var x' := Run(Next(x, BeginRead(r)), steps);
            && r in x'.readers
            && (x'.readers[r].Returned? ==> x.readers[r].version <= x'.readers[r].version)
  {
    assert ReaderOk(x, x.readers[r]);
    NextKeepsInv(x, BeginRead(r));
    FromStays(Next(x, BeginRead(r)), r, steps);
    ReadsAreAtomic(Next(x, BeginRead(r)), steps);
  }

  lemma {:induction false} FromStays(x: Slot, r: nat, steps: seq<Step>)
    requires r in x.readers && CanRun(x, steps)
    requires forall i :: 0 <= i < |steps| ==> steps[i] != BeginRead(r)
    ensures r in Run(x, steps).readers && Run(x, steps).readers[r].from == x.readers[r].from
    decreases |steps|
  {
    if steps != [] {
      assert steps[0] != BeginRead(r);
      FromStays(Next(x, steps[0]), r, steps[1..]);
    }
  }

  // ----- A read as a single step -----

  lemma {:induction false} RunSplit(x: Slot, steps: seq<Step>, i: nat)
    requires CanRun(x, steps) && i <= |steps|
    ensures CanRun(x, steps[..i]) && CanRun(Run(x, steps[..i]), steps[i..])
    ensures Run(x, steps) == Run(Run(x, steps[..i]), steps[i..])
    decreases |steps|
  {
    if i == 0 {
      assert steps[..0] == [] && steps[0..] == steps;
    } else {
      RunSplit(Next(x, steps[0]), steps[1..], i - 1);
      assert steps[..i][1..] == steps[1..][..i - 1] && steps[i..] == steps[1..][i - 1..];
    }
  }

  /** Updates complete one at a time, so every number between is passed. */
  lemma {:induction false} Passes(x: Slot, steps: seq<Step>, version: nat) returns (i: nat)
    requires CanRun(x, steps) && x.history != [] && Completed(x) <= version <= Completed(Run(x, steps))
    ensures i <= |steps| && CanRun(x, steps[..i]) && Completed(Run(x, steps[..i])) == version
    ensures Run(x, steps[..i]).history != []
    decreases |steps|
  {
    if Completed(x) == version {
      i := 0;
      assert steps[..0] == [];
    } else {
      var j := Passes(Next(x, steps[0]), steps[1..], version);
      i := j + 1;
      assert steps[..i][1..] == steps[1..][..j];
    }
  }

  /** A read takes effect at once: at some moment between its beginning and its end, what it returns
      is the triple of the update completed last. */
  lemma ReadTakesEffectAtOnce(x: Slot, r: nat, steps: seq<Step>) returns (i: nat)
    requires Inv(x) && Enabled(x, BeginRead(r)) && CanRun(Next(x, BeginRead(r)), steps)
    requires forall k :: 0 <= k < |steps| ==> steps[k] != BeginRead(r)
    requires r in Run(Next(x, BeginRead(r)), steps).readers
    requires Run(Next(x, BeginRead(r)), steps).readers[r].Returned?
    ensures i <= |steps| && CanRun(Next(x, BeginRead(r)), steps[..i])
    ensures var mid := Run(Next(x, BeginRead(r)), steps[..i]);
            && mid.history != []
            && mid.history[|mid.history| - 1] == Run(Next(x, BeginRead(r)), steps).readers[r].v
  {
    var x1 := Next(x, BeginRead(r));
    NextKeepsInv(x, BeginRead(r));
    FromStays(x1, r, steps);
    ReadsAreAtomic(x1, steps);
    i := Passes(x1, steps, Run(x1, steps).readers[r].version);
    RunSplit(x1, steps, i);
    HistoryGrows(Run(x1, steps[..i]), steps[i..]);
  }

  // ----- Nobody else moves -----

  lemma {:induction false} RunAppend(x: Slot, a: seq<Step>, b: seq<Step>)
    requires CanRun(x, a) && CanRun(Run(x, a), b)
    ensures CanRun(x, a + b) && Run(x, a + b) == Run(Run(x, a), b)
    decreases |a|
  {
    if a == [] {
      assert a + b == b;
    } else {
      RunAppend(Next(x, a[0]), a[1..], b);
      assert (a + b)[1..] == a[1..] + b;
    }
  }

  lemma Then(x: Slot, a: seq<Step>, s: Step) returns (b: seq<Step>)
    requires CanRun(x, a) && Enabled(Run(x, a), s)
    ensures b == a + [s] && CanRun(x, b) && Run(x, b) == Next(Run(x, a), s)
  {
    b := a + [s];
    assert [s][1..] == [];
    RunAppend(x, a, [s]);
  }

  /** An update that nobody interrupts completes: the slot holds the new triple and the history ends
      with it. */
  lemma UpdateAlone(x: Slot, v: Triple) returns (steps: seq<Step>)
    requires x.writer.Resting?
    ensures CanRun(x, steps)
    ensures Run(x, steps) == x.(seqNo := x.seqNo + 2, total := v.total, success := v.success, failed := v.failed,
                                history := x.history + [v])
  {
    steps := Then(x, [], BeginUpdate(v));
    steps := Then(x, steps, Write);
    steps := Then(x, steps, Write);
    steps := Then(x, steps, Write);
    steps := Then(x, steps, Write);
  }

  /** A read that no update interrupts returns at the first try, with the triple of the update completed
      last. */
  lemma ReadAlone(x: Slot, r: nat) returns (steps: seq<Step>)
    requires Inv(x) && x.writer.Resting? && Enabled(x, BeginRead(r))
    ensures CanRun(x, steps) && |steps| == 6
    ensures Run(x, steps)
            == x.(readers := x.readers[r := Returned(Completed(x), x.history[|x.history| - 1], Completed(x))])
  {
    steps := Then(x, [], BeginRead(r));
    steps := Then(x, steps, Read(r));
    steps := Then(x, steps, Read(r));
    steps := Then(x, steps, Read(r));
    steps := Then(x, steps, Read(r));
    steps := Then(x, steps, Read(r));
    assert Run(x, steps).readers == x.readers[r := Returned(Completed(x), x.history[|x.history| - 1], Completed(x))];
  }
}
