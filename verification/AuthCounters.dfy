/** The statistics of the authorisation repository under concurrent callers. The counters are atomics,
    each raised in its own step; what the cache and the database answer is left open. */
module AuthCounters {
  /** What the database gives: a row that passes validation, one that does not, no row, an error. */
  datatype Outcome = GoodRow | BadRow | NoRow | Fault

  /** Where a caller is in `getAuthData`. */
  datatype Caller =
    | Resting
    | Asked
    | SawHit(good: bool)       // cached data found, not yet counted; does it match the request?
    | SawMiss                  // nothing found, not yet counted
    | Querying
    | Queried(o: Outcome)      // database has answered, not yet counted
    | Failing                  // validation has failed, not yet counted
    | Returning                // about to return data

  datatype System = System(callers: seq<Caller>, requests: nat, results: nat,
                           hits: nat, misses: nat, dbHits: nat, dbMisses: nat, dbErrors: nat,
                           validationFailures: nat)

  datatype Step =
    | Ask(p: nat)
    | Look(p: nat, found: bool, good: bool)
    | CountLook(p: nat)
    | Query(p: nat, o: Outcome)
    | CountQuery(p: nat)
    | CountFailure(p: nat)
    | Return(p: nat)

  predicate Enabled(x: System, s: Step) {
    && s.p < |x.callers|
    && var c := x.callers[s.p];
       match s
       case Ask(_) => c.Resting?
       case Look(_, _, _) => c.Asked?
       case CountLook(_) => c.SawHit? || c.SawMiss?
       case Query(_, _) => c.Querying?
       case CountQuery(_) => c.Queried?
       case CountFailure(_) => c.Failing?
       case Return(_) => c.Returning?
  }

  function With(x: System, p: nat, c: Caller): System
    requires p < |x.callers|
  {
    x.(callers := x.callers[p := c])
  }

  function Next(x: System, s: Step): System
    requires Enabled(x, s)
  {
    var c := x.callers[s.p];
    match s
    case Ask(p) => With(x, p, Asked).(requests := x.requests + 1)
    case Look(p, found, good) => With(x, p, if found then SawHit(good) else SawMiss)
    case CountLook(p) =>
      if c.SawMiss? then With(x, p, Querying).(misses := x.misses + 1)
      else With(x, p, if c.good then Returning else Failing).(hits := x.hits + 1)
    case Query(p, o) => With(x, p, Queried(o))
    case CountQuery(p) =>
      (match c.o
       case GoodRow => With(x, p, Returning).(dbHits := x.dbHits + 1)
       case BadRow => With(x, p, Failing).(dbHits := x.dbHits + 1)
       case NoRow => With(x, p, Resting).(dbMisses := x.dbMisses + 1)
       case Fault => With(x, p, Resting).(dbErrors := x.dbErrors + 1))
    case CountFailure(p) => With(x, p, Resting).(validationFailures := x.validationFailures + 1)
    case Return(p) => With(x, p, Resting).(results := x.results + 1)
  }

  predicate CanRun(x: System, steps: seq<Step>)
    decreases |steps|
  {
    steps == [] || (Enabled(x, steps[0]) && CanRun(Next(x, steps[0]), steps[1..]))
  }

  function Run(x: System, steps: seq<Step>): System
    requires CanRun(x, steps)
    decreases |steps|
  {
    if steps == [] then x else Run(Next(x, steps[0]), steps[1..])
  }

  function Start(callers: nat): System {
    System(seq(callers, _ => Resting), 0, 0, 0, 0, 0, 0, 0, 0)
  }

  // ----- What is on its way -----

  predicate BeforeLook(c: Caller) {
    c.Asked? || c.SawHit? || c.SawMiss?
  }

  predicate InDatabase(c: Caller) {
    c.Querying? || c.Queried?
  }

  predicate Deciding(c: Caller) {
    c.Failing? || c.Returning?
  }

  function Count(callers: seq<Caller>, n: nat, kind: Caller -> bool): nat
    requires n <= |callers|
  {
    if n == 0 then 0 else Count(callers, n - 1, kind) + if kind(callers[n - 1]) then 1 else 0
  }

  function In(x: System, kind: Caller -> bool): nat {
    Count(x.callers, |x.callers|, kind)
  }

  function Unit(b: bool): int {
    if b then 1 else 0
  }

  lemma {:induction false} CountSet(callers: seq<Caller>, n: nat, kind: Caller -> bool, p: nat, c: Caller)
    requires n <= |callers| && p < |callers|
    ensures Count(callers[p := c], n, kind)
            == Count(callers, n, kind) + if p < n then Unit(kind(c)) - Unit(kind(callers[p])) else 0
  {
    if n > 0 {
      CountSet(callers, n - 1, kind, p, c);
    }
  }

  lemma {:induction false} CountNone(callers: seq<Caller>, n: nat, kind: Caller -> bool)
    requires n <= |callers| && forall i :: 0 <= i < n ==> !kind(callers[i])
    ensures Count(callers, n, kind) == 0
  {
    if n > 0 {
      CountNone(callers, n - 1, kind);
    }
  }

  ghost predicate Balanced(x: System) {
    && x.requests == x.hits + x.misses + In(x, BeforeLook)
    && x.misses == x.dbHits + x.dbMisses + x.dbErrors + In(x, InDatabase)
    && x.hits + x.dbHits - x.validationFailures == x.results + In(x, Deciding)
  }

  lemma StepCounts(x: System, s: Step, kind: Caller -> bool)
    requires Enabled(x, s)
    ensures |Next(x, s).callers| == |x.callers|
    ensures In(Next(x, s), kind) == In(x, kind) + Unit(kind(Next(x, s).callers[s.p])) - Unit(kind(x.callers[s.p]))
  {
    var x' := Next(x, s);
    CountSet(x.callers, |x.callers|, kind, s.p, x'.callers[s.p]);
    assert x'.callers == x.callers[s.p := x'.callers[s.p]];
  }

  lemma NextBalanced(x: System, s: Step)
    requires Balanced(x) && Enabled(x, s)
    ensures Balanced(Next(x, s))
  {
    StepCounts(x, s, BeforeLook);
    StepCounts(x, s, InDatabase);
    StepCounts(x, s, Deciding);
  }

  lemma {:induction false} RunBalanced(x: System, steps: seq<Step>)
    requires Balanced(x) && CanRun(x, steps)
    ensures Balanced(Run(x, steps))
    decreases |steps|
  {
    if steps != [] {
      NextBalanced(x, steps[0]);
      RunBalanced(Next(x, steps[0]), steps[1..]);
    }
  }

  /** In every interleaving of any number of callers: requests are hits, misses and those not yet counted;
      misses are the three database outcomes and those in the database; hits and database hits less the
      validation failures are the results returned and those not yet decided. Whenever nobody is at work
      the statistics add up exactly. */
  lemma StatisticsBalance(callers: nat, steps: seq<Step>)
    requires CanRun(Start(callers), steps)
    ensures Balanced(Run(Start(callers), steps))
    ensures var x := Run(Start(callers), steps);
            (forall i :: 0 <= i < |x.callers| ==> x.callers[i].Resting?) ==>
              && x.requests == x.hits + x.misses
              && x.misses == x.dbHits + x.dbMisses + x.dbErrors
              && x.results == x.hits + x.dbHits - x.validationFailures
  {
    var x0 := Start(callers);
    CountNone(x0.callers, callers, BeforeLook);
    CountNone(x0.callers, callers, InDatabase);
    CountNone(x0.callers, callers, Deciding);
    RunBalanced(x0, steps);
    var x := Run(x0, steps);
    if forall i :: 0 <= i < |x.callers| ==> x.callers[i].Resting? {
      CountNone(x.callers, |x.callers|, BeforeLook);
      CountNone(x.callers, |x.callers|, InDatabase);
      CountNone(x.callers, |x.callers|, Deciding);
    }
  }

  /** How many steps of the run were taken by a caller at `c`. */
  function Left(x: System, steps: seq<Step>, c: Caller): nat
    requires CanRun(x, steps)
    decreases |steps|
  {
    if steps == [] then 0
    else At(x, steps[0], c) + Left(Next(x, steps[0]), steps[1..], c)
  }

  function At(x: System, s: Step, c: Caller): nat
    requires Enabled(x, s)
  {
    if x.callers[s.p] == c then 1 else 0
  }

  lemma StepMeans(x: System, s: Step)
    requires Enabled(x, s)
    ensures var y := Next(x, s);
            && y.requests == x.requests + At(x, s, Resting) && y.results == x.results + At(x, s, Returning)
            && y.hits == x.hits + At(x, s, SawHit(true)) + At(x, s, SawHit(false)) && y.misses == x.misses + At(x, s, SawMiss)
            && y.dbHits == x.dbHits + At(x, s, Queried(GoodRow)) + At(x, s, Queried(BadRow))
            && y.dbMisses == x.dbMisses + At(x, s, Queried(NoRow)) && y.dbErrors == x.dbErrors + At(x, s, Queried(Fault))
            && y.validationFailures == x.validationFailures + At(x, s, Failing)
  {
  }

  /** Each counter rises by exactly the steps taken from the points it is named for. */
  lemma {:induction false} CountersMean(x: System, steps: seq<Step>)
    requires CanRun(x, steps)
    ensures var y := Run(x, steps);
            var n := c => Left(x, steps, c);
            && y.requests == x.requests + n(Resting) && y.results == x.results + n(Returning)
            && y.hits == x.hits + n(SawHit(true)) + n(SawHit(false)) && y.misses == x.misses + n(SawMiss)
            && y.dbHits == x.dbHits + n(Queried(GoodRow)) + n(Queried(BadRow))
            && y.dbMisses == x.dbMisses + n(Queried(NoRow)) && y.dbErrors == x.dbErrors + n(Queried(Fault))
            && y.validationFailures == x.validationFailures + n(Failing)
    decreases |steps|
  {
    if steps != [] {
      StepMeans(x, steps[0]);
      CountersMean(Next(x, steps[0]), steps[1..]);
    }
  }
}
