/** The timeout scan run by any number of nodes at once. A scan is cut at each of its Redis
    commands (range query, claim, hash read, put-back or removal); between two of them any other
    scanner may move, any manager call may run as a whole, and any hash may expire. */
module ScanProtocol {
  import opened Text
  import opened StreamTasks
  import opened TaskCodec
  import opened Registry
  import opened Rollback

  datatype Scanner =
    | Idle
    | Scanning(now: int, timeout: int, rest: seq<string>)
    | Claimed(now: int, timeout: int, rest: seq<string>, key: string)
    | PutBack(now: int, timeout: int, rest: seq<string>, key: string, score: int)
    | Doomed(now: int, timeout: int, rest: seq<string>, task: StreamTask)

  datatype Claim = Claim(scanner: nat, stamp: nat)
  datatype Report = Report(scanner: nat, task: StreamTask, cutoff: int)

  /** Besides the store and the scanners, the history needed to state the claims: every insertion
      into the timestamp set gets its own stamp, and claims and reports are recorded. */
  datatype System = System(
    st: Store,
    scanners: map<nat, Scanner>,
    stamps: map<string, nat>,
    next: nat,
    claims: seq<Claim>,
    reports: seq<Report>)

  datatype Step =
    | DoRegister(task: StreamTask, at: int)
    | DoFailing(task: StreamTask, at: int, faults: Faults)
    | DoDeregister(stream: string, client: string)
    | DoTouch(stream: string, client: string, at: int)
    | DoExpire(key: string)
    | DoBatch(targets: seq<Target>)
    | DoClear(stream: string)
    | BeginScan(p: nat, now: int, timeout: int, keys: seq<string>)
    | TryClaim(p: nat)
    | ReadBack(p: nat)
    | Finish(p: nat)

  function ScannerAt(x: System, p: nat): Scanner {
    if p in x.scanners then x.scanners[p] else Idle
  }

  ghost predicate Enabled(x: System, s: Step) {
    match s
    case BeginScan(p, now, timeout, keys) =>
      ScannerAt(x, p).Idle? && IsRange(x.st.zset, now - timeout, keys)
    case TryClaim(p) => ScannerAt(x, p).Scanning? && ScannerAt(x, p).rest != []
    case ReadBack(p) => ScannerAt(x, p).Claimed?
    case Finish(p) =>
      var c := ScannerAt(x, p);
      c.PutBack? || c.Doomed? || (c.Scanning? && c.rest == [])
    case _ => true
  }

  // ----- What a manager call does to the stamps -----

  /** After a call that leaves `st`, keys that left the set lose their stamp and the inserted key,
      if any, gets a new one. */
  function Restamp(x: System, st: Store, inserted: Option<string>): System {
    x.(st := st,
       stamps := map k | k in st.zset && (k in x.stamps || inserted == Some(k)) ::
         if inserted == Some(k) then x.next else x.stamps[k],
       next := x.next + 1)
  }

  function With(x: System, p: nat, c: Scanner): System {
    x.(scanners := x.scanners[p := c])
  }

  function Next(x: System, s: Step): System
    requires Enabled(x, s)
  {
    match s
    case DoRegister(t, now) =>
      var (st, ok) := Register(x.st, t, now);
      Restamp(x, st, if ok then Some(TaskKey(t.stream, t.client)) else None)
    case DoFailing(t, now, f) =>
      var (st, ok) := FaultyRegister(x.st, t, now, f);
      Restamp(x, st, if ok then Some(TaskKey(t.stream, t.client)) else None)
    case DoDeregister(stream, client) => Restamp(x, Deregister(x.st, stream, client), None)
    case DoTouch(stream, client, now) => Restamp(x, Touch(x.st, stream, client, now), Some(TaskKey(stream, client)))
    case DoExpire(key) => Restamp(x, Expire(x.st, key), None)
    case DoBatch(targets) => Restamp(x, DropAll(x.st, targets), None)
    case DoClear(stream) => Restamp(x, ClearStream(x.st, stream), None)
    case BeginScan(p, now, timeout, keys) => With(x, p, Scanning(now, timeout, keys))
    case TryClaim(p) =>
      var c := x.scanners[p];
      var key, rest := c.rest[0], c.rest[1..];
      if key !in x.st.zset then With(x, p, Scanning(c.now, c.timeout, rest))
      else
        var x1 := Restamp(x, x.st.(zset := x.st.zset - {key}), None);
        var stamp := if key in x.stamps then x.stamps[key] else 0;
        With(x1, p, Claimed(c.now, c.timeout, rest, key)).(claims := x.claims + [Claim(p, stamp)])
    case ReadBack(p) =>
      var c := x.scanners[p];
      (match GetByKey(x.st, c.key)
       case None => With(x, p, Scanning(c.now, c.timeout, c.rest))
       case Some(t) =>
         if StillFresh(t, c.now, c.timeout) then With(x, p, PutBack(c.now, c.timeout, c.rest, c.key, LastMs(t)))
         else With(x, p, Doomed(c.now, c.timeout, c.rest, t)))
    case Finish(p) =>
      var c := x.scanners[p];
      if c.PutBack? then
        With(Restamp(x, x.st.(zset := x.st.zset[c.key := c.score]), Some(c.key)), p, Scanning(c.now, c.timeout, c.rest))
      else if c.Doomed? then
        With(Restamp(x, Deregister(x.st, c.task.stream, c.task.client), None), p, Scanning(c.now, c.timeout, c.rest))
          .(reports := x.reports + [Report(p, c.task, c.now - c.timeout)])
      else With(x, p, Idle)
  }

  const START := System(EMPTY, map[], map[], 0, [], [])

  ghost predicate CanRun(x: System, steps: seq<Step>)
    decreases |steps|
  {
    steps == [] || (Enabled(x, steps[0]) && CanRun(Next(x, steps[0]), steps[1..]))
  }

  ghost function Run(x: System, steps: seq<Step>): System
    requires CanRun(x, steps)
    decreases |steps|
  {
    if steps == [] then x else Run(Next(x, steps[0]), steps[1..])
  }

  // ----- Supervision -----

  /** The scanner has taken `key` out of the timestamp set and still owes it a decision. */
  predicate Holds(c: Scanner, key: string) {
    match c
    case Claimed(_, _, _, k) => k == key
    case PutBack(_, _, _, k, _) => k == key
    case Doomed(_, _, _, t) => TaskKey(t.stream, t.client) == key
    case _ => false
  }

  ghost predicate Held(x: System, key: string) {
    exists p :: p in x.scanners && Holds(x.scanners[p], key)
  }

  ghost predicate Supervised(x: System) {
    forall k :: GetByKey(x.st, k).Some? ==> k in x.st.zset || Held(x, k)
  }

  /** A manager call leaves no readable task unsupervised that was not so before. */
  ghost predicate LosesNone(st: Store, st': Store) {
    forall k :: GetByKey(st', k).Some? && k !in st'.zset ==> GetByKey(st, k).Some? && k !in st.zset
  }

  lemma DeregisterLosesNone(st: Store, stream: string, client: string)
    requires NamesMatch(st)
    ensures LosesNone(st, Deregister(st, stream, client)) && NamesMatch(Deregister(st, stream, client))
  {
    var st', key := Deregister(st, stream, client), TaskKey(stream, client);
    DeregisterReach(st, stream, client);
    forall k | k != key
      ensures GetByKey(st', k) == GetByKey(st, k) && (k in st'.zset <==> k in st.zset)
      ensures k in st'.tasks ==> k in st.tasks && st'.tasks[k] == st.tasks[k]
    {
      SameButAt(st, st', key, k);
    }
  }

  lemma FailingLosesNone(st: Store, t: StreamTask, now: int, f: Faults)
    requires NamesMatch(st)
    ensures LosesNone(st, FaultyRegister(st, t, now, f).0) && NamesMatch(FaultyRegister(st, t, now, f).0)
  {
    var st', key := FaultyRegister(st, t, now, f).0, TaskKey(t.stream, t.client);
    FaultyReach(st, t, now, f);
    forall k | k != key
      ensures GetByKey(st', k) == GetByKey(st, k) && (k in st'.zset <==> k in st.zset)
      ensures k in st'.tasks ==> k in st.tasks && st'.tasks[k] == st.tasks[k]
    {
      SameButAt(st, st', key, k);
    }
  }

  lemma {:induction false} DropAllLosesNone(st: Store, gs: seq<Target>)
    requires NamesMatch(st)
    ensures LosesNone(st, DropAll(st, gs)) && NamesMatch(DropAll(st, gs))
  {
    if gs != [] {
      DropAllLosesNone(st, gs[..|gs| - 1]);
    }
  }

  ghost predicate Manager(s: Step) {
    s.DoRegister? || s.DoFailing? || s.DoDeregister? || s.DoTouch? || s.DoExpire? || s.DoBatch? || s.DoClear?
  }

  lemma ManagerKeepsSupervision(x: System, s: Step)
    requires Manager(s) && NamesMatch(x.st) && Supervised(x)
    ensures NamesMatch(Next(x, s).st) && Supervised(Next(x, s))
  {
    var x' := Next(x, s);
    match s {
      case DoRegister(t, now) =>
        WithoutFaults(x.st, t, now);
        FailingLosesNone(x.st, t, now, NO_FAULTS);
      case DoFailing(t, now, f) => FailingLosesNone(x.st, t, now, f);
      case DoDeregister(stream, client) => DeregisterLosesNone(x.st, stream, client);
      case DoBatch(targets) => DropAllLosesNone(x.st, targets);
      case DoTouch(_, _, _) =>
      case DoExpire(_) =>
      case DoClear(_) =>
    }
    assert LosesNone(x.st, x'.st);
    forall k | GetByKey(x'.st, k).Some? && k !in x'.st.zset
      ensures Held(x', k)
    {
      assert Held(x, k);
    }
  }

  /** A scanner step leaves a key without supervision only by taking it in hand, and lets go of a
      key only when it is back in the set or unreadable. */
  lemma ScannerStepOwes(x: System, s: Step, k: string)
    requires !Manager(s) && Enabled(x, s) && NamesMatch(x.st)
    requires GetByKey(Next(x, s).st, k).Some? && k !in Next(x, s).st.zset
    ensures GetByKey(x.st, k).Some?
    ensures k in x.st.zset || Holds(ScannerAt(x, s.p), k) ==> Holds(ScannerAt(Next(x, s), s.p), k)
  {
    var c := ScannerAt(x, s.p);
    if s.Finish? && c.Doomed? {
      var key := TaskKey(c.task.stream, c.task.client);
      DeregisterReach(x.st, c.task.stream, c.task.client);
      if k != key {
        SameButAt(x.st, Next(x, s).st, key, k);
      }
    }
  }

  lemma ScannerKeepsSupervision(x: System, s: Step)
    requires !Manager(s) && Enabled(x, s) && NamesMatch(x.st) && Supervised(x)
    ensures NamesMatch(Next(x, s).st) && Supervised(Next(x, s))
  {
    var x' := Next(x, s);
    assert NamesMatch(x'.st);
    forall k | GetByKey(x'.st, k).Some? && k !in x'.st.zset
      ensures Held(x', k)
    {
      ScannerStepOwes(x, s, k);
      if k in x.st.zset || Holds(ScannerAt(x, s.p), k) {
        assert Holds(x'.scanners[s.p], k);
      } else {
        var q :| q in x.scanners && Holds(x.scanners[q], k);
        assert Holds(x'.scanners[q], k);
      }
    }
  }

  /** No live task ever drops out of timeout supervision: in every run, each readable task hash is
      in the timestamp set or in the hands of a scanner that has not finished with it. */
  lemma {:induction false} AlwaysSupervised(x: System, steps: seq<Step>)
    requires NamesMatch(x.st) && Supervised(x) && CanRun(x, steps)
    ensures NamesMatch(Run(x, steps).st) && Supervised(Run(x, steps))
    decreases |steps|
  {
    if steps != [] {
      if Manager(steps[0]) {
        ManagerKeepsSupervision(x, steps[0]);
      } else {
        ScannerKeepsSupervision(x, steps[0]);
      }
      AlwaysSupervised(Next(x, steps[0]), steps[1..]);
    }
  }

  /** From the empty store, whenever no scanner is between a claim and its decision, every readable
      task is in the timestamp set. */
  lemma SupervisedWhenQuiet(steps: seq<Step>)
    requires CanRun(START, steps)
    ensures Supervised(Run(START, steps))
    ensures var x := Run(START, steps);
            (forall p :: p in x.scanners ==> x.scanners[p].Idle? || x.scanners[p].Scanning?) ==>
              forall k :: GetByKey(x.st, k).Some? ==> k in x.st.zset
  {
    AlwaysSupervised(START, steps);
  }

  // ----- Claims are exclusive -----

  ghost predicate InsertionsApart(x: System) {
    && x.stamps.Keys == x.st.zset.Keys
    && (forall k :: k in x.stamps ==> x.stamps[k] < x.next)
    && (forall k, k' :: k in x.stamps && k' in x.stamps && k != k' ==> x.stamps[k] != x.stamps[k'])
  }

  ghost predicate ClaimsApart(x: System) {
    && (forall i :: 0 <= i < |x.claims| ==> x.claims[i].stamp < x.next)
    && (forall i, k :: 0 <= i < |x.claims| && k in x.stamps ==> x.claims[i].stamp != x.stamps[k])
    && (forall i, j :: 0 <= i < j < |x.claims| ==> x.claims[i].stamp != x.claims[j].stamp)
  }

  ghost predicate StampsOk(x: System) {
    InsertionsApart(x) && ClaimsApart(x)
  }

  lemma {:induction false} DropAllZset(st: Store, gs: seq<Target>)
    ensures DropAll(st, gs).zset == st.zset
  {
    if gs != [] {
      DropAllZset(st, gs[..|gs| - 1]);
    }
  }

  /** The call inserts at most `inserted` into the timestamp set. */
  ghost predicate InsertsOnly(st: Store, st': Store, inserted: Option<string>) {
    match inserted
    case None => st'.zset.Keys <= st.zset.Keys
    case Some(k) => k in st'.zset && st'.zset.Keys <= st.zset.Keys + {k}
  }

  lemma RestampKeys(x: System, st: Store, inserted: Option<string>)
    requires x.stamps.Keys == x.st.zset.Keys && InsertsOnly(x.st, st, inserted)
    ensures Restamp(x, st, inserted).stamps.Keys == st.zset.Keys
    ensures forall k :: k in st.zset && inserted != Some(k) ==>
              k in x.stamps && Restamp(x, st, inserted).stamps[k] == x.stamps[k]
  {
  }

  lemma RestampInsertions(x: System, st: Store, inserted: Option<string>)
    requires InsertionsApart(x) && InsertsOnly(x.st, st, inserted)
    ensures InsertionsApart(Restamp(x, st, inserted))
  {
    RestampKeys(x, st, inserted);
    var x' := Restamp(x, st, inserted);
    assert forall k :: k in x'.stamps ==> x'.stamps[k] == if inserted == Some(k) then x.next else x.stamps[k];
  }

  lemma RestampClaims(x: System, st: Store, inserted: Option<string>)
    requires x.stamps.Keys == x.st.zset.Keys && ClaimsApart(x) && InsertsOnly(x.st, st, inserted)
    ensures ClaimsApart(Restamp(x, st, inserted))
  {
    RestampKeys(x, st, inserted);
    var x' := Restamp(x, st, inserted);
    assert forall k :: k in x'.stamps ==> x'.stamps[k] == x.next || (k in x.stamps && x'.stamps[k] == x.stamps[k]);
  }

  lemma RestampOk(x: System, st: Store, inserted: Option<string>)
    requires StampsOk(x) && InsertsOnly(x.st, st, inserted)
    ensures StampsOk(Restamp(x, st, inserted))
  {
    RestampInsertions(x, st, inserted);
    RestampClaims(x, st, inserted);
  }

  lemma ManagerStampsOk(x: System, s: Step)
    requires StampsOk(x) && Manager(s)
    ensures StampsOk(Next(x, s))
  {
    match s {
      case DoRegister(t, now) =>
        RegisterReach(x.st, t, now);
        var (st, ok) := Register(x.st, t, now);
        RestampOk(x, st, if ok then Some(TaskKey(t.stream, t.client)) else None);
      case DoFailing(t, now, f) =>
        FaultyReach(x.st, t, now, f);
        var (st, ok) := FaultyRegister(x.st, t, now, f);
        RestampOk(x, st, if ok then Some(TaskKey(t.stream, t.client)) else None);
      case DoDeregister(stream, client) => RestampOk(x, Deregister(x.st, stream, client), None);
      case DoTouch(stream, client, now) =>
        RestampOk(x, Touch(x.st, stream, client, now), Some(TaskKey(stream, client)));
      case DoExpire(key) => RestampOk(x, Expire(x.st, key), None);
      case DoBatch(targets) =>
        DropAllZset(x.st, targets);
        RestampOk(x, DropAll(x.st, targets), None);
      case DoClear(stream) => RestampOk(x, ClearStream(x.st, stream), None);
    }
  }

  lemma AddClaim(x: System, claim: Claim)
    requires StampsOk(x) && claim.stamp < x.next
    requires forall i :: 0 <= i < |x.claims| ==> x.claims[i].stamp != claim.stamp
    requires forall k :: k in x.stamps ==> x.stamps[k] != claim.stamp
    ensures StampsOk(x.(claims := x.claims + [claim]))
  {
  }

  lemma ClaimStampsOk(x: System, p: nat)
    requires StampsOk(x) && Enabled(x, TryClaim(p))
    ensures StampsOk(Next(x, TryClaim(p)))
  {
    var key := x.scanners[p].rest[0];
    if key in x.st.zset {
      var st := x.st.(zset := x.st.zset - {key});
      RestampOk(x, st, None);
      RestampKeys(x, st, None);
      AddClaim(Restamp(x, st, None), Claim(p, x.stamps[key]));
    }
  }

  lemma NextStampsOk(x: System, s: Step)
    requires StampsOk(x) && Enabled(x, s)
    ensures StampsOk(Next(x, s))
  {
    if Manager(s) {
      ManagerStampsOk(x, s);
    } else if s.TryClaim? {
      ClaimStampsOk(x, s.p);
    } else if s.Finish? && x.scanners[s.p].PutBack? {
      var c := x.scanners[s.p];
      RestampOk(x, x.st.(zset := x.st.zset[c.key := c.score]), Some(c.key));
    } else if s.Finish? && x.scanners[s.p].Doomed? {
      var c := x.scanners[s.p];
      RestampOk(x, Deregister(x.st, c.task.stream, c.task.client), None);
    }
  }

  /** Each insertion into the timestamp set is claimed at most once, by one scanner, in every run. */
  lemma {:induction false} ClaimsAreExclusive(x: System, steps: seq<Step>)
    requires StampsOk(x) && CanRun(x, steps)
    ensures StampsOk(Run(x, steps))
    ensures forall i, j :: 0 <= i < j < |Run(x, steps).claims| ==>
              Run(x, steps).claims[i].stamp != Run(x, steps).claims[j].stamp
    decreases |steps|
  {
    if steps != [] {
      NextStampsOk(x, steps[0]);
      ClaimsAreExclusive(Next(x, steps[0]), steps[1..]);
    }
  }

  // ----- Heartbeats against the double check -----

  ghost predicate DecisionsOk(x: System) {
    && (forall p :: p in x.scanners && x.scanners[p].Doomed? ==>
          LastMs(x.scanners[p].task) <= x.scanners[p].now - x.scanners[p].timeout)
    && (forall p :: p in x.scanners && x.scanners[p].PutBack? ==>
          x.scanners[p].now - x.scanners[p].timeout < x.scanners[p].score)
    && (forall i :: 0 <= i < |x.reports| ==> LastMs(x.reports[i].task) <= x.reports[i].cutoff)
  }

  lemma NextDecisions(x: System, s: Step)
    requires DecisionsOk(x) && Enabled(x, s)
    ensures DecisionsOk(Next(x, s))
  {
    if Manager(s) {
      assert Next(x, s).scanners == x.scanners && Next(x, s).reports == x.reports;
    }
  }

  /** Whatever a scan reports was, when it was read, last active at or before the scan's cutoff. */
  lemma {:induction false} ReportsAreStale(x: System, steps: seq<Step>)
    requires DecisionsOk(x) && CanRun(x, steps)
    ensures DecisionsOk(Run(x, steps))
    decreases |steps|
  {
    if steps != [] {
      NextDecisions(x, steps[0]);
      ReportsAreStale(Next(x, steps[0]), steps[1..]);
    }
  }

  /** The hash under `key`, if readable, was active after `cutoff`. */
  ghost predicate FreshOrGone(st: Store, key: string, cutoff: int) {
    GetByKey(st, key).Some? ==> cutoff < LastMs(GetByKey(st, key).value)
  }

  /** The step does not write an activity time at or before `cutoff` under `key`: later heartbeats
      and registrations are at least as new. */
  predicate WritesFresh(s: Step, key: string, cutoff: int) {
    match s
    case DoTouch(stream, client, now) => TaskKey(stream, client) == key ==> cutoff < now
    case DoRegister(t, _) => TaskKey(t.stream, t.client) == key ==> cutoff < LastMs(t)
    case DoFailing(t, _, _) => TaskKey(t.stream, t.client) == key ==> cutoff < LastMs(t)
    case _ => true
  }

  lemma {:induction false} DropAllHashes(st: Store, gs: seq<Target>, key: string)
    ensures key in DropAll(st, gs).tasks ==> key in st.tasks && DropAll(st, gs).tasks[key] == st.tasks[key]
  {
    if gs != [] {
      DropAllHashes(st, gs[..|gs| - 1], key);
    }
  }

  lemma TouchIsRead(st: Store, stream: string, client: string, now: int)
    ensures GetTask(Touch(st, stream, client, now), stream, client).Some? ==>
              LastMs(GetTask(Touch(st, stream, client, now), stream, client).value) == now
  {
    MsRoundTrip(now);
  }

  lemma FailingFresh(st: Store, t: StreamTask, now: int, f: Faults, key: string, cutoff: int)
    requires FreshOrGone(st, key, cutoff) && (TaskKey(t.stream, t.client) == key ==> cutoff < LastMs(t))
    ensures FreshOrGone(FaultyRegister(st, t, now, f).0, key, cutoff)
  {
    FaultyReach(st, t, now, f);
    if TaskKey(t.stream, t.client) != key {
      SameButAt(st, FaultyRegister(st, t, now, f).0, TaskKey(t.stream, t.client), key);
    }
  }

  lemma DeregisterFresh(st: Store, stream: string, client: string, key: string, cutoff: int)
    requires FreshOrGone(st, key, cutoff)
    ensures FreshOrGone(Deregister(st, stream, client), key, cutoff)
  {
  }

  lemma NextFresh(x: System, s: Step, key: string, cutoff: int)
    requires Enabled(x, s) && FreshOrGone(x.st, key, cutoff) && WritesFresh(s, key, cutoff)
    ensures FreshOrGone(Next(x, s).st, key, cutoff)
  {
    match s
    case DoTouch(stream, client, now) => TouchIsRead(x.st, stream, client, now);
    case DoRegister(t, now) =>
      WithoutFaults(x.st, t, now);
      FailingFresh(x.st, t, now, NO_FAULTS, key, cutoff);
    case DoFailing(t, now, f) => FailingFresh(x.st, t, now, f, key, cutoff);
    case DoDeregister(stream, client) => DeregisterFresh(x.st, stream, client, key, cutoff);
    case DoBatch(targets) => DropAllHashes(x.st, targets, key);
    case Finish(p) =>
      if x.scanners[p].Doomed? {
        var t := x.scanners[p].task;
        DeregisterFresh(x.st, t.stream, t.client, key, cutoff);
      }
    case _ =>
  }

  lemma {:induction false} RunFresh(x: System, steps: seq<Step>, key: string, cutoff: int)
    requires CanRun(x, steps) && FreshOrGone(x.st, key, cutoff)
    requires forall i :: 0 <= i < |steps| ==> WritesFresh(steps[i], key, cutoff)
    ensures FreshOrGone(Run(x, steps).st, key, cutoff)
    decreases |steps|
  {
    if steps != [] {
      NextFresh(x, steps[0], key, cutoff);
      RunFresh(Next(x, steps[0]), steps[1..], key, cutoff);
    }
  }

  lemma FreshReadPutsBack(x: System, p: nat, key: string)
    requires ScannerAt(x, p).Claimed? && ScannerAt(x, p).key == key
    requires FreshOrGone(x.st, key, ScannerAt(x, p).now - ScannerAt(x, p).timeout)
    ensures var x' := Next(x, ReadBack(p));
            match GetByKey(x.st, key)
            case None => x'.scanners[p].Scanning?
            case Some(t) =>
              && x'.scanners[p].PutBack?
              && Next(x', Finish(p)).st == x.st.(zset := x.st.zset[key := LastMs(t)])
              && Next(x', Finish(p)).reports == x.reports
  {
  }

  /** A heartbeat newer than a scan's cutoff that lands before the scan reads the hash, with any
      steps in between, saves the task: the scan does not doom it, and if it is still there it goes
      back into the timestamp set with its own last-active time as score. */
  lemma HeartbeatBeforeReadSaves(x: System, stream: string, client: string, beat: int, steps: seq<Step>,
                                 p: nat, x1: System)
    requires CanRun(Next(x, DoTouch(stream, client, beat)), steps)
    requires x1 == Run(Next(x, DoTouch(stream, client, beat)), steps)
    requires var c := ScannerAt(x1, p);
             && c.Claimed? && c.key == TaskKey(stream, client) && c.now - c.timeout < beat
             && forall i :: 0 <= i < |steps| ==> WritesFresh(steps[i], c.key, c.now - c.timeout)
    ensures var x2 := Next(x1, ReadBack(p));
            match GetTask(x1.st, stream, client)
            case None => x2.scanners[p].Scanning?
            case Some(t) =>
              && x2.scanners[p].PutBack?
              && Next(x2, Finish(p)).st == x1.st.(zset := x1.st.zset[TaskKey(stream, client) := LastMs(t)])
              && Next(x2, Finish(p)).reports == x1.reports
  {
    var c := ScannerAt(x1, p);
    TouchIsRead(x.st, stream, client, beat);
    RunFresh(Next(x, DoTouch(stream, client, beat)), steps, c.key, c.now - c.timeout);
    FreshReadPutsBack(x1, p, c.key);
  }
}
