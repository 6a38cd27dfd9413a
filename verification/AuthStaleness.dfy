/** Concurrent requests against a changing database, cut at the cache read, the database query and
    the cache write. How old can an answer be, and whose answer is it? */
module AuthStaleness {
  import opened Text
  import opened AuthCache

  /** A version of the database, in force from `since` until the next version begins. */
  datatype Version = Version(since: int, db: Database)

  /** A cached record with the version and time at which it was read from the database, and how much
      later it was written to the cache. */
  datatype Held = Held(value: Cached, until: int, version: nat, readAt: int, delay: nat)

  datatype Caller =
    | Resting
    | Asking(q: Query)
    | Missed(q: Query)
    | Found(q: Query, d: AuthData, version: nat, readAt: int)
    | Refused(q: Query, negativeTtl: nat)
    | Mismatched(q: Query)
    | Answered(q: Query, result: Option<AuthData>, version: nat, readAt: int, delay: nat, at: int)

  /** `lag` is the longest delay of any record so far. */
  datatype System = System(ttl: nat, clock: int, versions: seq<Version>, cache: map<string, Held>,
                           callers: map<nat, Caller>, lag: nat)

  datatype Step =
    | Ask(p: nat, q: Query)
    | Look(p: nat)
    | Consult(p: nat)
    | Finish(p: nat)
    | Tick(to: int)
    | Change(db: Database)
    | Lose(key: string)

  function CallerAt(x: System, p: nat): Caller {
    if p in x.callers then x.callers[p] else Resting
  }

  predicate Enabled(x: System, s: Step) {
    && x.versions != []
    && match s
       case Ask(p, _) => CallerAt(x, p).Resting? || CallerAt(x, p).Answered?
       case Look(p) => CallerAt(x, p).Asking?
       case Consult(p) => CallerAt(x, p).Missed?
       case Finish(p) => CallerAt(x, p).Found? || CallerAt(x, p).Refused? || CallerAt(x, p).Mismatched?
       case Tick(to) => x.clock <= to
       case Change(_) => true
       case Lose(_) => true
  }

  function Last(x: System): nat
    requires x.versions != []
  {
    |x.versions| - 1
  }

  function With(x: System, p: nat, c: Caller): System {
    x.(callers := x.callers[p := c])
  }

  function Visible(x: System, key: string): Option<Held> {
    if key in x.cache && x.clock <= x.cache[key].until && x.cache[key].value.Data? then Some(x.cache[key]) else None
  }

  function LookUp(x: System, p: nat, q: Query): System {
    match Visible(x, CacheKey(q))
    case None => With(x, p, Missed(q))
    case Some(h) =>
      if !h.value.Data? then With(x, p, Missed(q))
      else if h.value.d.token == q.token && h.value.d.client == q.client
      then With(x, p, Answered(q, Some(h.value.d), h.version, h.readAt, h.delay, x.clock))
      else With(x, p, Mismatched(q))
  }

  function ConsultDatabase(x: System, p: nat, q: Query): System
    requires x.versions != []
  {
    match Lookup(x.versions[Last(x)].db, q)
    case NoRow => With(x, p, Refused(q, NEGATIVE_TTL))
    case Fault => With(x, p, Refused(q, ERROR_TTL))
    case Row(client, active) =>
      if Validates(RecordOf(q, client, active), q)
      then With(x, p, Found(q, RecordOf(q, client, active), Last(x), x.clock))
      else With(x, p, Answered(q, None, 0, x.clock, 0, x.clock))
  }

  function Later(a: nat, b: int): nat {
    if b <= a then a else b
  }

  function WriteBack(x: System, p: nat): System
    requires Enabled(x, Finish(p))
  {
    match x.callers[p]
    case Found(q, d, version, readAt) =>
      var delay := Later(0, x.clock - readAt);
      With(x, p, Answered(q, Some(d), version, readAt, delay, x.clock))
        .(cache := x.cache[CacheKey(q) := Held(Data(d), x.clock + x.ttl, version, readAt, delay)],
          lag := Later(x.lag, delay))
    case Refused(q, ttl) =>
      With(x, p, Answered(q, None, 0, x.clock, 0, x.clock))
        .(cache := x.cache[CacheKey(q) := Held(Empty, x.clock + ttl, 0, x.clock, 0)])
    case Mismatched(q) =>
      With(x, p, Answered(q, None, 0, x.clock, 0, x.clock)).(cache := x.cache - {CacheKey(q)})
    case _ => x
  }

  function Next(x: System, s: Step): System
    requires Enabled(x, s)
  {
    match s
    case Ask(p, q) => With(x, p, Asking(q))
    case Look(p) => LookUp(x, p, x.callers[p].q)
    case Consult(p) => ConsultDatabase(x, p, x.callers[p].q)
    case Finish(p) => WriteBack(x, p)
    case Tick(to) => x.(clock := to)
    case Change(db) => x.(versions := x.versions + [Version(x.clock, db)])
    case Lose(key) => x.(cache := x.cache - {key})
  }

  predicate CanRun(x: System, steps: seq<Step>)
    decreases |steps|
  {
    steps == [] || (Enabled(x, steps[0]) && CanRun(Next(x, steps[0]), steps[1..]))
  }

  function Run(x: System, steps: seq<Step>): System
    requires CanRun(x, steps)
    decreases |steps|
  {
    if steps == [] then x else Run(Next(x, steps[0]), steps[1..])
  }

  function Start(ttl: nat, clock: int, db: Database): System {
    System(ttl, clock, [Version(clock, db)], map[], map[], 0)
  }

  // ----- What an answer is worth -----

  /** The version was in force at that time. */
  ghost predicate InForce(x: System, version: nat, time: int) {
    && version < |x.versions|
    && x.versions[version].since <= time <= x.clock
    && (version + 1 < |x.versions| ==> time <= x.versions[version + 1].since)
  }

  /** The database itself answered this query with this record at that time. */
  ghost predicate WasAnswer(x: System, q: Query, d: AuthData, version: nat, time: int) {
    InForce(x, version, time) && Direct(x.versions[version].db, q) == Some(d)
  }

  ghost predicate HeldOk(x: System, key: string, h: Held) {
    h.value.Data? ==>
      var d := h.value.d;
      var q := Query(d.stream, d.client, d.token);
      && key == CacheKey(q)
      && WasAnswer(x, q, d, h.version, h.readAt)
      && h.until - x.ttl - h.delay <= h.readAt && h.delay <= x.lag
  }

  ghost predicate CallerOk(x: System, c: Caller) {
    match c
    case Found(q, d, version, readAt) => WasAnswer(x, q, d, version, readAt)
    case Answered(q, Some(d), version, readAt, delay, at) =>
      WasAnswer(x, q, d, version, readAt) && at - x.ttl - delay <= readAt && delay <= x.lag && at <= x.clock
    case _ => true
  }

  ghost predicate Inv(x: System) {
    && x.versions != [] && x.versions[Last(x)].since <= x.clock
    && (forall k :: k in x.cache ==> HeldOk(x, k, x.cache[k]))
    && (forall p :: p in x.callers ==> CallerOk(x, x.callers[p]))
  }

  /** What was true of a record stays true as time passes, the database changes and the lag grows. */
  lemma Persists(x: System, x': System)
    requires x'.ttl == x.ttl && x.clock <= x'.clock && x.lag <= x'.lag && x.versions != []
    requires x'.versions == x.versions || exists db :: x'.versions == x.versions + [Version(x.clock, db)]
    ensures forall k, h :: HeldOk(x, k, h) ==> HeldOk(x', k, h)
    ensures forall c :: CallerOk(x, c) ==> CallerOk(x', c)
  {
    forall version: nat, time | InForce(x, version, time)
      ensures InForce(x', version, time) && x'.versions[version] == x.versions[version]
    {
    }
  }

  lemma LookOk(x: System, p: nat)
    requires Inv(x) && Enabled(x, Look(p))
    ensures Inv(Next(x, Look(p)))
  {
    var q := x.callers[p].q;
    var x' := Next(x, Look(p));
    Persists(x, x');
    if Visible(x, CacheKey(q)).Some? {
      var d := x.cache[CacheKey(q)].value.d;
      assert HeldOk(x, CacheKey(q), x.cache[CacheKey(q)]);
      if d.client == q.client {
        KeyCancels(Query(d.stream, d.client, d.token), q);
      }
    }
  }

  lemma ConsultOk(x: System, p: nat)
    requires Inv(x) && Enabled(x, Consult(p))
    ensures Inv(Next(x, Consult(p)))
  {
    Persists(x, Next(x, Consult(p)));
  }

  lemma FinishOk(x: System, p: nat)
    requires Inv(x) && Enabled(x, Finish(p))
    ensures Inv(Next(x, Finish(p)))
  {
    var x' := Next(x, Finish(p));
    Persists(x, x');
    assert CallerOk(x, x.callers[p]);
    assert CallerOk(x', x.callers[p]);
  }

  lemma NextOk(x: System, s: Step)
    requires Inv(x) && Enabled(x, s)
    ensures Inv(Next(x, s))
  {
    match s
    case Look(p) => LookOk(x, p);
    case Consult(p) => ConsultOk(x, p);
    case Finish(p) => FinishOk(x, p);
    case Change(db) =>
      assert Next(x, s).versions == x.versions + [Version(x.clock, db)];
      Persists(x, Next(x, s));
    case _ => Persists(x, Next(x, s));
  }

  lemma {:induction false} RunOk(x: System, steps: seq<Step>)
    requires Inv(x) && CanRun(x, steps)
    ensures Inv(Run(x, steps)) && Run(x, steps).ttl == x.ttl
    decreases |steps|
  {
    if steps != [] {
      NextOk(x, steps[0]);
      RunOk(Next(x, steps[0]), steps[1..]);
    }
  }

  /** In every interleaving, with a database that changes at any time and ids that may contain colons,
      data returned for a query is what the database answered to that very query at some moment no
      further back than the cache TTL plus the delay with which that very record was cached. */
  lemma AnswersAreRecent(ttl: nat, clock: int, db: Database, steps: seq<Step>, p: nat)
    requires CanRun(Start(ttl, clock, db), steps)
    requires CallerAt(Run(Start(ttl, clock, db), steps), p).Answered?
    requires CallerAt(Run(Start(ttl, clock, db), steps), p).result.Some?
    ensures var x := Run(Start(ttl, clock, db), steps);
            var a := x.callers[p];
            && WasAnswer(x, a.q, a.result.value, a.version, a.readAt)
            && IsRow(x.versions[a.version].db, a.q, a.result.value)
            && a.at - ttl - a.delay <= a.readAt <= x.clock
            && a.delay <= x.lag
  {
    RunOk(Start(ttl, clock, db), steps);
    var x := Run(Start(ttl, clock, db), steps);
    var a := x.callers[p];
    assert CallerOk(x, a);
    DirectExact(x.versions[a.version].db, a.q, a.result.value);
  }

  // ----- The bound is exact -----

  /** Data answered to a caller was the database's answer at some moment in the last `age`. */
  ghost predicate Recent(x: System, p: nat, age: int) {
    var a := CallerAt(x, p);
    a.Answered? && a.result.Some? ==>
      exists version, time :: WasAnswer(x, a.q, a.result.value, version, time) && a.at - age <= time
  }

  const ASKED := Query("s", "c", "t")
  const ALLOWED := AuthData("s", "c", "t", true)

  lemma {:induction false} RunAppend(x: System, a: seq<Step>, b: seq<Step>)
    requires CanRun(x, a) && CanRun(Run(x, a), b)
    ensures CanRun(x, a + b) && Run(x, a + b) == Run(Run(x, a), b)
    decreases |a|
  {
    if a == [] {
      assert a + b == b;
    } else {
      RunAppend(Next(x, a[0]), a[1..], b);
      assert (a + b)[1..] == a[1..] + b;
    }
  }

  lemma Then(x: System, a: seq<Step>, s: Step) returns (b: seq<Step>)
    requires CanRun(x, a) && Enabled(Run(x, a), s)
    ensures b == a + [s] && CanRun(x, b) && Run(x, b) == Next(Run(x, a), s)
  {
    b := a + [s];
    assert [s][1..] == [];
    RunAppend(x, a, [s]);
  }

  const DATABASE: Database := map[ASKED := Row("c", true)]

  /** A row is read and at once deleted from the database; the record is cached `delay` later. */
  lemma CacheLate(ttl: nat, delay: nat) returns (steps: seq<Step>)
    ensures CanRun(Start(ttl, 0, DATABASE), steps)
    ensures var x := Run(Start(ttl, 0, DATABASE), steps);
            && x.ttl == ttl && x.clock == delay && x.lag == delay
            && x.versions == [Version(0, DATABASE), Version(0, map[])]
            && x.cache == map[CacheKey(ASKED) := Held(Data(ALLOWED), delay + ttl, 0, 0, delay)]
            && CallerAt(x, 0).Answered?
  {
    var x := Start(ttl, 0, DATABASE);
    steps := Then(x, [], Step.Ask(0, ASKED));
    steps := Then(x, steps, Look(0));
    steps := Then(x, steps, Consult(0));
    assert CallerAt(Run(x, steps), 0) == Found(ASKED, ALLOWED, 0, 0);
    steps := Then(x, steps, Change(map[]));
    steps := Then(x, steps, Tick(delay));
    steps := Then(x, steps, Finish(0));
  }

  /** It is then served in the last moment of its TTL. */
  lemma ServeStale(ttl: nat, delay: nat) returns (steps: seq<Step>)
    ensures CanRun(Start(ttl, 0, DATABASE), steps)
    ensures var x := Run(Start(ttl, 0, DATABASE), steps);
            && x.lag == delay
            && x.versions == [Version(0, DATABASE), Version(0, map[])]
            && CallerAt(x, 0) == Answered(ASKED, Some(ALLOWED), 0, 0, delay, delay + ttl)
  {
    var x := Start(ttl, 0, DATABASE);
    steps := CacheLate(ttl, delay);
    steps := Then(x, steps, Tick(delay + ttl));
    steps := Then(x, steps, Step.Ask(0, ASKED));
    steps := Then(x, steps, Look(0));
  }

  lemma StaleIsNotRecent(x: System, delay: nat, at: int, age: int)
    requires x.versions == [Version(0, DATABASE), Version(0, map[])]
    requires CallerAt(x, 0) == Answered(ASKED, Some(ALLOWED), 0, 0, delay, at) && age < at
    ensures !Recent(x, 0, age)
  {
    forall version, time | WasAnswer(x, ASKED, ALLOWED, version, time)
      ensures time <= 0
    {
    }
  }

  /** All runs whose records are cached within `lag` of being read give answers that were true at some
      moment in the last `age`, if and only if `age` is at least the TTL plus `lag`. */
  lemma StalenessExact(ttl: nat, lag: nat, age: int)
    ensures (forall clock, db, steps, p ::
               (CanRun(Start(ttl, clock, db), steps) && Run(Start(ttl, clock, db), steps).lag <= lag) ==>
               Recent(Run(Start(ttl, clock, db), steps), p, age))
            <==> ttl + lag <= age
  {
    if ttl + lag <= age {
      forall clock, db, steps, p: nat | CanRun(Start(ttl, clock, db), steps)
                                        && Run(Start(ttl, clock, db), steps).lag <= lag
        ensures Recent(Run(Start(ttl, clock, db), steps), p, age)
      {
        var x := Run(Start(ttl, clock, db), steps);
        if CallerAt(x, p).Answered? && CallerAt(x, p).result.Some? {
          AnswersAreRecent(ttl, clock, db, steps, p);
        }
      }
    } else {
      var steps := ServeStale(ttl, lag);
      StaleIsNotRecent(Run(Start(ttl, 0, DATABASE), steps), lag, lag + ttl, age);
      assert CanRun(Start(ttl, 0, DATABASE), steps);
    }
  }

  // ----- A database that does not change -----

  ghost predicate Frozen(steps: seq<Step>) {
    forall i :: 0 <= i < |steps| ==> !steps[i].Change?
  }

  /** The caller has, or is about to give, the answer of the database. */
  ghost predicate Truthful(db: Database, c: Caller) {
    match c
    case Found(q, d, _, _) => Direct(db, q) == Some(d)
    case Refused(q, _) => Direct(db, q).None?
    case Mismatched(q) => Direct(db, q).None?
    case Answered(q, result, _, _, _, _) => result == Direct(db, q)
    case _ => true
  }

  ghost predicate OwnAnswer(db: Database, key: string, h: Held) {
    h.value.Data? ==>
      var d := h.value.d;
      var q := Query(d.stream, d.client, d.token);
      key == CacheKey(q) && Direct(db, q) == Some(d)
  }

  ghost predicate AllTruthful(x: System, db: Database) {
    && |x.versions| == 1 && x.versions[0].db == db
    && (forall k :: k in x.cache ==> OwnAnswer(db, k, x.cache[k]))
    && (forall p :: p in x.callers ==> Truthful(db, x.callers[p]))
  }

  lemma LookTruthful(x: System, p: nat, db: Database)
    requires AllTruthful(x, db) && KeysApart(db) && Enabled(x, Look(p))
    ensures AllTruthful(Next(x, Look(p)), db)
  {
    var q := x.callers[p].q;
    if Visible(x, CacheKey(q)).Some? {
      var d := x.cache[CacheKey(q)].value.d;
      var own := Query(d.stream, d.client, d.token);
      assert OwnAnswer(db, CacheKey(q), x.cache[CacheKey(q)]);
      if d.client == q.client {
        KeyCancels(own, q);
      }
    }
  }

  lemma NextTruthful(x: System, s: Step, db: Database)
    requires AllTruthful(x, db) && KeysApart(db) && Enabled(x, s) && !s.Change?
    ensures AllTruthful(Next(x, s), db)
  {
    match s
    case Look(p) => LookTruthful(x, p, db);
    case Finish(p) => assert Truthful(db, x.callers[p]);
    case _ =>
  }

  lemma {:induction false} RunTruthful(x: System, steps: seq<Step>, db: Database)
    requires AllTruthful(x, db) && KeysApart(db) && CanRun(x, steps) && Frozen(steps)
    ensures AllTruthful(Run(x, steps), db)
    decreases |steps|
  {
    if steps != [] {
      assert !steps[0].Change?;
      NextTruthful(x, steps[0], db);
      RunTruthful(Next(x, steps[0]), steps[1..], db);
    }
  }

  /** Two queries under one key, one after the other. */
  lemma FirstIsCached(ttl: nat, db: Database, q: Query) returns (steps: seq<Step>)
    requires Direct(db, q).Some?
    ensures CanRun(Start(ttl, 0, db), steps) && Frozen(steps)
    ensures var x := Run(Start(ttl, 0, db), steps);
            && x.clock == 0 && CallerAt(x, 0).Answered? && x.versions != []
            && x.cache == map[CacheKey(q) := Held(Data(Direct(db, q).value), ttl, 0, 0, 0)]
  {
    var x := Start(ttl, 0, db);
    steps := Then(x, [], Step.Ask(0, q));
    steps := Then(x, steps, Look(0));
    steps := Then(x, steps, Consult(0));
    steps := Then(x, steps, Finish(0));
  }

  lemma SecondIsRefused(ttl: nat, db: Database, q: Query, q': Query) returns (steps: seq<Step>)
    requires Direct(db, q).Some? && Direct(db, q').Some? && CacheKey(q) == CacheKey(q') && q != q'
    ensures CanRun(Start(ttl, 0, db), steps) && Frozen(steps)
    ensures var c := CallerAt(Run(Start(ttl, 0, db), steps), 0);
            c.Answered? && c.q == q' && c.result.None?
  {
    var x := Start(ttl, 0, db);
    steps := FirstIsCached(ttl, db, q);
    if q.client == q'.client {
      KeyCancels(q, q');
    }
    steps := Then(x, steps, Step.Ask(0, q'));
    steps := Then(x, steps, Look(0));
    steps := Then(x, steps, Finish(0));
  }

  /** With a database that does not change, every answer to every caller in every interleaving is the
      database's own, if and only if no two answered queries share a cache key. */
  lemma ConcurrentRefinement(ttl: nat, db: Database)
    ensures (forall clock, steps, p ::
               (CanRun(Start(ttl, clock, db), steps) && Frozen(steps)
                && CallerAt(Run(Start(ttl, clock, db), steps), p).Answered?) ==>
               CallerAt(Run(Start(ttl, clock, db), steps), p).result
               == Direct(db, CallerAt(Run(Start(ttl, clock, db), steps), p).q))
            <==> KeysApart(db)
  {
    if KeysApart(db) {
      forall clock, steps, p: nat | CanRun(Start(ttl, clock, db), steps) && Frozen(steps)
                                    && CallerAt(Run(Start(ttl, clock, db), steps), p).Answered?
        ensures CallerAt(Run(Start(ttl, clock, db), steps), p).result
                == Direct(db, CallerAt(Run(Start(ttl, clock, db), steps), p).q)
      {
        RunTruthful(Start(ttl, clock, db), steps, db);
        assert Truthful(db, Run(Start(ttl, clock, db), steps).callers[p]);
      }
    } else {
      var q, q' :| Direct(db, q).Some? && Direct(db, q').Some? && CacheKey(q) == CacheKey(q') && q != q';
      var steps := SecondIsRefused(ttl, db, q, q');
      assert CanRun(Start(ttl, 0, db), steps) && Frozen(steps);
    }
  }

  // ----- A caller that nobody disturbs -----

  function CacheView(cache: map<string, Held>): map<string, Entry> {
    map k | k in cache :: Entry(cache[k].value, cache[k].until)
  }

  /** The sequential repository that the system is for one caller at one moment. */
  function View(x: System): Repository {
    Repository(x.ttl, CacheView(x.cache), NO_STATS)
  }

  function LastDb(x: System): Database
    requires x.versions != []
  {
    x.versions[Last(x)].db
  }

  /** The answer and the cache that the sequential request gives. */
  ghost predicate AsRequested(x: System, x': System, p: nat, q: Query)
    requires x.versions != []
  {
    var (r, result) := Request(View(x), LastDb(x), x.clock, q);
    && CacheView(x'.cache) == r.cache
    && CallerAt(x', p).Answered? && CallerAt(x', p).q == q && CallerAt(x', p).result == result
  }

  lemma AskAndLook(x: System, p: nat, q: Query) returns (steps: seq<Step>)
    requires Enabled(x, Step.Ask(p, q))
    ensures CanRun(x, steps) && forall i :: 0 <= i < |steps| ==> !steps[i].Tick? && !steps[i].Change? && !steps[i].Lose?
    ensures var y := Run(x, steps);
            && y == LookUp(x.(callers := x.callers[p := Asking(q)]), p, q)
            && p in y.callers
  {
    steps := Then(x, [], Step.Ask(p, q));
    steps := Then(x, steps, Look(p));
  }

  lemma ViewPut(cache: map<string, Held>, key: string, h: Held)
    ensures CacheView(cache[key := h]) == CacheView(cache)[key := Entry(h.value, h.until)]
  {
  }

  lemma FoundEnds(x: System, p: nat, q: Query, d: AuthData)
    requires Enabled(x, Consult(p)) && x.callers[p] == Missed(q) && ConsultDatabase(x, p, q) == With(x, p, Found(q, d, Last(x), x.clock))
    requires CacheGet(CacheView(x.cache), CacheKey(q), x.clock).None?
    ensures AsRequested(x, WriteBack(With(x, p, Found(q, d, Last(x), x.clock)), p), p, q)
  {
    ViewPut(x.cache, CacheKey(q), Held(Data(d), x.clock + x.ttl, Last(x), x.clock, 0));
  }

  /** After the database has answered: the caller is done, or its last step makes it so. */
  lemma MissEnds(x: System, p: nat, q: Query)
    requires Enabled(x, Consult(p)) && x.callers[p] == Missed(q)
    requires CacheGet(CacheView(x.cache), CacheKey(q), x.clock).None?
    ensures var y := ConsultDatabase(x, p, q);
            if CallerAt(y, p).Answered? then AsRequested(x, y, p, q)
            else Enabled(y, Finish(p)) && AsRequested(x, WriteBack(y, p), p, q)
  {
    var y := ConsultDatabase(x, p, q);
    match y.callers[p] {
      case Found(_, d, _, _) => FoundEnds(x, p, q, d);
      case Refused(_, ttl) =>
        ViewPut(x.cache, CacheKey(q), Held(Empty, x.clock + ttl, 0, x.clock, 0));
      case _ =>
    }
  }

  lemma AloneFromMiss(x: System, a: seq<Step>, y: System, p: nat, q: Query) returns (steps: seq<Step>)
    requires CanRun(x, a) && y == Run(x, a) && Enabled(y, Consult(p)) && y.callers[p] == Missed(q)
    requires CacheGet(CacheView(y.cache), CacheKey(q), y.clock).None?
    ensures CanRun(x, steps) && AsRequested(y, Run(x, steps), p, q)
  {
    MissEnds(y, p, q);
    steps := Then(x, a, Consult(p));
    if !CallerAt(Run(x, steps), p).Answered? {
      steps := Then(x, steps, Finish(p));
    }
  }

  /** Left alone, a caller gets the answer, and leaves the cache, of the sequential request at that
      moment. */
  lemma RequestAlone(x: System, p: nat, q: Query) returns (steps: seq<Step>)
    requires Enabled(x, Step.Ask(p, q))
    ensures CanRun(x, steps) && AsRequested(x, Run(x, steps), p, q)
  {
    steps := AskAndLook(x, p, q);
    var y := Run(x, steps);
    assert Visible(x, CacheKey(q)).Some? <==> CacheGet(CacheView(x.cache), CacheKey(q), x.clock).Some?;
    if y.callers[p].Missed? {
      steps := AloneFromMiss(x, steps, y, p, q);
    } else if y.callers[p].Mismatched? {
      steps := Then(x, steps, Finish(p));
      assert CacheView(Run(x, steps).cache) == CacheView(x.cache) - {CacheKey(q)};
    }
  }
}
