/** The cache-aside authorisation repository: what a request answers, what it leaves in the cache and
    in the statistics, and how that relates to asking the database directly. */
module AuthCache {
  import opened Text

  datatype Query = Query(stream: string, client: string, token: string)

  datatype AuthData = AuthData(stream: string, client: string, token: string, authorized: bool)

  /** What the database gives for a query: no row (or no connection, or an SQL error), the first
      matching row, or some other exception. */
  datatype Answer = NoRow | Row(client: string, active: bool) | Fault

  type Database = map<Query, Answer>

  datatype Cached = Data(d: AuthData) | Empty

  /** A cached string with the time until which it is visible. */
  datatype Entry = Entry(value: Cached, until: int)

  datatype Stats = Stats(hits: nat, misses: nat, dbHits: nat, dbMisses: nat, dbErrors: nat, validationFailures: nat)

  const NO_STATS := Stats(0, 0, 0, 0, 0, 0)

  const NEGATIVE_TTL: nat := 30
  const ERROR_TTL: nat := 5

  datatype Repository = Repository(ttl: nat, cache: map<string, Entry>, stats: Stats)

  function CacheKey(q: Query): string {
    "auth_data:" + q.stream + ":" + q.client
  }

  function Lookup(db: Database, q: Query): Answer {
    if q in db then db[q] else NoRow
  }

  /** The record built from a row: stream and token are the ones asked for, the client is the row's. */
  function RecordOf(q: Query, client: string, active: bool): AuthData {
    AuthData(q.stream, client, q.token, active)
  }

  predicate Validates(d: AuthData, q: Query) {
    && d.stream == q.stream && d.client == q.client && d.token == q.token
    && d.stream != "" && d.client != "" && d.token != ""
  }

  /** Asking the database without any cache. */
  function Direct(db: Database, q: Query): (r: Option<AuthData>)
    ensures r.Some? ==> Validates(r.value, q)
  {
    match Lookup(db, q)
    case Row(client, active) =>
      if Validates(RecordOf(q, client, active), q) then Some(RecordOf(q, client, active)) else None
    case _ => None
  }

  /** The database allows exactly what its row says: the row of this very query, for this client, with
      the row's own flag, and no empty name. */
  predicate IsRow(db: Database, q: Query, d: AuthData) {
    && q in db && db[q] == Row(q.client, d.authorized)
    && d == AuthData(q.stream, q.client, q.token, d.authorized)
    && q.stream != "" && q.client != "" && q.token != ""
  }

  lemma DirectExact(db: Database, q: Query, d: AuthData)
    ensures Direct(db, q) == Some(d) <==> IsRow(db, q, d)
  {
  }

  /** `getAuthDataFromCacheByKey`: an absent, expired or empty entry is a miss. */
  function CacheGet(cache: map<string, Entry>, key: string, now: int): Option<AuthData> {
    if key in cache && now <= cache[key].until && cache[key].value.Data? then Some(cache[key].value.d) else None
  }

  function CachePut(cache: map<string, Entry>, key: string, v: Cached, now: int, ttl: nat): map<string, Entry> {
    cache[key := Entry(v, now + ttl)]
  }

  /** The part of a request after a cache miss. */
  function FromDatabase(x: Repository, db: Database, now: int, q: Query): (Repository, Option<AuthData>) {
    var key := CacheKey(q);
    var s := x.stats.(misses := x.stats.misses + 1);
    match Lookup(db, q)
    case NoRow =>
      (x.(stats := s.(dbMisses := s.dbMisses + 1), cache := CachePut(x.cache, key, Empty, now, NEGATIVE_TTL)), None)
    case Fault =>
      (x.(stats := s.(dbErrors := s.dbErrors + 1), cache := CachePut(x.cache, key, Empty, now, ERROR_TTL)), None)
    case Row(client, active) =>
      var d := RecordOf(q, client, active);
      var s1 := s.(dbHits := s.dbHits + 1);
      if Validates(d, q) then
        (x.(stats := s1, cache := CachePut(x.cache, key, Data(d), now, x.ttl)), Some(d))
      else (x.(stats := s1.(validationFailures := s1.validationFailures + 1)), None)
  }

  /** `getAuthData` */
  function Request(x: Repository, db: Database, now: int, q: Query): (Repository, Option<AuthData>) {
    var key := CacheKey(q);
    match CacheGet(x.cache, key, now)
    case None => FromDatabase(x, db, now, q)
    case Some(d) =>
      var s := x.stats.(hits := x.stats.hits + 1);
      if d.token == q.token && d.client == q.client then (x.(stats := s), Some(d))
      else
        (x.(stats := s.(validationFailures := s.validationFailures + 1), cache := x.cache - {key}), None)
  }

  class AuthRepository {
    const ttl: nat
    var cache: map<string, Entry>
    var stats: Stats

    constructor (ttl: nat)
      ensures this.ttl == ttl && View() == Repository(ttl, map[], NO_STATS)
    {
      this.ttl := ttl;
      cache, stats := map[], NO_STATS;
    }

    function View(): Repository
      reads this
    {
      Repository(ttl, cache, stats)
    }

    method GetAuthData(db: Database, now: int, q: Query) returns (result: Option<AuthData>)
      modifies this
      ensures (View(), result) == Request(old(View()), db, now, q)
    {
      var key := CacheKey(q);
      var cached := CacheGet(cache, key, now);
      if cached.Some? {
        stats := stats.(hits := stats.hits + 1);
        if cached.value.token == q.token && cached.value.client == q.client {
          return cached;
        }
        stats := stats.(validationFailures := stats.validationFailures + 1);
        cache := cache - {key};
        return None;
      }
      stats := stats.(misses := stats.misses + 1);
      var found := QueryDatabase(db, now, q);
      if found.None? {
        return None;
      }
      if !Validates(found.value, q) {
        stats := stats.(validationFailures := stats.validationFailures + 1);
        return None;
      }
      cache := CachePut(cache, key, Data(found.value), now, ttl);
      result := found;
    }

    method QueryDatabase(db: Database, now: int, q: Query) returns (found: Option<AuthData>)
      modifies this
      ensures match Lookup(db, q)
              case Row(client, active) =>
                && found == Some(RecordOf(q, client, active)) && cache == old(cache)
                && stats == old(stats).(dbHits := old(stats).dbHits + 1)
              case NoRow =>
                && found == None && cache == CachePut(old(cache), CacheKey(q), Empty, now, NEGATIVE_TTL)
                && stats == old(stats).(dbMisses := old(stats).dbMisses + 1)
              case Fault =>
                && found == None && cache == CachePut(old(cache), CacheKey(q), Empty, now, ERROR_TTL)
                && stats == old(stats).(dbErrors := old(stats).dbErrors + 1)
    {
      match Lookup(db, q)
      case Row(client, active) =>
        stats := stats.(dbHits := stats.dbHits + 1);
        found := Some(RecordOf(q, client, active));
      case NoRow =>
        stats := stats.(dbMisses := stats.dbMisses + 1);
        cache := CachePut(cache, CacheKey(q), Empty, now, NEGATIVE_TTL);
        found := None;
      case Fault =>
        stats := stats.(dbErrors := stats.dbErrors + 1);
        cache := CachePut(cache, CacheKey(q), Empty, now, ERROR_TTL);
        found := None;
    }
  }

  // ----- Runs -----

  /** A request against the database of that moment, or a cache entry lost to expiry or eviction. */
  datatype Op = Ask(q: Query, now: int, db: Database) | Evict(key: string)

  function Apply(x: Repository, op: Op): (Repository, Option<AuthData>) {
    match op
    case Ask(q, now, db) => Request(x, db, now, q)
    case Evict(key) => (x.(cache := x.cache - {key}), None)
  }

  function ApplyAll(x: Repository, ops: seq<Op>): Repository {
    if ops == [] then x else Apply(ApplyAll(x, ops[..|ops| - 1]), ops[|ops| - 1]).0
  }

  function Fresh(ttl: nat): Repository {
    Repository(ttl, map[], NO_STATS)
  }

  // ----- Statistics -----

  function Requests(ops: seq<Op>): nat {
    if ops == [] then 0 else Requests(ops[..|ops| - 1]) + if ops[|ops| - 1].Ask? then 1 else 0
  }

  /** How many requests of the run returned data. */
  function Results(x: Repository, ops: seq<Op>): nat {
    if ops == [] then 0
    else
      var front := ops[..|ops| - 1];
      Results(x, front) + if Apply(ApplyAll(x, front), ops[|ops| - 1]).1.Some? then 1 else 0
  }

  lemma StatisticsStep(x: Repository, op: Op)
    ensures var (x', r) := Apply(x, op);
            var s, s' := x.stats, x'.stats;
            && s'.hits + s'.misses == s.hits + s.misses + (if op.Ask? then 1 else 0)
            && s'.misses - s'.dbHits - s'.dbMisses - s'.dbErrors == s.misses - s.dbHits - s.dbMisses - s.dbErrors
            && s'.hits + s'.dbHits - s'.validationFailures
               == s.hits + s.dbHits - s.validationFailures + if r.Some? then 1 else 0
  {
  }

  /** Over every run, whatever the database does: requests are hits plus misses, misses are the three
      database outcomes, and the results returned are hits and database hits less the validation
      failures. */
  lemma {:induction false} StatisticsAddUp(ttl: nat, ops: seq<Op>)
    ensures var s := ApplyAll(Fresh(ttl), ops).stats;
            && Requests(ops) == s.hits + s.misses
            && s.misses == s.dbHits + s.dbMisses + s.dbErrors
            && Results(Fresh(ttl), ops) == s.hits + s.dbHits - s.validationFailures
  {
    if ops != [] {
      StatisticsAddUp(ttl, ops[..|ops| - 1]);
      StatisticsStep(ApplyAll(Fresh(ttl), ops[..|ops| - 1]), ops[|ops| - 1]);
    }
  }

  /** What a request met. */
  datatype Event = HitKept | HitRefused | MissNoRow | MissFault | MissKept | MissRefused

  /** Said of the cache and the row themselves: was there visible data under the key, did it carry the
      request's token and client; if not, what does the database hold? */
  function EventOf(x: Repository, db: Database, now: int, q: Query): Event {
    var key := CacheKey(q);
    if key in x.cache && x.cache[key].value.Data? && now <= x.cache[key].until then
      if x.cache[key].value.d.token == q.token && x.cache[key].value.d.client == q.client then HitKept else HitRefused
    else if q !in db || db[q].NoRow? then MissNoRow
    else if db[q].Fault? then MissFault
    else if db[q].client == q.client && q.stream != "" && q.client != "" && q.token != "" then MissKept
    else MissRefused
  }

  /** How often the requests of a run met `e`. */
  function Times(x: Repository, ops: seq<Op>, e: Event): nat {
    if ops == [] then 0
    else
      var front, op := ops[..|ops| - 1], ops[|ops| - 1];
      Times(x, front, e) + if op.Ask? && EventOf(ApplyAll(x, front), op.db, op.now, op.q) == e then 1 else 0
  }

  lemma EventCounted(x: Repository, db: Database, now: int, q: Query)
    ensures var e, s, s' := EventOf(x, db, now, q), x.stats, Request(x, db, now, q).0.stats;
            && s'.hits == s.hits + (if e.HitKept? || e.HitRefused? then 1 else 0)
            && s'.misses == s.misses + (if e.HitKept? || e.HitRefused? then 0 else 1)
            && s'.dbHits == s.dbHits + (if e.MissKept? || e.MissRefused? then 1 else 0)
            && s'.dbMisses == s.dbMisses + (if e.MissNoRow? then 1 else 0)
            && s'.dbErrors == s.dbErrors + (if e.MissFault? then 1 else 0)
            && s'.validationFailures == s.validationFailures + (if e.HitRefused? || e.MissRefused? then 1 else 0)
            && (Request(x, db, now, q).1.Some? <==> e.HitKept? || e.MissKept?)
  {
  }

  /** Over every run each counter is the number of requests that met what it is named for. */
  lemma {:induction false} CountersMean(ttl: nat, ops: seq<Op>)
    ensures var s := ApplyAll(Fresh(ttl), ops).stats;
            var n := e => Times(Fresh(ttl), ops, e);
            && s.hits == n(HitKept) + n(HitRefused)
            && s.misses == n(MissNoRow) + n(MissFault) + n(MissKept) + n(MissRefused)
            && s.dbHits == n(MissKept) + n(MissRefused)
            && s.dbMisses == n(MissNoRow) && s.dbErrors == n(MissFault)
            && s.validationFailures == n(HitRefused) + n(MissRefused)
            && Results(Fresh(ttl), ops) == n(HitKept) + n(MissKept)
  {
    if ops != [] {
      var front, op := ops[..|ops| - 1], ops[|ops| - 1];
      CountersMean(ttl, front);
      if op.Ask? {
        EventCounted(ApplyAll(Fresh(ttl), front), op.db, op.now, op.q);
      }
    }
  }

  // ----- Against the database without a cache -----

  /** The run asks one database that does not change. */
  ghost predicate Fixed(ops: seq<Op>, db: Database) {
    forall i :: 0 <= i < |ops| && ops[i].Ask? ==> ops[i].db == db
  }

  /** Every cached record is the database's answer to its own query, under its own key. */
  ghost predicate Faithful(cache: map<string, Entry>, db: Database) {
    forall k :: k in cache && cache[k].value.Data? ==>
      var d := cache[k].value.d;
      var q := Query(d.stream, d.client, d.token);
      k == CacheKey(q) && Direct(db, q) == Some(d)
  }

  lemma {:induction false} RunFaithful(ttl: nat, ops: seq<Op>, db: Database)
    requires Fixed(ops, db)
    ensures Faithful(ApplyAll(Fresh(ttl), ops).cache, db) && ApplyAll(Fresh(ttl), ops).ttl == ttl
  {
    if ops != [] {
      RunFaithful(ttl, ops[..|ops| - 1], db);
    }
  }

  /** No two queries that the database answers share a cache key. */
  ghost predicate KeysApart(db: Database) {
    forall q, q' :: Direct(db, q).Some? && Direct(db, q').Some? && CacheKey(q) == CacheKey(q') ==> q == q'
  }

  lemma KeyCancels(q: Query, q': Query)
    requires CacheKey(q) == CacheKey(q') && q.client == q'.client
    ensures q.stream == q'.stream
  {
    assert |CacheKey(q)| == 11 + |q.stream| + |q.client| && |CacheKey(q')| == 11 + |q'.stream| + |q'.client|;
    var n := 10 + |q.stream|;
    assert q.stream == CacheKey(q)[10..n] == CacheKey(q')[10..n] == q'.stream;
  }

  lemma AnswersDirectly(x: Repository, db: Database, now: int, q: Query)
    requires Faithful(x.cache, db) && KeysApart(db)
    ensures Request(x, db, now, q).1 == Direct(db, q)
  {
    if CacheGet(x.cache, CacheKey(q), now).Some? {
      var d := x.cache[CacheKey(q)].value.d;
      var own := Query(d.stream, d.client, d.token);
      assert CacheKey(own) == CacheKey(q) && Direct(db, own) == Some(d);
      if d.client == q.client {
        KeyCancels(own, q);
      }
    }
  }

  lemma SharedKeyMisleads(ttl: nat, db: Database, q: Query, q': Query)
    requires Direct(db, q).Some? && Direct(db, q').Some? && CacheKey(q) == CacheKey(q') && q != q'
    ensures var x := ApplyAll(Fresh(ttl), [Ask(q, 0, db)]);
            Request(x, db, 0, q').1 == None && Direct(db, q') != None
  {
    var ops := [Ask(q, 0, db)];
    assert ops[..|ops| - 1] == [];
    assert ApplyAll(Fresh(ttl), ops[..|ops| - 1]) == Fresh(ttl);
    var x := ApplyAll(Fresh(ttl), ops);
    assert x == Apply(Fresh(ttl), ops[|ops| - 1]).0;
    assert CacheGet(x.cache, CacheKey(q'), 0) == Direct(db, q);
    if q.client == q'.client {
      KeyCancels(q, q');
    }
  }

  /** With a database that does not change, every request in every run, from every reachable cache and
      under any expiry, answers as the database would, exactly when no two answered queries share a
      cache key. */
  lemma CacheRefinesDatabase(ttl: nat, db: Database)
    ensures (forall ops, now, q :: Fixed(ops, db) ==> Request(ApplyAll(Fresh(ttl), ops), db, now, q).1 == Direct(db, q))
            <==> KeysApart(db)
  {
    if KeysApart(db) {
      forall ops, now, q | Fixed(ops, db)
        ensures Request(ApplyAll(Fresh(ttl), ops), db, now, q).1 == Direct(db, q)
      {
        RunFaithful(ttl, ops, db);
        AnswersDirectly(ApplyAll(Fresh(ttl), ops), db, now, q);
      }
    } else {
      var q, q' :| Direct(db, q).Some? && Direct(db, q').Some? && CacheKey(q) == CacheKey(q') && q != q';
      SharedKeyMisleads(ttl, db, q, q');
      var ops := [Ask(q, 0, db)];
      assert Fixed(ops, db);
      assert Request(ApplyAll(Fresh(ttl), ops), db, 0, q').1 != Direct(db, q');
    }
  }

  /** One token per stream and client, and clients without a colon, keep the keys apart. */
  lemma OneTokenKeepsApart(db: Database)
    requires forall q, q' :: Direct(db, q).Some? && Direct(db, q').Some? && q.stream == q'.stream && q.client == q'.client ==> q == q'
    requires forall q :: Direct(db, q).Some? ==> ':' !in q.client
    ensures KeysApart(db)
  {
    forall q, q' | Direct(db, q).Some? && Direct(db, q').Some? && CacheKey(q) == CacheKey(q')
      ensures q == q'
    {
      if |q.stream| < |q'.stream| {
        ColonInClient(q, q');
      } else if |q'.stream| < |q.stream| {
        ColonInClient(q', q);
      } else {
        var n := 10 + |q.stream|;
        assert q.stream == CacheKey(q)[10..n] == CacheKey(q')[10..n] == q'.stream;
        assert q.client == CacheKey(q)[n + 1..] == CacheKey(q')[n + 1..] == q'.client;
      }
    }
  }

  lemma ColonInClient(q: Query, q': Query)
    requires CacheKey(q) == CacheKey(q') && |q.stream| < |q'.stream|
    ensures ':' in q.client
  {
    var k := CacheKey(q);
    assert k[10 + |q'.stream|] == ':';
    assert k[10 + |q'.stream|] == q.client[|q'.stream| - |q.stream| - 1];
  }

  /** With a database that does not change and whatever keys it holds, data answered in any run is the
      query's own row. */
  lemma AnswersAreRows(ttl: nat, ops: seq<Op>, db: Database, now: int, q: Query, d: AuthData)
    requires Fixed(ops, db) && Request(ApplyAll(Fresh(ttl), ops), db, now, q).1 == Some(d)
    ensures IsRow(db, q, d)
  {
    var x := ApplyAll(Fresh(ttl), ops);
    RunFaithful(ttl, ops, db);
    if CacheGet(x.cache, CacheKey(q), now).Some? {
      KeyCancels(Query(d.stream, d.client, d.token), q);
    }
    DirectExact(db, q, d);
  }

  // ----- Negative entries and expiry -----

  /** A request that finds no row, or an error, leaves a marker for 30 or 5 seconds; one that finds its row
      leaves the row's record for the configured time. No other key changes. */
  lemma RequestCaches(x: Repository, db: Database, now: int, q: Query)
    requires CacheGet(x.cache, CacheKey(q), now).None?
    ensures var cache := Request(x, db, now, q).0.cache;
            && cache - {CacheKey(q)} == x.cache - {CacheKey(q)}
            && (q !in db || db[q].NoRow? ==> CacheKey(q) in cache && cache[CacheKey(q)] == Entry(Empty, now + 30))
            && (q in db && db[q].Fault? ==> CacheKey(q) in cache && cache[CacheKey(q)] == Entry(Empty, now + 5))
            && (forall d :: IsRow(db, q, d) ==>
                  CacheKey(q) in cache && cache[CacheKey(q)] == Entry(Data(d), now + x.ttl))
  {
    forall d | IsRow(db, q, d)
      ensures Request(x, db, now, q).0.cache == x.cache[CacheKey(q) := Entry(Data(d), now + x.ttl)]
    {
      DirectExact(db, q, d);
    }
    assert (Request(x, db, now, q).0.cache - {CacheKey(q)}).Keys == (x.cache - {CacheKey(q)}).Keys;
  }

  /** A marker, or a record whose time is over, answers as if it were not there. */
  lemma MarkersAreInert(x: Repository, db: Database, now: int, q: Query)
    requires CacheKey(q) in x.cache && (x.cache[CacheKey(q)].value.Empty? || x.cache[CacheKey(q)].until < now)
    ensures var y := x.(cache := x.cache - {CacheKey(q)});
            && Request(x, db, now, q).1 == Request(y, db, now, q).1
            && Request(x, db, now, q).0.stats == Request(y, db, now, q).0.stats
  {
  }

  /** A request refused because of another record under its key has removed that record: asked again
      at once, it is answered as the database answers. */
  lemma AskAgain(x: Repository, db: Database, now: int, q: Query)
    requires CacheGet(x.cache, CacheKey(q), now).Some? && Request(x, db, now, q).1.None?
    ensures Request(Request(x, db, now, q).0, db, now, q).1 == Direct(db, q)
  {
  }
}
