/** The cached query endpoint: canonical cache keys, and hits, concurrent misses and expiry
    interleaved with changes of the table. */
module QueryCache {
  import opened Wrappers
  import opened Events
  import opened Query

  /** CACHE_TTL_SECONDS, in the clock's unit of one second. */
  const TTL: int := 30

  // ------------------------------------------------------------------------ keys

  datatype Value = Absent | TextValue(s: string) | IntValue(n: int) | DateValue(t: int)

  /** The dictionary `query_logs` builds from its parameters. */
  function CacheParams(f: Filters): map<string, Value> {
    map["service" := TextOrAbsent(f.service), "level" := TextOrAbsent(f.level), "search" := TextOrAbsent(f.search),
        "since" := DateOrAbsent(f.since), "until" := DateOrAbsent(f.until), "limit" := IntValue(f.limit)]
  }

  function TextOrAbsent(v: Option<string>): Value {
    if v.Some? then TextValue(v.value) else Absent
  }

  function DateOrAbsent(v: Option<int>): Value {
    if v.Some? then DateValue(v.value) else Absent
  }

  /** What a value becomes in the JSON text that is hashed. */
  function Rewritten(iso: int -> string, v: Value): Value {
    if v.DateValue? then TextValue(iso(v.t)) else v
  }

  function Canonical(iso: int -> string, params: map<string, Value>): map<string, Value> {
    map k | k in params && params[k] != Absent :: Rewritten(iso, params[k])
  }

  /** `_build_cache_key` up to the hash: absent parameters are dropped and dates rewritten in
      place. The JSON text with sorted keys, and so the hash, is a function of the result. */
  method BuildCacheKey(params: map<string, Value>, iso: int -> string) returns (filtered: map<string, Value>)
    ensures filtered == Canonical(iso, params)
  {
    filtered := map k | k in params && params[k] != Absent :: params[k];
    var todo := filtered.Keys;
    while todo != {}
      invariant filtered.Keys == Canonical(iso, params).Keys && todo <= filtered.Keys
      invariant forall k :: k in filtered ==>
        filtered[k] == if k in todo then params[k] else Rewritten(iso, params[k])
      decreases todo
    {
      var k :| k in todo;
      todo := todo - {k};
      if filtered[k].DateValue? {
        filtered := filtered[k := TextValue(iso(filtered[k].t))];
      }
    }
  }

  function KeyOf(iso: int -> string, f: Filters): map<string, Value> {
    Canonical(iso, CacheParams(f))
  }

  lemma FieldOfKey(iso: int -> string, f: Filters, name: string)
    requires name in CacheParams(f)
    ensures name in KeyOf(iso, f) <==> CacheParams(f)[name] != Absent
    ensures name in KeyOf(iso, f) ==> KeyOf(iso, f)[name] == Rewritten(iso, CacheParams(f)[name])
  {}

  /** Two requests share a key only if they are the same request. */
  lemma KeysDistinguish(iso: int -> string, f: Filters, g: Filters)
    requires forall a, b :: iso(a) == iso(b) ==> a == b
    ensures KeyOf(iso, f) == KeyOf(iso, g) <==> f == g
  {
    if KeyOf(iso, f) == KeyOf(iso, g) {
      FieldOfKey(iso, f, "service");
      FieldOfKey(iso, g, "service");
      FieldOfKey(iso, f, "level");
      FieldOfKey(iso, g, "level");
      FieldOfKey(iso, f, "search");
      FieldOfKey(iso, g, "search");
      FieldOfKey(iso, f, "since");
      FieldOfKey(iso, g, "since");
      FieldOfKey(iso, f, "until");
      FieldOfKey(iso, g, "until");
      FieldOfKey(iso, f, "limit");
      FieldOfKey(iso, g, "limit");
    }
  }

  // -------------------------------------------------------------------- protocol

  /** A result with the table it was computed on and the time of that. */
  datatype Fetched = Fetched(result: seq<Row>, table: set<Row>, at: int)

  /** A cache entry; `fetched` beyond the result is history. */
  datatype Cached = Cached(fetched: Fetched, expires: int)

  /** A miss between its cache lookup and its SETEX. */
  datatype Flight = Asked(f: Filters) | Holding(f: Filters, fetched: Fetched)

  datatype Reply = Reply(id: nat, f: Filters, fetched: Fetched, at: int, hit: bool)

  /** History: `asked` records the requests by their ids, `tables` which table was current at
      which time, and `replies` all responses. */
  datatype State = State(now: int, table: set<Row>, cache: map<map<string, Value>, Cached>, flights: map<nat, Flight>,
                         asked: map<nat, Filters>, tables: set<(int, set<Row>)>, replies: seq<Reply>)

  datatype Event =
    | Tick(d: nat)
    | Change(table: set<Row>)
    | Request(id: nat, f: Filters)          // GET of the cache key: reply on a hit, else a miss
    | Fetch(id: nat, result: seq<Row>)      // the SQL statement of a miss runs
    | SetEx(id: nat)                        // its result is cached and returned

  /** Environment: iso is injective formatting, `search` the database's text search, and a
      fetch reaches its SETEX within `delay`. */
  datatype Env = Env(iso: int -> string, search: Search, delay: nat)

  function Lookup(env: Env, s: State, f: Filters): Option<Cached> {
    var k := KeyOf(env.iso, f);
    if k in s.cache && s.now < s.cache[k].expires then Some(s.cache[k]) else None
  }

  ghost predicate Enabled(env: Env, s: State, e: Event) {
    match e
    case Tick(d) => true
    case Change(table) => true
    case Request(id, f) => id !in s.asked
    case Fetch(id, result) =>
      id in s.flights && s.flights[id].Asked? && AnswersQuery(env.search, s.flights[id].f, s.table, result)
    case SetEx(id) =>
      id in s.flights && s.flights[id].Holding? && s.now - s.flights[id].fetched.at <= env.delay
  }

  ghost function Apply(env: Env, s: State, e: Event): State
    requires Enabled(env, s, e)
  {
    match e
    case Tick(d) => s.(now := s.now + d, tables := s.tables + {(s.now + d, s.table)})
    case Change(table) => s.(table := table, tables := s.tables + {(s.now, table)})
    case Request(id, f) =>
      (match Lookup(env, s, f)
       case Some(c) =>
         s.(asked := s.asked[id := f], replies := s.replies + [Reply(id, f, c.fetched, s.now, true)])
       case None => s.(asked := s.asked[id := f], flights := s.flights[id := Asked(f)]))
    case Fetch(id, result) =>
      s.(flights := s.flights[id := Holding(s.flights[id].f, Fetched(result, s.table, s.now))])
    case SetEx(id) =>
      var f, fetched := s.flights[id].f, s.flights[id].fetched;
      s.(cache := s.cache[KeyOf(env.iso, f) := Cached(fetched, s.now + TTL)],
         flights := s.flights - {id},
         replies := s.replies + [Reply(id, f, fetched, s.now, false)])
  }

  ghost predicate Run(env: Env, s: State, es: seq<Event>)
    decreases |es|
  {
    es != [] ==> Enabled(env, s, es[0]) && Run(env, Apply(env, s, es[0]), es[1..])
  }

  ghost function Exec(env: Env, s: State, es: seq<Event>): State
    requires Run(env, s, es)
    decreases |es|
  {
    if es == [] then s else Exec(env, Apply(env, s, es[0]), es[1..])
  }

  function Initial(table: set<Row>): State {
    State(0, table, map[], map[], map[], {(0, table)}, [])
  }

  /** The result answers `f` on a table that was current when it was fetched. */
  ghost predicate Genuine(env: Env, s: State, f: Filters, x: Fetched) {
    AnswersQuery(env.search, f, x.table, x.result) && (x.at, x.table) in s.tables && x.at <= s.now
  }

  ghost predicate ReplyOk(env: Env, s: State, r: Reply) {
    && Genuine(env, s, r.f, r.fetched)
    && r.fetched.at <= r.at <= s.now
    && r.at - r.fetched.at < (if r.hit then TTL + env.delay else 1 + env.delay)
  }

  ghost predicate Inv(env: Env, s: State) {
    && (s.now, s.table) in s.tables
    && (forall f :: KeyOf(env.iso, f) in s.cache ==>
          var c := s.cache[KeyOf(env.iso, f)];
          Genuine(env, s, f, c.fetched) && c.expires <= c.fetched.at + env.delay + TTL)
    && (forall id :: id in s.flights && s.flights[id].Holding? ==>
          Genuine(env, s, s.flights[id].f, s.flights[id].fetched))
    && (forall r :: r in s.replies ==> ReplyOk(env, s, r))
  }

  /** A request is on its way under its own parameters, or answered under them, once. */
  ghost predicate Tracked(s: State) {
    && (forall id :: id in s.flights ==> id in s.asked && s.asked[id] == s.flights[id].f)
    && (forall i :: 0 <= i < |s.replies| ==>
          var r := s.replies[i]; r.id in s.asked && s.asked[r.id] == r.f && r.id !in s.flights)
    && (forall i, j :: 0 <= i < j < |s.replies| ==> s.replies[i].id != s.replies[j].id)
  }

  lemma StepKeepsTracked(env: Env, s: State, e: Event)
    requires Tracked(s) && Enabled(env, s, e)
    ensures Tracked(Apply(env, s, e))
  {}

  lemma {:induction false} RunKeepsTracked(env: Env, s: State, es: seq<Event>)
    requires Tracked(s) && Run(env, s, es)
    ensures Tracked(Exec(env, s, es))
    decreases |es|
  {
    if es != [] {
      StepKeepsTracked(env, s, es[0]);
      RunKeepsTracked(env, Apply(env, s, es[0]), es[1..]);
    }
  }

  lemma StepKeepsInv(env: Env, s: State, e: Event)
    requires forall a, b :: env.iso(a) == env.iso(b) ==> a == b
    requires Inv(env, s) && Enabled(env, s, e)
    ensures Inv(env, Apply(env, s, e))
  {
    var t := Apply(env, s, e);
    if e.SetEx? {
      var f := s.flights[e.id].f;
      forall g | KeyOf(env.iso, g) in t.cache
        ensures var c := t.cache[KeyOf(env.iso, g)];
          Genuine(env, t, g, c.fetched) && c.expires <= c.fetched.at + env.delay + TTL
      {
        KeysDistinguish(env.iso, f, g);
      }
    }
    forall r | r in s.replies
      ensures ReplyOk(env, t, r)
    {
      assert ReplyOk(env, s, r);
    }
  }

  lemma {:induction false} RunKeepsInv(env: Env, s: State, es: seq<Event>)
    requires forall a, b :: env.iso(a) == env.iso(b) ==> a == b
    requires Inv(env, s) && Run(env, s, es)
    ensures Inv(env, Exec(env, s, es))
    decreases |es|
  {
    if es != [] {
      StepKeepsInv(env, s, es[0]);
      RunKeepsInv(env, Apply(env, s, es[0]), es[1..]);
    }
  }

  /** Cache agreement: in every interleaving of requests, concurrent misses, clock ticks and
      table changes, every response answers the parameters of its own request on a table that was current
      less than TTL + delay before (at most delay before, if it was a miss). */
  lemma CacheAgreement(env: Env, table: set<Row>, es: seq<Event>, r: Reply)
    requires forall a, b :: env.iso(a) == env.iso(b) ==> a == b
    requires Run(env, Initial(table), es) && r in Exec(env, Initial(table), es).replies
    ensures r.id in Exec(env, Initial(table), es).asked && Exec(env, Initial(table), es).asked[r.id] == r.f
    ensures AnswersQuery(env.search, r.f, r.fetched.table, r.fetched.result)
    ensures (r.fetched.at, r.fetched.table) in Exec(env, Initial(table), es).tables
    ensures r.fetched.at <= r.at
    ensures if r.hit then r.at - r.fetched.at < TTL + env.delay else r.at - r.fetched.at <= env.delay
  {
    RunKeepsInv(env, Initial(table), es);
    RunKeepsTracked(env, Initial(table), es);
  }

  /** No request is answered twice, whatever happens. */
  lemma AnsweredOnce(env: Env, table: set<Row>, es: seq<Event>, i: nat, j: nat)
    requires Run(env, Initial(table), es) && i < j < |Exec(env, Initial(table), es).replies|
    ensures Exec(env, Initial(table), es).replies[i].id != Exec(env, Initial(table), es).replies[j].id
  {
    RunKeepsTracked(env, Initial(table), es);
  }

  /** The entry of `f` is `c`, and no miss for `f` is on its way. */
  ghost predicate Settled(env: Env, s: State, f: Filters, c: Cached) {
    && KeyOf(env.iso, f) in s.cache && s.cache[KeyOf(env.iso, f)] == c
    && s.now < c.expires
    && forall id :: id in s.flights ==> s.flights[id].f != f
  }

  /** A miss that returns leaves its result in the cache for the TTL, whatever it is. */
  lemma MissIsCached(env: Env, s: State, id: nat)
    requires Enabled(env, s, SetEx(id))
    requires forall other :: other in s.flights && other != id ==> s.flights[other].f != s.flights[id].f
    ensures var x := s.flights[id];
      Settled(env, Apply(env, s, SetEx(id)), x.f, Cached(x.fetched, s.now + TTL))
  {}

  /** An entry serves until it expires: once a result is cached and no other miss for the same
      request is on its way, every request for it within the TTL is a hit with that result,
      however the table changes meanwhile. */
  lemma {:induction false} EntryServes(env: Env, s: State, es: seq<Event>, f: Filters, c: Cached)
    requires forall a, b :: env.iso(a) == env.iso(b) ==> a == b
    requires Run(env, s, es) && Settled(env, s, f, c) && Exec(env, s, es).now < c.expires
    ensures Settled(env, Exec(env, s, es), f, c) && Lookup(env, Exec(env, s, es), f) == Some(c)
    decreases |es|
  {
    if es != [] {
      var t := Apply(env, s, es[0]);
      ClockForward(env, t, es[1..]);
      if es[0].SetEx? {
        KeysDistinguish(env.iso, f, s.flights[es[0].id].f);
      }
      EntryServes(env, t, es[1..], f, c);
    }
  }

  lemma {:induction false} ClockForward(env: Env, s: State, es: seq<Event>)
    requires Run(env, s, es)
    ensures s.now <= Exec(env, s, es).now
    decreases |es|
  {
    if es != [] {
      ClockForward(env, Apply(env, s, es[0]), es[1..]);
    }
  }

  lemma Cons(env: Env, s: State, e: Event, es: seq<Event>)
    requires Enabled(env, s, e) && Run(env, Apply(env, s, e), es)
    ensures Run(env, s, [e] + es) && Exec(env, s, [e] + es) == Exec(env, Apply(env, s, e), es)
  {}

  /** A reply answers its request on a table that was current less than `age` before it. */
  ghost predicate Fresh(env: Env, s: State, r: Reply, age: int) {
    exists p :: p in s.tables && p.0 <= r.at < p.0 + age && AnswersQuery(env.search, r.f, p.1, r.fetched.result)
  }

  /** Every reply of every run does. */
  ghost predicate AlwaysFresh(env: Env, age: int) {
    forall table, es, r :: Run(env, Initial(table), es) && r in Exec(env, Initial(table), es).replies ==>
      Fresh(env, Exec(env, Initial(table), es), r, age)
  }

  /** A miss whose rows are fetched just before `row` is inserted, and the hit in the last
      second of its entry. */
  function StaleRun(f: Filters, row: Row, delay: nat): seq<Event> {
    [Request(0, f)] + ([Fetch(0, [])] + ([Change({row})] + ([Tick(delay)] + ([SetEx(0)] + ([Tick(29)] + ([Request(1, f)] + []))))))
  }

  /** From the insertion on, with the fetched result still on its way. */
  lemma StaleFrom(env: Env, f: Filters, row: Row, s: State)
    requires s.now == 0 && s.flights == map[0 := Holding(f, Fetched([], {}, 0))] && s.asked == map[0 := f] && s.cache == map[] && s.replies == []
    requires s.table == {row} && forall p :: p in s.tables ==> p.0 == 0
    ensures var es := [Tick(env.delay)] + ([SetEx(0)] + ([Tick(29)] + ([Request(1, f)] + [])));
      && Run(env, s, es)
      && Reply(1, f, Fetched([], {}, 0), env.delay + 29, true) in Exec(env, s, es).replies
      && forall p :: p in Exec(env, s, es).tables ==> p.0 == 0 || p.1 == {row}
  {
    var x := Fetched([], {}, 0);
    var s1 := Apply(env, s, Tick(env.delay));
    var s2 := Apply(env, s1, SetEx(0));
    var s3 := Apply(env, s2, Tick(29));
    assert Lookup(env, s3, f) == Some(Cached(x, env.delay + TTL));
    var s4 := Apply(env, s3, Request(1, f));
    assert s4.replies == s3.replies + [Reply(1, f, x, env.delay + 29, true)];
    Cons(env, s3, Request(1, f), []);
    Cons(env, s2, Tick(29), [Request(1, f)] + []);
    Cons(env, s1, SetEx(0), [Tick(29)] + ([Request(1, f)] + []));
    Cons(env, s, Tick(env.delay), [SetEx(0)] + ([Tick(29)] + ([Request(1, f)] + [])));
  }

  /** No shorter age will do: for any request and any row it selects, a result fetched just
      before the row is inserted is a hit delay + 29 seconds later, and answers the request on
      no table of that time. */
  lemma HitsOutliveTtl(env: Env, f: Filters, row: Row, age: int)
    requires Selects(env.search, f, row) && f.limit > 0 && age < TTL + env.delay
    ensures var es, r := StaleRun(f, row, env.delay), Reply(1, f, Fetched([], {}, 0), env.delay + 29, true);
      && Run(env, Initial({}), es) && r in Exec(env, Initial({}), es).replies
      && !Fresh(env, Exec(env, Initial({}), es), r, age)
  {
    assert Selected(env.search, f, {}) == {};
    var s0 := Initial({});
    var s1 := Apply(env, s0, Request(0, f));
    var s2 := Apply(env, s1, Fetch(0, []));
    var s3 := Apply(env, s2, Change({row}));
    StaleFrom(env, f, row, s3);
    var es := [Tick(env.delay)] + ([SetEx(0)] + ([Tick(29)] + ([Request(1, f)] + [])));
    Cons(env, s2, Change({row}), es);
    Cons(env, s1, Fetch(0, []), [Change({row})] + es);
    Cons(env, s0, Request(0, f), [Fetch(0, [])] + ([Change({row})] + es));
    assert Selected(env.search, f, {row}) == {row};
    assert !AnswersQuery(env.search, f, {row}, []);
  }

  /** How stale a response can be, exactly: every response answers a table current less than
      `age` before it if and only if age is at least TTL + delay. So the 30 seconds of an entry
      bound it if and only if no miss takes any time. */
  lemma StalenessExactly(env: Env, age: int)
    requires forall a, b :: env.iso(a) == env.iso(b) ==> a == b
    ensures AlwaysFresh(env, age) <==> TTL + env.delay <= age
    ensures AlwaysFresh(env, TTL) <==> env.delay == 0
  {
    FreshExactly(env, age);
    FreshExactly(env, TTL);
  }

  lemma FreshExactly(env: Env, age: int)
    requires forall a, b :: env.iso(a) == env.iso(b) ==> a == b
    ensures AlwaysFresh(env, age) <==> TTL + env.delay <= age
  {
    if TTL + env.delay <= age {
      forall table, es, r | Run(env, Initial(table), es) && r in Exec(env, Initial(table), es).replies
        ensures Fresh(env, Exec(env, Initial(table), es), r, age)
      {
        CacheAgreement(env, table, es, r);
        var p := (r.fetched.at, r.fetched.table);
        assert p in Exec(env, Initial(table), es).tables;
      }
    } else {
      var f := Filters(None, None, None, None, None, 1);
      var row := Row(0, Null, Null, Null, Instant(0), Null, None);
      HitsOutliveTtl(env, f, row, age);
    }
  }
}
