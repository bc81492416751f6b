/** Compiling query filters to SQL conditions over numbered placeholders. */
module Query {
  import opened Wrappers
  import opened Events
  import opened Partitions

  datatype Filters = Filters(service: Option<string>, level: Option<string>, search: Option<string>,
                             since: Option<int>, until: Option<int>, limit: nat)

  /** A WHERE condition; the number is that of its placeholder. */
  datatype Cond =
    | ServiceEq(k: int)   // service = $k
    | LevelEq(k: int)     // level = $k
    | Matches(k: int)     // to_tsvector('english', message) @@ plainto_tsquery('english', $k)
    | TimestampGe(k: int) // timestamp >= $k
    | TimestampLt(k: int) // timestamp < $k

  datatype Param = Text(text: string) | Time(time: int) | Count(count: nat)

  /** WHERE conditions joined by AND (TRUE if none), ORDER BY timestamp DESC, LIMIT $limit. */
  datatype Sql = Sql(conditions: seq<Cond>, limit: int)

  /** PostgreSQL's text search: whether a message matches a plain-text query. */
  type Search = (string, string) -> bool

  // --------------------------------------------------------- meaning of a statement

  predicate Bound(k: int, params: seq<Param>) {
    1 <= k <= |params|
  }

  /** A condition with $k bound to params[k - 1]. */
  predicate Holds(search: Search, c: Cond, params: seq<Param>, r: Row)
    requires Bound(c.k, params)
  {
    HoldsWith(search, c, params[c.k - 1], r)
  }

  predicate HoldsWith(search: Search, c: Cond, p: Param, r: Row) {
    match (c, p)
    case (ServiceEq(_), Text(v)) => r.service == Str(v)
    case (LevelEq(_), Text(v)) => r.level == Str(v)
    case (Matches(_), Text(v)) => r.message.Str? && search(r.message.s, v)
    case (TimestampGe(_), Time(t)) => At(r) >= t
    case (TimestampLt(_), Time(t)) => At(r) < t
    case _ => false
  }

  predicate AllBound(conditions: seq<Cond>, params: seq<Param>) {
    forall c :: c in conditions ==> Bound(c.k, params)
  }

  predicate HoldsAll(search: Search, conditions: seq<Cond>, params: seq<Param>, r: Row)
    requires AllBound(conditions, params)
  {
    forall c :: c in conditions ==> Holds(search, c, params, r)
  }

  /** The rows a list may be answered with: newest first, no row twice, as many as there are up
      to the limit, and none left out that is newer than one returned. Ties are free. */
  ghost predicate Answers(result: seq<Row>, rows: set<Row>, limit: nat) {
    && (forall r :: r in result ==> r in rows)
    && (forall i, j :: 0 <= i < j < |result| ==> result[i] != result[j] && At(result[i]) >= At(result[j]))
    && |result| == (if limit < |rows| then limit else |rows|)
    && (forall r, q :: r in rows && r !in result && q in result ==> At(r) <= At(q))
  }

  lemma {:induction false} NewestOf(rows: set<Row>) returns (newest: Row)
    requires rows != {}
    ensures newest in rows && forall r :: r in rows ==> At(r) <= At(newest)
    decreases rows
  {
    newest :| newest in rows;
    if rows != {newest} {
      var other := NewestOf(rows - {newest});
      if At(newest) < At(other) { newest := other; }
    }
  }

  /** There always is an answer. */
  lemma {:induction false} AnswersExist(rows: set<Row>, limit: nat) returns (result: seq<Row>)
    ensures Answers(result, rows, limit)
    decreases limit
  {
    result := [];
    if limit > 0 && rows != {} {
      var newest := NewestOf(rows);
      var rest := AnswersExist(rows - {newest}, limit - 1);
      result := [newest] + rest;
      assert forall r :: r in result <==> r == newest || r in rest;
    }
  }

  /** What executing the statement on a table may return. */
  ghost predicate Executes(search: Search, sql: Sql, params: seq<Param>, table: set<Row>, result: seq<Row>)
    requires AllBound(sql.conditions, params) && Bound(sql.limit, params)
  {
    && params[sql.limit - 1].Count?
    && Answers(result, (set r | r in table && HoldsAll(search, sql.conditions, params, r)), params[sql.limit - 1].count)
  }

  // ----------------------------------------------------------- meaning of the filters

  /** The filters as the endpoint documents them: since inclusive, until exclusive. */
  predicate Selects(search: Search, f: Filters, r: Row) {
    && (f.service.Some? ==> r.service == Str(f.service.value))
    && (f.level.Some? ==> r.level == Str(f.level.value))
    && (f.search.Some? ==> r.message.Str? && search(r.message.s, f.search.value))
    && InRange(At(r), f.since, f.until)
  }

  function Selected(search: Search, f: Filters, table: set<Row>): set<Row> {
    set r | r in table && Selects(search, f, r)
  }

  ghost predicate AnswersQuery(search: Search, f: Filters, table: set<Row>, result: seq<Row>) {
    Answers(result, Selected(search, f, table), f.limit)
  }

  // --------------------------------------------------------------------- compilation

  /** The placeholders of the conditions are 1, 2, ... in order. */
  predicate Numbered(conditions: seq<Cond>) {
    forall i :: 0 <= i < |conditions| ==> conditions[i].k == i + 1
  }

  lemma HoldsSnoc(search: Search, conditions: seq<Cond>, params: seq<Param>, c: Cond, p: Param)
    requires AllBound(conditions, params) && c.k == |params| + 1
    ensures AllBound(conditions + [c], params + [p])
    ensures forall r :: HoldsAll(search, conditions + [c], params + [p], r) <==>
      HoldsAll(search, conditions, params, r) && Holds(search, c, params + [p], r)
  {
    var more := params + [p];
    forall d | d in conditions
      ensures Bound(d.k, more) && more[d.k - 1] == params[d.k - 1]
    {}
    forall r
      ensures HoldsAll(search, conditions + [c], more, r) <==>
        HoldsAll(search, conditions, params, r) && Holds(search, c, more, r)
    {
      assert c in conditions + [c];
      forall d | d in conditions
        ensures Holds(search, d, more, r) == Holds(search, d, params, r) && d in conditions + [c]
      {}
    }
  }

  ghost predicate Means(search: Search, conditions: seq<Cond>, params: seq<Param>, f: Filters) {
    && |conditions| == |params| && Numbered(conditions) && AllBound(conditions, params)
    && forall r :: HoldsAll(search, conditions, params, r) <==> Selects(search, f, r)
  }

  /** The filter that one condition, with its parameter, adds to `f`. */
  function Adding(f: Filters, c: Cond, p: Param): Filters {
    match (c, p)
    case (ServiceEq(_), Text(v)) => f.(service := Some(v))
    case (LevelEq(_), Text(v)) => f.(level := Some(v))
    case (Matches(_), Text(v)) => f.(search := Some(v))
    case (TimestampGe(_), Time(t)) => f.(since := Some(t))
    case (TimestampLt(_), Time(t)) => f.(until := Some(t))
    case _ => f
  }

  /** The condition's own field is not filtered on yet, and its parameter has the right type. */
  predicate Addable(f: Filters, c: Cond, p: Param) {
    match (c, p)
    case (ServiceEq(_), Text(v)) => f.service.None?
    case (LevelEq(_), Text(v)) => f.level.None?
    case (Matches(_), Text(v)) => f.search.None?
    case (TimestampGe(_), Time(t)) => f.since.None?
    case (TimestampLt(_), Time(t)) => f.until.None?
    case _ => false
  }

  const NO_FILTERS: Filters := Filters(None, None, None, None, None, 0)

  /** The filters read back from the first n conditions and their parameters. */
  function Read(conditions: seq<Cond>, params: seq<Param>, n: nat): Option<Filters>
    requires n <= |conditions| == |params|
  {
    if n == 0 then Some(NO_FILTERS)
    else
      match Read(conditions, params, n - 1)
      case Some(f) =>
        if conditions[n - 1].k == n && Addable(f, conditions[n - 1], params[n - 1])
        then Some(Adding(f, conditions[n - 1], params[n - 1])) else None
      case None => None
  }

  lemma {:induction false} ReadPrefix(conditions: seq<Cond>, params: seq<Param>, c: Cond, p: Param, n: nat)
    requires n <= |conditions| == |params|
    ensures Read(conditions + [c], params + [p], n) == Read(conditions, params, n)
    decreases n
  {
    if n > 0 {
      ReadPrefix(conditions, params, c, p, n - 1);
    }
  }

  /** All conditions read back as `f`. */
  predicate ReadsAs(conditions: seq<Cond>, params: seq<Param>, f: Filters) {
    |conditions| == |params| && Read(conditions, params, |conditions|) == Some(f)
  }

  lemma ReadNext(conditions: seq<Cond>, params: seq<Param>, f: Filters, c: Cond, p: Param)
    requires ReadsAs(conditions, params, f) && c.k == |conditions| + 1 && Addable(f, c, p)
    ensures ReadsAs(conditions + [c], params + [p], Adding(f, c, p))
  {
    ReadPrefix(conditions, params, c, p, |conditions|);
  }

  lemma MeansNext(search: Search, conditions: seq<Cond>, params: seq<Param>, f: Filters, c: Cond, p: Param)
    requires Means(search, conditions, params, f) && c.k == |params| + 1 && Addable(f, c, p)
    ensures Means(search, conditions + [c], params + [p], Adding(f, c, p))
  {
    HoldsSnoc(search, conditions, params, c, p);
  }

  lemma {:induction false} ReadMeans(search: Search, conditions: seq<Cond>, params: seq<Param>, n: nat)
    requires n <= |conditions| == |params| && Read(conditions, params, n).Some?
    ensures Means(search, conditions[..n], params[..n], Read(conditions, params, n).value)
    decreases n
  {
    if n > 0 {
      ReadMeans(search, conditions, params, n - 1);
      MeansNext(search, conditions[..n - 1], params[..n - 1], Read(conditions, params, n - 1).value, conditions[n - 1], params[n - 1]);
      assert conditions[..n] == conditions[..n - 1] + [conditions[n - 1]];
      assert params[..n] == params[..n - 1] + [params[n - 1]];
    }
  }

  /** The conditions and their parameters read back as the filters they came from. */
  method BuildConditions(f: Filters) returns (conditions: seq<Cond>, params: seq<Param>, paramIdx: int)
    ensures ReadsAs(conditions, params, f.(limit := 0)) && paramIdx == |params| + 1
  {
    conditions, params := [], [];
    paramIdx := 1;
    ghost var g := NO_FILTERS;
    if f.service.Some? {
      ReadNext(conditions, params, g, ServiceEq(paramIdx), Text(f.service.value));
      conditions := conditions + [ServiceEq(paramIdx)];
      params := params + [Text(f.service.value)];
      paramIdx := paramIdx + 1;
      g := g.(service := f.service);
    }
    assert ReadsAs(conditions, params, g) && g.service == f.service;
    if f.level.Some? {
      ReadNext(conditions, params, g, LevelEq(paramIdx), Text(f.level.value));
      conditions := conditions + [LevelEq(paramIdx)];
      params := params + [Text(f.level.value)];
      paramIdx := paramIdx + 1;
      g := g.(level := f.level);
    }
    assert ReadsAs(conditions, params, g) && g.level == f.level;
    if f.search.Some? {
      ReadNext(conditions, params, g, Matches(paramIdx), Text(f.search.value));
      conditions := conditions + [Matches(paramIdx)];
      params := params + [Text(f.search.value)];
      paramIdx := paramIdx + 1;
      g := g.(search := f.search);
    }
    assert ReadsAs(conditions, params, g) && g.search == f.search;
    if f.since.Some? {
      ReadNext(conditions, params, g, TimestampGe(paramIdx), Time(f.since.value));
      conditions := conditions + [TimestampGe(paramIdx)];
      params := params + [Time(f.since.value)];
      paramIdx := paramIdx + 1;
      g := g.(since := f.since);
    }
    assert ReadsAs(conditions, params, g) && g.since == f.since;
    if f.until.Some? {
      ReadNext(conditions, params, g, TimestampLt(paramIdx), Time(f.until.value));
      conditions := conditions + [TimestampLt(paramIdx)];
      params := params + [Time(f.until.value)];
      paramIdx := paramIdx + 1;
      g := g.(until := f.until);
    }
    assert ReadsAs(conditions, params, g) && g.until == f.until;
  }

  /** `_build_query`: the statement has exactly the placeholders 1..len(params), and executing
      it means what the filters say, on every table. */
  method BuildQuery(f: Filters, ghost search: Search) returns (sql: Sql, params: seq<Param>)
    ensures |params| == |sql.conditions| + 1 && Numbered(sql.conditions) && sql.limit == |params|
    ensures AllBound(sql.conditions, params)
    ensures forall table, result ::
      Executes(search, sql, params, table, result) <==> AnswersQuery(search, f, table, result)
  {
    var conditions, paramIdx;
    conditions, params, paramIdx := BuildConditions(f);
    ReadMeans(search, conditions, params, |conditions|);
    assert conditions[..|conditions|] == conditions && params[..|conditions|] == params;
    Compiled(search, conditions, params, f);
    sql := Sql(conditions, paramIdx);
    params := params + [Count(f.limit)];
  }

  lemma LastUnused(search: Search, conditions: seq<Cond>, params: seq<Param>, p: Param)
    requires AllBound(conditions, params)
    ensures AllBound(conditions, params + [p])
    ensures forall r :: HoldsAll(search, conditions, params + [p], r) == HoldsAll(search, conditions, params, r)
  {}

  /** Executing a statement with the right conditions and limit answers the query. */
  lemma Compiled(search: Search, conditions: seq<Cond>, params: seq<Param>, f: Filters)
    requires Means(search, conditions, params, f.(limit := 0))
    ensures var sql, all := Sql(conditions, |params| + 1), params + [Count(f.limit)];
      && AllBound(conditions, all)
      && forall table, result :: Executes(search, sql, all, table, result) <==> AnswersQuery(search, f, table, result)
  {
    var sql, all := Sql(conditions, |params| + 1), params + [Count(f.limit)];
    LastUnused(search, conditions, params, Count(f.limit));
    forall table, result
      ensures Executes(search, sql, all, table, result) <==> AnswersQuery(search, f, table, result)
    {
      assert (set r | r in table && HoldsAll(search, conditions, all, r)) == Selected(search, f, table);
    }
  }

  /** The statement may be executed on the default and overlapping partitions only. */
  lemma QueryMayPrune(search: Search, f: Filters, s: Store, result: seq<Row>)
    requires StoreOk(s)
    ensures AnswersQuery(search, f, PrunedScan(s, f.since, f.until), result) <==>
            AnswersQuery(search, f, AllRows(s), result)
  {
    PrunedIsFull(s, f.since, f.until);
    assert Selected(search, f, PrunedScan(s, f.since, f.until)) == Selected(search, f, AllRows(s));
  }
}
