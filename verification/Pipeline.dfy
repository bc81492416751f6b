/** The parts put together: what was published is what a pruned query finds, and what was
    dead-lettered is what a replay publishes. */
module Pipeline {
  import opened Wrappers
  import opened Events
  import opened Kafka
  import opened LogWriter
  import opened LogWriterSafety
  import opened LogWriterOnce
  import opened Partitions
  import opened Query
  import opened Replay

  /** The partitioned store while a run goes on, and the ranges that have been dropped. */
  datatype Place = Place(store: Store, gone: set<Part>)

  /** What happens to the store: an effect of the writer, or a CREATE or DROP of maintenance. */
  datatype Action = Effect(e: LogWriter.Event) | Maintain(op: Op)

  /** The writer's part of it. */
  function Effects(actions: seq<Action>): seq<LogWriter.Event> {
    if actions == [] then []
    else (if actions[0].Effect? then [actions[0].e] else []) + Effects(actions[1..])
  }

  ghost function InsertRows(s: Store, rows: seq<Row>): Store {
    if rows == [] then s else Partitions.Insert(InsertRows(s, rows[..|rows| - 1]), rows[|rows| - 1])
  }

  /** The INSERTs of an effect, run on the partitioned store. */
  ghost function Written(env: Env, s: State, e: LogWriter.Event, store: Store): Store
    requires Enabled(env, s, e)
  {
    match e
    case BatchOk => InsertRows(store, s.phase.work.rows)
    case BatchFail(applied) => if applied then InsertRows(store, s.phase.work.rows) else store
    case SingleOk => Partitions.Insert(store, s.phase.work.rows[s.phase.i])
    case SingleFail(applied) =>
      if applied then Partitions.Insert(store, s.phase.work.rows[s.phase.i]) else store
    case _ => store
  }

  /** Maintenance inserts no rows. */
  ghost function Maintained(place: Place, op: Op): Place {
    match op
    case InsertRow(_) => place
    case CreatePart(_, _, _) => place.(store := Perform(place.store, op))
    case DropPart(name) =>
      Place(Perform(place.store, op),
            place.gone + if name in place.store.parts then {place.store.parts[name]} else {})
  }

  /** The store after a run of the writer with maintenance in between. */
  ghost function Placed(env: Env, s: State, actions: seq<Action>, place: Place): Place
    requires Run(env, s, Effects(actions))
    decreases |actions|
  {
    if actions == [] then place
    else
      match actions[0]
      case Maintain(op) =>
        assert Effects(actions) == Effects(actions[1..]);
        Placed(env, s, actions[1..], Maintained(place, op))
      case Effect(e) =>
        assert Effects(actions) == [e] + Effects(actions[1..]);
        assert Effects(actions)[1..] == Effects(actions[1..]);
        Placed(env, Apply(env, s, e), actions[1..], place.(store := Written(env, s, e, place.store)))
  }

  predicate Gone(gone: set<Part>, t: int) {
    exists p :: p in gone && p.Covers(t)
  }

  /** Every row is stored under its key. */
  predicate Keyed(table: Table) {
    forall k :: k in table ==> KeyOf(table[k]) == k
  }

  /** Outside the dropped ranges, the writer's table and the store hold the same rows. */
  ghost predicate Agree(table: Table, place: Place) {
    && StoreOk(place.store) && Keyed(table)
    && forall r :: !Gone(place.gone, At(r)) ==> (r in AllRows(place.store) <==> r in table.Values)
  }

  lemma InsertValues(table: Table, r: Row)
    requires Keyed(table)
    ensures Keyed(InsertIfAbsent(table, r))
    ensures forall q :: q in InsertIfAbsent(table, r).Values <==> q in table.Values || (q == r && KeyOf(r) !in table)
  {
    var after := InsertIfAbsent(table, r);
    if KeyOf(r) !in table {
      assert after[KeyOf(r)] == r;
      forall q | q in table.Values
        ensures q in after.Values
      {
        var k :| k in table && table[k] == q;
        assert after[k] == q;
      }
    }
  }

  lemma InsertAgrees(table: Table, place: Place, r: Row)
    requires Agree(table, place)
    ensures Agree(InsertIfAbsent(table, r), place.(store := Partitions.Insert(place.store, r)))
  {
    InsertKeepsStoreOk(place.store, r);
    InsertRefinesTable(place.store, r);
    InsertValues(table, r);
    if !Gone(place.gone, At(r)) {
      if KeyOf(r) in table {
        assert table[KeyOf(r)] in table.Values && At(table[KeyOf(r)]) == At(r);
        assert HasKey(AllRows(place.store), r);
      }
      forall q | q in AllRows(place.store) && KeyOf(q) == KeyOf(r)
        ensures KeyOf(r) in table
      {
        assert At(q) == At(r) && q in table.Values;
      }
    }
  }

  lemma {:induction false} InsertAllAgrees(table: Table, place: Place, rows: seq<Row>)
    requires Agree(table, place)
    ensures Agree(InsertAll(table, rows), place.(store := InsertRows(place.store, rows)))
    decreases |rows|
  {
    if rows != [] {
      var n := |rows| - 1;
      InsertAllAgrees(table, place, rows[..n]);
      InsertAgrees(InsertAll(table, rows[..n]), place.(store := InsertRows(place.store, rows[..n])), rows[n]);
    }
  }

  lemma EffectAgrees(env: Env, s: State, e: LogWriter.Event, place: Place)
    requires Enabled(env, s, e) && Agree(s.table, place)
    ensures Agree(Apply(env, s, e).table, place.(store := Written(env, s, e, place.store)))
  {
    if e.BatchOk? || (e.BatchFail? && e.applied) {
      InsertAllAgrees(s.table, place, s.phase.work.rows);
    } else if e.SingleOk? || (e.SingleFail? && e.applied) {
      InsertAgrees(s.table, place, s.phase.work.rows[s.phase.i]);
    }
  }

  /** A CREATE, which may raise, moves no row; a DROP loses rows of its range only. */
  lemma MaintenanceAgrees(table: Table, place: Place, op: Op)
    requires Agree(table, place)
    ensures Agree(table, Maintained(place, op))
  {
    match op
    case InsertRow(_) =>
    case CreatePart(name, lo, hi) =>
      if lo < hi && Create(place.store, name, lo, hi).Some? { CreateKeepsStoreOk(place.store, name, lo, hi); }
    case DropPart(name) =>
      DropKeepsStoreOk(place.store, name);
      var after := Maintained(place, op);
      forall r | !Gone(after.gone, At(r))
        ensures !Gone(place.gone, At(r))
        ensures name in place.store.parts ==> r !in place.store.parts[name].rows
      {
        forall p | p in place.gone ensures p in after.gone {}
        if name in place.store.parts { assert place.store.parts[name] in after.gone; }
      }
  }

  /** The store that a run wrote agrees with the table, whatever failed, was redelivered, or was
      created and dropped on the way. */
  lemma {:induction false} RunAgrees(env: Env, s: State, actions: seq<Action>, place: Place)
    requires Run(env, s, Effects(actions)) && Agree(s.table, place)
    ensures Agree(Exec(env, s, Effects(actions)).table, Placed(env, s, actions, place))
    decreases |actions|
  {
    if actions != [] {
      match actions[0]
      case Maintain(op) =>
        assert Effects(actions) == Effects(actions[1..]);
        MaintenanceAgrees(s.table, place, op);
        RunAgrees(env, s, actions[1..], Maintained(place, op));
      case Effect(e) =>
        assert Effects(actions) == [e] + Effects(actions[1..]);
        assert Effects(actions)[1..] == Effects(actions[1..]);
        EffectAgrees(env, s, e, place);
        RunAgrees(env, Apply(env, s, e), actions[1..], place.(store := Written(env, s, e, place.store)));
    }
  }

  /** From the topic to a query, through the partitions: once the writer has caught up, whatever
      failed on the way and whatever partitions were created or dropped meanwhile, a query pruned
      to the overlapping partitions answers exactly as if every acceptable published row had been
      stored once, provided it asks for no instant of a dropped partition. */
  lemma IngestToQuery(env: Env, n: nat, actions: seq<Action>, s: State, pass: seq<Loc>,
                      layout: Store, place: Place, search: Search, f: Filters, result: seq<Row>)
    requires Run(env, Initial(n), Effects(actions)) && CalmRun(env, Initial(n), Effects(actions))
    requires s == Exec(env, Initial(n), Effects(actions))
    requires CaughtUp(s.broker) && Pass(s.broker, pass)
    requires |s.broker.logs| == 1 || KeysDetermineRows(env, s.broker)
    requires StoreOk(layout) && AllRows(layout) == {}
    requires place == Placed(env, Initial(n), actions, Place(layout, {}))
    requires forall t :: InRange(t, f.since, f.until) ==> !Gone(place.gone, t)
    ensures AnswersQuery(search, f, PrunedScan(place.store, f.since, f.until), result) <==>
            AnswersQuery(search, f, FailureFree(env, s.broker, pass).Values, result)
  {
    EffectivelyOnce(env, n, Effects(actions), s, pass);
    RunAgrees(env, Initial(n), actions, Place(layout, {}));
    QueryMayPrune(search, f, place.store, result);
    assert Selected(search, f, AllRows(place.store)) == Selected(search, f, s.table.Values);
  }

  /** An acceptable message's row is in the table of a caught-up run, if keys determine rows. */
  lemma RowIsStored(env: Env, n: nat, es: seq<LogWriter.Event>, s: State, l: Loc)
    requires Run(env, Initial(n), es) && CalmRun(env, Initial(n), es) && s == Exec(env, Initial(n), es)
    requires CaughtUp(s.broker) && KeysDetermineRows(env, s.broker) && Acceptable(env, s.broker, l)
    ensures RowAt(env, s.broker, l).value in s.table.Values
  {
    InitialInv(env, n, true);
    RunKeepsTableOk(env, Initial(n), es);
    assert s.broker.Covered(l) && LogWriter.Settled(env, s, l);
    var k := RowKey(env, s.broker, l);
    var source :| Source(env, s.broker, s.table, k, source);
    assert RowAt(env, s.broker, source) == RowAt(env, s.broker, l);
    assert s.table[k] == RowAt(env, s.broker, l).value;
  }

  /** From the API to a query: an event that was published and is acceptable to the database is
      among the rows a query for its service and level selects, with all its fields, once the
      writer has caught up; so it is returned, unless the limit cuts the answer. */
  lemma EventIsFound(env: Env, n: nat, actions: seq<Action>, s: State, layout: Store, place: Place, l: Loc, e: LogEvent,
                     search: Search, f: Filters, row: Row, result: seq<Row>)
    requires Run(env, Initial(n), Effects(actions)) && CalmRun(env, Initial(n), Effects(actions))
    requires s == Exec(env, Initial(n), Effects(actions)) && CaughtUp(s.broker) && KeysDetermineRows(env, s.broker)
    requires StoreOk(layout) && AllRows(layout) == {} && place == Placed(env, Initial(n), actions, Place(layout, {}))
    requires Acceptable(env, s.broker, l) && Carries(env, s.broker.Fetch(l), e) && row == RowAt(env, s.broker, l).value
    requires f.service == Some(e.service) && f.level == Some(e.level) && f.search == None
    requires InRange(At(row), f.since, f.until) && !Gone(place.gone, At(row))
    ensures HoldsEvent(env, row, e) && row in Selected(search, f, PrunedScan(place.store, f.since, f.until))
    ensures AnswersQuery(search, f, PrunedScan(place.store, f.since, f.until), result) && row !in result ==>
      |result| == f.limit && forall q :: q in result ==> At(row) <= At(q)
  {
    EventRoundTrip(env, s.broker.Fetch(l), e);
    RowIsStored(env, n, Effects(actions), s, l);
    RunAgrees(env, Initial(n), actions, Place(layout, {}));
    PrunedIsFull(place.store, f.since, f.until);
    var selected := Selected(search, f, PrunedScan(place.store, f.since, f.until));
    assert row in selected;
    if AnswersQuery(search, f, PrunedScan(place.store, f.since, f.until), result) && row !in result {
      AllReturned(result, selected, f.limit, row);
    }
  }

  /** An answer shorter than its limit is complete. */
  lemma AllReturned(result: seq<Row>, rows: set<Row>, limit: nat, row: Row)
    requires Answers(result, rows, limit) && row in rows && row !in result
    ensures |result| == limit
  {
    var returned := set r | r in result;
    DistinctRows(result);
    assert returned <= rows - {row};
    SubsetCard(returned, rows - {row});
  }

  lemma {:induction false} DistinctRows(rows: seq<Row>)
    requires forall i, j :: 0 <= i < j < |rows| ==> rows[i] != rows[j]
    ensures |set r | r in rows| == |rows|
    decreases |rows|
  {
    if rows != [] {
      var n := |rows| - 1;
      DistinctRows(rows[..n]);
      assert (set r | r in rows) == (set r | r in rows[..n]) + {rows[n]};
    }
  }

  /** The messages in the dead-letter log of a state, in order. */
  function DeadLetters(b: Broker, attempts: seq<Attempt>): seq<Dead> {
    if attempts == [] then []
    else
      var last := attempts[|attempts| - 1];
      DeadLetters(b, attempts[..|attempts| - 1])
      + if last.delivered && b.Holds(last.loc) then [Dead(b.Fetch(last.loc), last.loc)] else []
  }

  lemma {:induction false} DeadLettersRoutable(b: Broker, attempts: seq<Attempt>)
    requires forall a :: a in attempts ==> b.Holds(a.loc) && (a.delivered ==> Routable(b.Fetch(a.loc)))
    ensures forall d :: d in DeadLetters(b, attempts) ==> Routable(d.m)
    decreases |attempts|
  {
    if attempts != [] {
      DeadLettersRoutable(b, attempts[..|attempts| - 1]);
      assert attempts[|attempts| - 1] in attempts;
    }
  }

  /** They are exactly the messages whose envelopes were delivered. */
  lemma {:induction false} DeadLettersAre(b: Broker, attempts: seq<Attempt>)
    ensures forall l :: b.Holds(l) ==> (Dead(b.Fetch(l), l) in DeadLetters(b, attempts) <==> Attempt(l, true) in attempts)
    decreases |attempts|
  {
    if attempts != [] {
      var last := attempts[|attempts| - 1];
      DeadLettersAre(b, attempts[..|attempts| - 1]);
      assert attempts == attempts[..|attempts| - 1] + [last];
    }
  }

  lemma {:induction false} OriginalsHave(validates: string -> bool, dead: seq<Dead>, d: Dead)
    requires d in dead && Replayable(validates, d.m)
    ensures d.m.value in Originals(validates, dead)
    decreases |dead|
  {
    if d != dead[|dead| - 1] {
      OriginalsHave(validates, dead[..|dead| - 1], d);
    }
  }

  /** A message that was dead-lettered and is a valid log event is among the originals that a
      replay publishes. */
  lemma QuarantinedIsReplayed(env: Env, s: State, validates: string -> bool, l: Loc)
    requires s.broker.Holds(l) && Quarantined(s, l) && Replayable(validates, s.broker.Fetch(l))
    ensures s.broker.Fetch(l).value in Originals(validates, DeadLetters(s.broker, s.attempts))
  {
    DeadLettersAre(s.broker, s.attempts);
    OriginalsHave(validates, DeadLetters(s.broker, s.attempts), Dead(s.broker.Fetch(l), l));
  }

  /** From the dead-letter topic back: replaying what any run of the writer dead-lettered raises
      nothing of its own and publishes, in order and byte for byte, the original values of the
      valid log events among them; undisturbed, all of them up to the limit. (That the envelopes
      exist, which the hypothesis on the outcome needs, is part of the result.) */
  lemma DeadLettersReplay(env: Env, n: nat, es: seq<LogWriter.Event>, validates: string -> bool,
                          topic: string, consumer: string, group: string, dead: seq<Dead>,
                          limit: int, published: seq<string>, consumed: nat, stop: Stop)
    requires Run(env, Initial(n), es)
    requires dead == DeadLetters(Exec(env, Initial(n), es).broker, Exec(env, Initial(n), es).attempts)
    requires (forall d :: d in dead ==> Routable(d.m)) ==>
      Outcome(validates, Records(dead, topic, consumer, group), limit, published, consumed, stop)
    ensures !stop.Unhandled? && Values(published) <= Originals(validates, dead)
    ensures !stop.ClientRaised? && (stop.TimedOut? ==> consumed == |dead|) ==>
      |published| == if limit <= 0 then 0
                     else if limit < |Originals(validates, dead)| then limit
                     else |Originals(validates, dead)|
  {
    var s := Exec(env, Initial(n), es);
    InitialInv(env, n, false);
    RunKeepsInv(env, Initial(n), false, es);
    DeadLettersRoutable(s.broker, s.attempts);
    RoundTrip(validates, dead, topic, consumer, group, limit, published, consumed, stop);
  }
}
