/** Effectively-once storage: redelivery, ambiguous batch failures and fallbacks leave
    the table that one pass without failures would have built. */
module LogWriterOnce {
  import opened Wrappers
  import opened Events
  import opened Kafka
  import opened LogWriter
  import opened LogWriterSafety

  function RowKey(env: Env, b: Broker, l: Loc): Key
    requires Acceptable(env, b, l)
  {
    KeyOf(RowAt(env, b, l).value)
  }

  /** Message `l` supplied the stored row of key `k`; on one partition it is the first
      acceptable message with that key. */
  ghost predicate Source(env: Env, b: Broker, table: Table, k: Key, l: Loc)
    requires k in table
  {
    && Acceptable(env, b, l) && RowKey(env, b, l) == k && RowAt(env, b, l).value == table[k]
    && (|b.logs| == 1 ==>
          forall o: nat :: o < l.offset && Acceptable(env, b, Loc(l.partition, o)) ==>
            RowKey(env, b, Loc(l.partition, o)) != k)
  }

  ghost predicate TableOk(env: Env, b: Broker, table: Table) {
    forall k :: k in table ==> exists l :: Source(env, b, table, k, l)
  }

  /** Everything acceptable before `l` has its key stored. */
  ghost predicate StoredBelow(env: Env, b: Broker, table: Table, l: Loc) {
    forall o: nat :: o < l.offset && Acceptable(env, b, Loc(l.partition, o)) ==>
      RowKey(env, b, Loc(l.partition, o)) in table
  }

  lemma InsertKeepsTableOk(env: Env, b: Broker, table: Table, l: Loc)
    requires TableOk(env, b, table) && Acceptable(env, b, l)
    requires |b.logs| == 1 ==> StoredBelow(env, b, table, l)
    ensures TableOk(env, b, InsertIfAbsent(table, RowAt(env, b, l).value))
  {
    var after := InsertIfAbsent(table, RowAt(env, b, l).value);
    forall k | k in after
      ensures exists r :: Source(env, b, after, k, r)
    {
      if k in table {
        var r :| Source(env, b, table, k, r);
        assert Source(env, b, after, k, r);
      } else {
        assert Source(env, b, after, k, l);
      }
    }
  }

  /** In a calm run over one partition, the row about to be inserted has all its
      predecessors stored: nothing else can still be pending. */
  lemma NextRowHasPredecessors(env: Env, s: State, j: nat)
    requires Inv(env, s, true) && |s.broker.logs| == 1
    requires s.phase.Insert? || (s.phase.Fallback? && s.phase.i <= j)
    requires j < |s.phase.work.rows|
    ensures var w := s.phase.work;
      forall o: nat :: o < w.valid[j].offset && Acceptable(env, s.broker, Loc(w.valid[j].partition, o)) ==>
        || RowKey(env, s.broker, Loc(w.valid[j].partition, o)) in s.table
        || exists i :: (if s.phase.Insert? then 0 else s.phase.i) <= i < j && w.valid[i] == Loc(w.valid[j].partition, o)
  {
    var w, todo := s.phase.work, s.phase.todo;
    assert RowAt(env, s.broker, w.valid[j]) == Some(w.rows[j]);
    assert w.partition == 0;
    assert todo != [] ==> todo[0].partition != w.partition;
    assert Locs(todo) == {};
    assert w.valid[j] in Pending(s.phase) by {
      if s.phase.Fallback? { assert w.valid[j] == w.valid[s.phase.i..][j - s.phase.i]; }
    }
    forall o: nat | o < w.valid[j].offset && Acceptable(env, s.broker, Loc(0, o))
      ensures RowKey(env, s.broker, Loc(0, o)) in s.table ||
        exists i :: (if s.phase.Insert? then 0 else s.phase.i) <= i < j && w.valid[i] == Loc(0, o)
    {
      var l := Loc(0, o);
      assert s.broker.Polled(w.valid[j]) && s.broker.Polled(l);
      if l in Pending(s.phase) && l !in w.failed {
        var i :| (if s.phase.Insert? then 0 else s.phase.i) <= i < |w.valid| && w.valid[i] == l;
        assert i < j;
      }
    }
  }

  /** So within a batch, the rows before it are all that was missing. */
  lemma BatchHasPredecessors(env: Env, s: State, j: nat)
    requires Inv(env, s, true) && s.phase.Insert? && j < |s.phase.work.rows| && |s.broker.logs| == 1
    ensures StoredBelow(env, s.broker, InsertAll(s.table, s.phase.work.rows[..j]), s.phase.work.valid[j])
  {
    var w, l := s.phase.work, s.phase.work.valid[j];
    var before := InsertAll(s.table, w.rows[..j]);
    InsertAllKeys(s.table, w.rows[..j]);
    NextRowHasPredecessors(env, s, j);
    forall o: nat | o < l.offset && Acceptable(env, s.broker, Loc(l.partition, o))
      ensures RowKey(env, s.broker, Loc(l.partition, o)) in before
    {
      if RowKey(env, s.broker, Loc(l.partition, o)) !in s.table {
        var i :| 0 <= i < j && w.valid[i] == Loc(l.partition, o);
        assert KeyOf(w.rows[..j][i]) in before;
      }
    }
  }

  lemma BatchNextTableOk(env: Env, s: State, j: nat)
    requires Inv(env, s, true) && s.phase.Insert? && j < |s.phase.work.rows|
    requires AllAccepted(env, s.phase.work.rows)
    requires TableOk(env, s.broker, InsertAll(s.table, s.phase.work.rows[..j]))
    ensures TableOk(env, s.broker, InsertAll(s.table, s.phase.work.rows[..j + 1]))
  {
    var rows, l := s.phase.work.rows, s.phase.work.valid[j];
    var before := InsertAll(s.table, rows[..j]);
    assert rows[..j + 1][..j] == rows[..j];
    assert RowAt(env, s.broker, l) == Some(rows[j]);
    assert StoredBelow(env, s.broker, before, l) || |s.broker.logs| != 1 by {
      if |s.broker.logs| == 1 { BatchHasPredecessors(env, s, j); }
    }
    InsertKeepsTableOk(env, s.broker, before, l);
  }

  lemma {:induction false} BatchKeepsTableOk(env: Env, s: State, j: nat)
    requires Inv(env, s, true) && TableOk(env, s.broker, s.table)
    requires s.phase.Insert? && AllAccepted(env, s.phase.work.rows) && j <= |s.phase.work.rows|
    ensures TableOk(env, s.broker, InsertAll(s.table, s.phase.work.rows[..j]))
    decreases j
  {
    if j > 0 {
      BatchKeepsTableOk(env, s, j - 1);
      BatchNextTableOk(env, s, j - 1);
    } else {
      assert InsertAll(s.table, s.phase.work.rows[..0]) == s.table;
    }
  }

  /** Appending messages, or moving positions, leaves every source in place. */
  lemma LogGrowthKeepsTableOk(env: Env, b: Broker, c: Broker, table: Table)
    requires TableOk(env, b, table) && |b.logs| == |c.logs|
    requires forall l :: b.Holds(l) ==> c.Holds(l) && c.Fetch(l) == b.Fetch(l)
    ensures TableOk(env, c, table)
  {
    forall k | k in table
      ensures exists l :: Source(env, c, table, k, l)
    {
      var l :| Source(env, b, table, k, l);
      forall o: nat | o < l.offset && Acceptable(env, c, Loc(l.partition, o))
        ensures Acceptable(env, b, Loc(l.partition, o))
      {
        assert b.Holds(l) && b.Holds(Loc(l.partition, o));
      }
      assert Source(env, c, table, k, l);
    }
  }

  lemma StepKeepsTableOk(env: Env, s: State, e: Event)
    requires Inv(env, s, true) && TableOk(env, s.broker, s.table)
    requires Enabled(env, s, e) && Calm(env, s, e)
    ensures TableOk(env, Apply(env, s, e).broker, Apply(env, s, e).table)
  {
    if e.Produce? {
      LogGrowthKeepsTableOk(env, s.broker, s.broker.Produce(e.p, e.m), s.table);
    } else if e.BatchOk? || (e.BatchFail? && e.applied) {
      var rows := s.phase.work.rows;
      BatchKeepsTableOk(env, s, |rows|);
      assert rows[..|rows|] == rows;
    } else if e.SingleOk? || (e.SingleFail? && e.applied) {
      var w, i := s.phase.work, s.phase.i;
      assert RowAt(env, s.broker, w.valid[i]) == Some(w.rows[i]);
      if |s.broker.logs| == 1 {
        NextRowHasPredecessors(env, s, i);
      }
      InsertKeepsTableOk(env, s.broker, s.table, w.valid[i]);
    } else {
      LogGrowthKeepsTableOk(env, s.broker, Apply(env, s, e).broker, s.table);
    }
  }

  lemma {:induction false} RunKeepsTableOk(env: Env, s: State, es: seq<Event>)
    requires Inv(env, s, true) && TableOk(env, s.broker, s.table)
    requires Run(env, s, es) && CalmRun(env, s, es)
    ensures Inv(env, Exec(env, s, es), true)
    ensures TableOk(env, Exec(env, s, es).broker, Exec(env, s, es).table)
    decreases |es|
  {
    if es != [] {
      StepKeepsInv(env, s, true, es[0]);
      StepKeepsTableOk(env, s, es[0]);
      RunKeepsTableOk(env, Apply(env, s, es[0]), es[1..]);
    }
  }

  // ------------------------------------------------------ the failure-free pass

  /** An order in which one failure-free consumer may see the logs: every message once,
      each partition in offset order. */
  ghost predicate Pass(b: Broker, pass: seq<Loc>) {
    && (forall l :: l in pass <==> b.Holds(l))
    && forall i, j :: 0 <= i < j < |pass| && pass[i].partition == pass[j].partition ==>
         pass[i].offset < pass[j].offset
  }

  /** Insert-if-absent of the acceptable rows, in that order. */
  function FailureFree(env: Env, b: Broker, pass: seq<Loc>): Table {
    if pass == [] then map[]
    else
      var table := FailureFree(env, b, pass[..|pass| - 1]);
      var l := pass[|pass| - 1];
      if Acceptable(env, b, l) then InsertIfAbsent(table, RowAt(env, b, l).value) else table
  }

  ghost predicate FirstInPass(env: Env, b: Broker, pass: seq<Loc>, i: nat) {
    && i < |pass| && Acceptable(env, b, pass[i])
    && forall j :: 0 <= j < i && Acceptable(env, b, pass[j]) ==> RowKey(env, b, pass[j]) != RowKey(env, b, pass[i])
  }

  ghost predicate Supplies(env: Env, b: Broker, pass: seq<Loc>, i: nat, k: Key, row: Row) {
    && FirstInPass(env, b, pass, i)
    && RowKey(env, b, pass[i]) == k
    && RowAt(env, b, pass[i]).value == row
  }

  /** A table of exactly the acceptable keys of a pass, each with its first row. */
  ghost predicate FirstRows(env: Env, b: Broker, pass: seq<Loc>, table: Table) {
    && (forall i :: 0 <= i < |pass| && Acceptable(env, b, pass[i]) ==> RowKey(env, b, pass[i]) in table)
    && (forall k :: k in table ==> exists i: nat :: Supplies(env, b, pass, i, k, table[k]))
  }

  /** One more message in the pass. */
  lemma FirstRowsNext(env: Env, b: Broker, pass: seq<Loc>, l: Loc, table: Table)
    requires FirstRows(env, b, pass, table)
    ensures FirstRows(env, b, pass + [l],
                      if Acceptable(env, b, l) then InsertIfAbsent(table, RowAt(env, b, l).value) else table)
  {
    var more := pass + [l];
    var after := if Acceptable(env, b, l) then InsertIfAbsent(table, RowAt(env, b, l).value) else table;
    forall i | 0 <= i < |more| && Acceptable(env, b, more[i])
      ensures RowKey(env, b, more[i]) in after
    {
      if i < |pass| { assert more[i] == pass[i]; }
    }
    forall k | k in after
      ensures exists i: nat :: Supplies(env, b, more, i, k, after[k])
    {
      if k in table {
        var i: nat :| Supplies(env, b, pass, i, k, table[k]);
        assert Supplies(env, b, more, i, k, after[k]);
      } else {
        assert Supplies(env, b, more, |pass|, k, after[k]);
      }
    }
  }

  lemma {:induction false} FailureFreeKeepsFirst(env: Env, b: Broker, pass: seq<Loc>)
    ensures FirstRows(env, b, pass, FailureFree(env, b, pass))
    decreases |pass|
  {
    if pass != [] {
      var n := |pass| - 1;
      FailureFreeKeepsFirst(env, b, pass[..n]);
      FirstRowsNext(env, b, pass[..n], pass[n], FailureFree(env, b, pass[..n]));
      assert pass[..n] + [pass[n]] == pass;
    }
  }

  /** Messages of different partitions, or offsets, with one key carry one row. */
  ghost predicate KeysDetermineRows(env: Env, b: Broker) {
    forall l, r :: Acceptable(env, b, l) && Acceptable(env, b, r) && RowKey(env, b, l) == RowKey(env, b, r) ==>
      RowAt(env, b, l) == RowAt(env, b, r)
  }

  ghost predicate CaughtUp(b: Broker) {
    forall p :: 0 <= p < |b.logs| && p < |b.committed| ==> b.committed[p] == |b.logs[p]|
  }

  lemma SameRow(env: Env, b: Broker, stored: Table, pass: seq<Loc>, i: nat, k: Key, l: Loc)
    requires Pass(b, pass) && k in stored && Source(env, b, stored, k, l)
    requires |b.logs| == 1 || KeysDetermineRows(env, b)
    requires FirstInPass(env, b, pass, i) && RowKey(env, b, pass[i]) == k
    ensures stored[k] == RowAt(env, b, pass[i]).value
  {}

  lemma StoredInPass(env: Env, b: Broker, stored: Table, pass: seq<Loc>, table: Table, k: Key, l: Loc)
    requires k in stored && Source(env, b, stored, k, l)
    requires Pass(b, pass) && FirstRows(env, b, pass, table)
    ensures k in table
  {
    assert l in pass;
  }

  lemma PassStored(env: Env, b: Broker, stored: Table, pass: seq<Loc>, table: Table, k: Key)
    requires TableOk(env, b, stored) && Pass(b, pass) && FirstRows(env, b, pass, table)
    requires forall l :: Acceptable(env, b, l) ==> RowKey(env, b, l) in stored
    requires |b.logs| == 1 || KeysDetermineRows(env, b)
    requires k in table
    ensures k in stored && stored[k] == table[k]
  {
    var i: nat :| Supplies(env, b, pass, i, k, table[k]);
    var l :| Source(env, b, stored, k, l);
    SameRow(env, b, stored, pass, i, k, l);
  }

  lemma SameMap(a: Table, b: Table)
    requires forall k :: k in a ==> k in b
    requires forall k :: k in b ==> k in a && a[k] == b[k]
    ensures a == b
  {}

  /** A table with every acceptable key, built from the log with first rows winning, is
      the failure-free one. */
  lemma TablesAgree(env: Env, b: Broker, stored: Table, pass: seq<Loc>, table: Table)
    requires TableOk(env, b, stored) && Pass(b, pass) && FirstRows(env, b, pass, table)
    requires forall l :: Acceptable(env, b, l) ==> RowKey(env, b, l) in stored
    requires |b.logs| == 1 || KeysDetermineRows(env, b)
    ensures stored == table
  {
    forall k | k in stored ensures k in table {
      var l :| Source(env, b, stored, k, l);
      StoredInPass(env, b, stored, pass, table, k, l);
    }
    forall k | k in table ensures k in stored && stored[k] == table[k] {
      PassStored(env, b, stored, pass, table, k);
    }
    SameMap(stored, table);
  }

  /** Effectively once: whatever batches failed ambiguously, fell back, or were delivered
      again after crashes, a caught-up table is the one a failure-free pass builds. With one
      partition this needs no assumption on the rows; with more, keys must determine rows. */
  lemma EffectivelyOnce(env: Env, n: nat, es: seq<Event>, s: State, pass: seq<Loc>)
    requires Run(env, Initial(n), es) && CalmRun(env, Initial(n), es) && s == Exec(env, Initial(n), es)
    requires CaughtUp(s.broker) && Pass(s.broker, pass)
    requires |s.broker.logs| == 1 || KeysDetermineRows(env, s.broker)
    ensures s.table == FailureFree(env, s.broker, pass)
  {
    InitialInv(env, n, true);
    RunKeepsTableOk(env, Initial(n), es);
    forall l | Acceptable(env, s.broker, l)
      ensures RowKey(env, s.broker, l) in s.table
    {
      assert s.broker.Covered(l);
      assert Settled(env, s, l);
    }
    FailureFreeKeepsFirst(env, s.broker, pass);
    TablesAgree(env, s.broker, s.table, pass, FailureFree(env, s.broker, pass));
  }

  // ------------------------------------------------------- fallback equivalence

  function AcceptedRows(env: Env, rows: seq<Row>): seq<Row> {
    if rows == [] then []
    else AcceptedRows(env, rows[..|rows| - 1]) + if env.accepts(rows[|rows| - 1]) then [rows[|rows| - 1]] else []
  }

  /** The messages of the rejected rows, in order. */
  function Poison(env: Env, rows: seq<Row>, valid: seq<Loc>): seq<Loc>
    requires |rows| == |valid|
  {
    if rows == [] then []
    else Poison(env, rows[..|rows| - 1], valid[..|rows| - 1])
         + if env.accepts(rows[|rows| - 1]) then [] else [valid[|rows| - 1]]
  }

  function Sent(attempts: seq<Attempt>): seq<Loc> {
    if attempts == [] then [] else Sent(attempts[..|attempts| - 1]) + [attempts[|attempts| - 1].loc]
  }

  lemma {:induction false} AllAcceptedRows(env: Env, rows: seq<Row>, valid: seq<Loc>)
    requires |rows| == |valid| && AllAccepted(env, rows)
    ensures AcceptedRows(env, rows) == rows && Poison(env, rows, valid) == []
    decreases |rows|
  {
    if rows != [] {
      AllAcceptedRows(env, rows[..|rows| - 1], valid[..|rows| - 1]);
      assert rows == rows[..|rows| - 1] + [rows[|rows| - 1]];
    }
  }

  /** Inserting again rows whose keys are present changes nothing. */
  lemma {:induction false} InsertPresent(table: Table, rows: seq<Row>)
    requires forall i :: 0 <= i < |rows| ==> KeyOf(rows[i]) in table
    ensures InsertAll(table, rows) == table
    decreases |rows|
  {
    if rows != [] {
      var front := rows[..|rows| - 1];
      assert forall i :: 0 <= i < |front| ==> front[i] == rows[i];
      InsertPresent(table, front);
    }
  }

  /** The effects of one partition's turn, from its parse to the end of its dead-lettering, in
      which the fallback fails on unacceptable rows only. */
  ghost predicate TurnEvent(env: Env, s: State, e: Event) {
    && (e.BatchOk? || e.BatchFail? || e.SingleOk? || e.SingleFail? || e.Release? || e.Send?)
    && (e.SingleFail? && s.phase.Fallback? && s.phase.i < |s.phase.work.rows| ==>
          !env.accepts(s.phase.work.rows[s.phase.i]))
  }

  ghost predicate TurnRun(env: Env, s: State, es: seq<Event>)
    requires Run(env, s, es)
    decreases |es|
  {
    es != [] ==> TurnEvent(env, s, es[0]) && TurnRun(env, Apply(env, s, es[0]), es[1..])
  }

  /** The messages a turn owes to the dead-letter topic. */
  function Owed(env: Env, w: Work): seq<Loc> {
    w.failed + if |w.rows| == |w.valid| then Poison(env, w.rows, w.valid) else []
  }

  /** The state a turn over parsed work `w`, begun in `s`, has to end in. */
  ghost predicate TurnResult(env: Env, s: State, w: Work, t: State) {
    && t.table == InsertAll(s.table, AcceptedRows(env, w.rows))
    && Sent(t.attempts) == Sent(s.attempts) + Owed(env, w)
  }

  /** How far that turn has got in `t`. */
  ghost predicate Turn(env: Env, s: State, w: Work, todo: seq<Batch>, t: State) {
    && |w.rows| == |w.valid|
    && match t.phase
       case Insert(v, rest) => v == w && rest == todo && t.table == s.table && t.attempts == s.attempts
       case Fallback(v, i, rest) =>
         && rest == todo && i <= |w.rows| && v.rows == w.rows && v.valid == w.valid
         && v.failed == w.failed + Poison(env, w.rows[..i], w.valid[..i])
         && (t.table == InsertAll(s.table, AcceptedRows(env, w.rows[..i])) ||
             (AllAccepted(env, w.rows) && t.table == InsertAll(s.table, w.rows)))
         && t.attempts == s.attempts
       case Route(failed, rest) =>
         && rest == todo && t.table == InsertAll(s.table, AcceptedRows(env, w.rows))
         && Sent(t.attempts) + failed == Sent(s.attempts) + Owed(env, w)
       case Next(rest) => rest == todo && TurnResult(env, s, w, t)
       case Idle => false
  }

  lemma TurnBatchOk(env: Env, s: State, w: Work, todo: seq<Batch>, t: State)
    requires Turn(env, s, w, todo, t) && Enabled(env, t, BatchOk)
    ensures Turn(env, s, w, todo, Apply(env, t, BatchOk))
  {
    AllAcceptedRows(env, w.rows, w.valid);
    assert w.failed + [] == w.failed;
  }

  lemma TurnBatchFail(env: Env, s: State, w: Work, todo: seq<Batch>, t: State, e: Event)
    requires Turn(env, s, w, todo, t) && Enabled(env, t, e) && e.BatchFail?
    ensures Turn(env, s, w, todo, Apply(env, t, e))
  {}

  lemma {:induction false} PrefixLists(env: Env, rows: seq<Row>, valid: seq<Loc>, i: nat)
    requires i < |rows| == |valid|
    ensures AcceptedRows(env, rows[..i + 1]) ==
            AcceptedRows(env, rows[..i]) + (if env.accepts(rows[i]) then [rows[i]] else [])
    ensures Poison(env, rows[..i + 1], valid[..i + 1]) ==
            Poison(env, rows[..i], valid[..i]) + (if env.accepts(rows[i]) then [] else [valid[i]])
  {
    assert rows[..i + 1][..i] == rows[..i] && valid[..i + 1][..i] == valid[..i];
  }

  lemma InsertAllSnoc(table: Table, rows: seq<Row>, row: Row)
    ensures InsertAll(table, rows + [row]) == InsertIfAbsent(InsertAll(table, rows), row)
  {}

  lemma TurnAccept(env: Env, s: State, w: Work, todo: seq<Batch>, t: State)
    requires Turn(env, s, w, todo, t) && Enabled(env, t, SingleOk)
    ensures Turn(env, s, w, todo, Apply(env, t, SingleOk))
  {
    var i, row := t.phase.i, w.rows[t.phase.i];
    PrefixLists(env, w.rows, w.valid, i);
    var done, poison := AcceptedRows(env, w.rows[..i]), Poison(env, w.rows[..i], w.valid[..i]);
    assert poison + [] == poison;
    InsertAllSnoc(s.table, done, row);
    InsertAllKeys(s.table, w.rows);
    assert KeyOf(row) in InsertAll(s.table, w.rows);
  }

  lemma TurnReject(env: Env, s: State, w: Work, todo: seq<Batch>, t: State, e: Event)
    requires Turn(env, s, w, todo, t) && Enabled(env, t, e) && TurnEvent(env, t, e) && e.SingleFail?
    ensures Turn(env, s, w, todo, Apply(env, t, e))
  {
    var i := t.phase.i;
    PrefixLists(env, w.rows, w.valid, i);
    assert AcceptedRows(env, w.rows[..i]) + [] == AcceptedRows(env, w.rows[..i]);
    assert t.phase.work.failed + [w.valid[i]] == w.failed + (Poison(env, w.rows[..i], w.valid[..i]) + [w.valid[i]]);
  }

  lemma TurnRelease(env: Env, s: State, w: Work, todo: seq<Batch>, t: State)
    requires Turn(env, s, w, todo, t) && Enabled(env, t, Release)
    ensures Turn(env, s, w, todo, Apply(env, t, Release))
  {
    assert w.rows[..|w.rows|] == w.rows && w.valid[..|w.rows|] == w.valid;
    if AllAccepted(env, w.rows) {
      AllAcceptedRows(env, w.rows, w.valid);
    }
  }

  lemma TurnSend(env: Env, s: State, w: Work, todo: seq<Batch>, t: State, e: Event)
    requires Turn(env, s, w, todo, t) && Enabled(env, t, e) && e.Send?
    ensures Turn(env, s, w, todo, Apply(env, t, e))
  {
    var u := Apply(env, t, e);
    assert u.attempts[..|t.attempts|] == t.attempts;
    assert t.phase.failed == [t.phase.failed[0]] + t.phase.failed[1..];
    assert Sent(u.attempts) + t.phase.failed[1..] == Sent(t.attempts) + t.phase.failed;
    assert t.phase.failed[1..] == [] ==> Sent(u.attempts) + t.phase.failed[1..] == Sent(u.attempts);
  }

  lemma {:induction false} TurnRuns(env: Env, s: State, w: Work, todo: seq<Batch>, t: State, es: seq<Event>)
    requires Turn(env, s, w, todo, t) && Run(env, t, es) && TurnRun(env, t, es)
    ensures Turn(env, s, w, todo, Exec(env, t, es))
    decreases |es|
  {
    if es != [] {
      var e := es[0];
      if e.Release? {
        TurnRelease(env, s, w, todo, t);
      } else if e.Send? {
        TurnSend(env, s, w, todo, t, e);
      } else if e.SingleOk? {
        TurnAccept(env, s, w, todo, t);
      } else if e.SingleFail? {
        TurnReject(env, s, w, todo, t, e);
      } else if e.BatchOk? {
        TurnBatchOk(env, s, w, todo, t);
      } else {
        TurnBatchFail(env, s, w, todo, t, e);
      }
      TurnRuns(env, s, w, todo, Apply(env, t, es[0]), es[1..]);
    }
  }

  /** What the parse loop makes of the batch at the head of the poll. */
  function HeadWork(env: Env, s: State): Work
    requires Enabled(env, s, Begin)
  {
    var b := s.phase.todo[0];
    ParseBatch(env, s.broker.logs[b.partition], b.partition, b.lo, b.hi)
  }

  /** Fallback equivalence: a partition's turn stores exactly the acceptable rows and sends
      every other message of the batch to the dead-letter topic exactly once, whether the
      transaction went through, failed, or failed after it had been applied. */
  lemma FallbackEquivalence(env: Env, s: State, es: seq<Event>)
    requires Enabled(env, s, Begin) && Run(env, Apply(env, s, Begin), es)
    requires TurnRun(env, Apply(env, s, Begin), es)
    requires Exec(env, Apply(env, s, Begin), es).phase.Next?
    ensures var w, t := HeadWork(env, s), Exec(env, Apply(env, s, Begin), es);
      && t.phase.todo == s.phase.todo[1..]
      && t.table == InsertAll(s.table, AcceptedRows(env, w.rows))
      && Sent(t.attempts) == Sent(s.attempts) + Owed(env, w)
      && (AllAccepted(env, w.rows) ==>
            t.table == InsertAll(s.table, w.rows) && Sent(t.attempts) == Sent(s.attempts) + w.failed)
  {
    var b, w := s.phase.todo[0], HeadWork(env, s);
    ParseBatchOk(env, s.broker, b.partition, b.lo, b.hi);
    if w.rows == [] {
      assert Owed(env, w) == w.failed;
      assert Sent(s.attempts) + [] == Sent(s.attempts);
      assert InsertAll(s.table, AcceptedRows(env, w.rows)) == s.table;
    }
    TurnRuns(env, s, w, s.phase.todo[1..], Apply(env, s, Begin), es);
    if AllAccepted(env, w.rows) {
      AllAcceptedRows(env, w.rows, w.valid);
      assert w.failed + [] == w.failed;
    }
  }

  ghost predicate NoneTwice(locs: seq<Loc>) {
    forall i, j :: 0 <= i < j < |locs| ==> locs[i] != locs[j]
  }

  lemma NoneTwiceJoin(a: seq<Loc>, b: seq<Loc>)
    requires NoneTwice(a) && NoneTwice(b) && forall l :: l in b ==> l !in a
    ensures NoneTwice(a + b)
  {
    forall i, j | 0 <= i < j < |a + b|
      ensures (a + b)[i] != (a + b)[j]
    {
      if i < |a| <= j { assert a[i] in a && b[j - |a|] in b; }
    }
  }

  lemma {:induction false} PoisonIs(env: Env, rows: seq<Row>, valid: seq<Loc>)
    requires |rows| == |valid| && NoneTwice(valid)
    ensures NoneTwice(Poison(env, rows, valid))
    ensures forall i :: 0 <= i < |rows| ==> (valid[i] in Poison(env, rows, valid) <==> !env.accepts(rows[i]))
    ensures forall l :: l in Poison(env, rows, valid) ==> l in valid
    decreases |rows|
  {
    if rows != [] {
      var n := |rows| - 1;
      var front := Poison(env, rows[..n], valid[..n]);
      PoisonIs(env, rows[..n], valid[..n]);
      assert valid[n] !in valid[..n];
      if !env.accepts(rows[n]) {
        NoneTwiceJoin(front, [valid[n]]);
      }
      forall i | 0 <= i < |rows|
        ensures valid[i] in Poison(env, rows, valid) <==> !env.accepts(rows[i])
      {
        if i < n {
          assert valid[..n][i] == valid[i] && rows[..n][i] == rows[i];
        }
      }
    }
  }

  lemma {:induction false} FailedDistinct(env: Env, log: seq<Message>, p: nat, lo: nat, hi: nat)
    requires lo <= hi <= |log|
    ensures NoneTwice(ParseBatch(env, log, p, lo, hi).failed)
    ensures forall l :: l in ParseBatch(env, log, p, lo, hi).failed ==> l.offset < hi
    decreases hi
  {
    if lo < hi {
      FailedDistinct(env, log, p, lo, hi - 1);
      var before := ParseBatch(env, log, p, lo, hi - 1).failed;
      if Parse(env, log[hi - 1]).None? {
        NoneTwiceJoin(before, [Loc(p, hi - 1)]);
      }
    }
  }

  /** What parsed work owes: the messages of it without an acceptable row, none twice. */
  lemma OwedIs(env: Env, b: Broker, w: Work)
    requires |w.rows| == |w.valid| && NoneTwice(w.valid) && NoneTwice(w.failed)
    requires forall i :: 0 <= i < |w.valid| ==> RowAt(env, b, w.valid[i]) == Some(w.rows[i])
    requires forall l :: l in w.failed ==> RowAt(env, b, l).None?
    ensures forall l :: l in Owed(env, w) <==> (l in w.valid || l in w.failed) && !Acceptable(env, b, l)
    ensures NoneTwice(Owed(env, w))
  {
    PoisonIs(env, w.rows, w.valid);
    forall l | l in w.valid
      ensures RowAt(env, b, l).Some? && (l in Poison(env, w.rows, w.valid) <==> !Acceptable(env, b, l))
    {
      var i :| 0 <= i < |w.valid| && w.valid[i] == l;
      assert RowAt(env, b, l) == Some(w.rows[i]);
    }
    NoneTwiceJoin(w.failed, Poison(env, w.rows, w.valid));
  }

  /** The messages so sent are the batch's messages without an acceptable row, none twice. */
  lemma OwedAreTheUnacceptable(env: Env, s: State)
    requires Enabled(env, s, Begin)
    ensures var b, owed := s.phase.todo[0], Owed(env, HeadWork(env, s));
      && (forall l :: l in owed <==> l in BatchLocs(b) && !Acceptable(env, s.broker, l))
      && NoneTwice(owed)
  {
    var b, w := s.phase.todo[0], HeadWork(env, s);
    ParseBatchOk(env, s.broker, b.partition, b.lo, b.hi);
    FailedDistinct(env, s.broker.logs[b.partition], b.partition, b.lo, b.hi);
    OwedIs(env, s.broker, w);
    assert BatchLocs(Batch(b.partition, b.lo, b.hi)) == BatchLocs(b);
    forall l
      ensures l in BatchLocs(b) <==> l in w.valid || l in w.failed
    {
      assert l in BatchLocs(b) <==> l in Elements(w.valid) + Elements(w.failed);
    }
  }
}
