/** `LogWriterConsumer._consume_loop` as the code writes it: nested loops over local lists.
    Each method is given how the calls it makes turn out and computes what the specification
    says for these outcomes; a turn so specified is a run of the delivery machine. */
module LogWriterLoop {
  import opened Wrappers
  import opened Events
  import opened Kafka
  import opened LogWriter
  import opened LogWriterSafety
  import opened LogWriterOnce

  lemma Extend(env: Env, s: State, run: seq<Event>, e: Event)
    requires Run(env, s, run) && Enabled(env, Exec(env, s, run), e)
    ensures Run(env, s, run + [e]) && Exec(env, s, run + [e]) == Apply(env, Exec(env, s, run), e)
  {
    RunOne(env, Exec(env, s, run), e);
    RunConcat(env, s, run, [e]);
  }

  // ------------------------------------------------- what outcomes make of a partition's turn

  /** The outcomes of one partition's turn: of the transaction, of taking the fallback's
      connection, of its single inserts, and of returning the connection. */
  datatype TurnFaults = TurnFaults(batch: Fault, acquires: bool, singles: nat -> Fault, releases: bool)

  /** The fallback's calls work; the transaction may raise even so. */
  ghost predicate Quiet(f: TurnFaults) {
    f.acquires && f.releases && forall i :: f.singles(i).Fine?
  }

  /** The rows that single inserts store. */
  function Taken(env: Env, rows: seq<Row>, singles: nat -> Fault): seq<Row> {
    if rows == [] then []
    else
      var n := |rows| - 1;
      Taken(env, rows[..n], singles) + if env.accepts(rows[n]) && !singles(n).Before? then [rows[n]] else []
  }

  /** The messages whose single insert raises. */
  function Missed(env: Env, rows: seq<Row>, valid: seq<Loc>, singles: nat -> Fault): seq<Loc>
    requires |rows| == |valid|
  {
    if rows == [] then []
    else
      var n := |rows| - 1;
      Missed(env, rows[..n], valid[..n], singles) + if env.accepts(rows[n]) && singles(n).Fine? then [] else [valid[n]]
  }

  /** The transaction raises. */
  predicate FallsBack(env: Env, rows: seq<Row>, f: TurnFaults) {
    rows != [] && !(AllAccepted(env, rows) && f.batch.Fine?)
  }

  predicate TurnRaises(env: Env, rows: seq<Row>, f: TurnFaults) {
    FallsBack(env, rows, f) && !(f.acquires && f.releases)
  }

  function TurnTable(env: Env, table: Table, rows: seq<Row>, f: TurnFaults): Table {
    var t := if AllAccepted(env, rows) && !f.batch.Before? then InsertAll(table, rows) else table;
    if FallsBack(env, rows, f) && f.acquires then InsertAll(t, Taken(env, rows, f.singles)) else t
  }

  function TurnMissed(env: Env, rows: seq<Row>, valid: seq<Loc>, f: TurnFaults): seq<Loc> {
    if FallsBack(env, rows, f) && |rows| == |valid| then Missed(env, rows, valid, f.singles) else []
  }

  lemma {:induction false} FineSingles(env: Env, rows: seq<Row>, valid: seq<Loc>, singles: nat -> Fault)
    requires |rows| == |valid| && forall i :: singles(i).Fine?
    ensures Taken(env, rows, singles) == AcceptedRows(env, rows)
    ensures Missed(env, rows, valid, singles) == Poison(env, rows, valid)
    decreases |rows|
  {
    if rows != [] {
      FineSingles(env, rows[..|rows| - 1], valid[..|rows| - 1], singles);
    }
  }

  lemma {:induction false} AcceptedSubset(env: Env, table: Table, rows: seq<Row>)
    requires AllAccepted(env, rows)
    ensures InsertAll(InsertAll(table, rows), rows) == InsertAll(table, rows)
  {
    InsertAllKeys(table, rows);
    InsertPresent(InsertAll(table, rows), rows);
  }

  /** What a turn that raises leaves undone, before the batches `todo`. */
  function TurnSkipped(env: Env, w: Work, todo: seq<Batch>, f: TurnFaults): set<Loc> {
    if f.acquires then Pending(Fallback(w.(failed := w.failed + TurnMissed(env, w.rows, w.valid, f)), |w.rows|, todo))
    else Pending(Fallback(w, 0, todo))
  }

  /** If the fallback's calls work, a turn stores every acceptable row and misses exactly the
      messages of the others, however the transaction turned out. */
  lemma QuietTurn(env: Env, table: Table, rows: seq<Row>, valid: seq<Loc>, f: TurnFaults)
    requires |rows| == |valid| && Quiet(f)
    ensures !TurnRaises(env, rows, f)
    ensures TurnTable(env, table, rows, f) == InsertAll(table, AcceptedRows(env, rows))
    ensures TurnMissed(env, rows, valid, f) == Poison(env, rows, valid)
  {
    FineSingles(env, rows, valid, f.singles);
    if AllAccepted(env, rows) {
      AllAcceptedRows(env, rows, valid);
      AcceptedSubset(env, table, rows);
    }
  }

  /** The attempts after the sends for some messages, `refuses` saying which the producer refuses. */
  function Routed(logs: seq<seq<Message>>, attempts: seq<Attempt>, locs: seq<Loc>, refuses: Loc -> bool): seq<Attempt> {
    if locs == [] then attempts
    else
      var l := locs[|locs| - 1];
      Routed(logs, attempts, locs[..|locs| - 1], refuses) + [Attempt(l, !refuses(l) && RoutableAt(logs, l))]
  }

  predicate RoutableAt(logs: seq<seq<Message>>, l: Loc) {
    l.partition < |logs| && l.offset < |logs[l.partition]| && Routable(logs[l.partition][l.offset])
  }

  /** The fallback's calls work in every turn. */
  ghost predicate AllQuiet(faults: nat -> TurnFaults) {
    forall i :: Quiet(faults(i))
  }

  /** The work of one batch of a poll. */
  function BatchWork(env: Env, logs: seq<seq<Message>>, batch: Batch): Work
    requires InLogs(logs, batch)
  {
    ParseBatch(env, logs[batch.partition], batch.partition, batch.lo, batch.hi)
  }

  ghost predicate Fetched(logs: seq<seq<Message>>, fetch: seq<Batch>) {
    forall i :: 0 <= i < |fetch| ==> InLogs(logs, fetch[i])
  }

  /** The work of each batch of a poll. */
  ghost function Works(env: Env, logs: seq<seq<Message>>, fetch: seq<Batch>): seq<Work>
    requires Fetched(logs, fetch)
  {
    seq(|fetch|, (i: nat) requires i < |fetch| => BatchWork(env, logs, fetch[i]))
  }

  /** The table with the acceptable rows of the first `n` batches, in the order of the loops. */
  ghost function PollTable(env: Env, table: Table, works: seq<Work>, n: nat): Table
    requires n <= |works|
  {
    if n == 0 then table else InsertAll(PollTable(env, table, works, n - 1), AcceptedRows(env, works[n - 1].rows))
  }

  /** The attempts with one for each other message of these batches. */
  ghost function PollAttempts(env: Env, logs: seq<seq<Message>>, attempts: seq<Attempt>, works: seq<Work>, n: nat,
                              refuses: Loc -> bool): seq<Attempt>
    requires n <= |works|
  {
    if n == 0 then attempts
    else Routed(logs, PollAttempts(env, logs, attempts, works, n - 1, refuses), Owed(env, works[n - 1]), refuses)
  }

  predicate InLogs(logs: seq<seq<Message>>, batch: Batch) {
    batch.partition < |logs| && batch.lo <= batch.hi <= |logs[batch.partition]|
  }

  /** The state after the turn of batch `b`, with batches `todo` to follow. */
  function AfterTurn(env: Env, s: State, b: Batch, todo: seq<Batch>, f: TurnFaults, refuses: Loc -> bool): State
    requires InLogs(s.broker.logs, b)
  {
    var w := BatchWork(env, s.broker.logs, b);
    var table := TurnTable(env, s.table, w.rows, f);
    if TurnRaises(env, w.rows, f) then
      s.(table := table, phase := Idle, skipped := s.skipped + TurnSkipped(env, w, todo, f))
    else
      s.(table := table, phase := Next(todo),
         attempts := Routed(s.broker.logs, s.attempts, w.failed + TurnMissed(env, w.rows, w.valid, f), refuses))
  }

  /** The state after the turns of all batches still to do, or up to one that raises; `i` is the
      number of the next. */
  ghost function AllTurns(env: Env, s: State, i: nat, faults: nat -> TurnFaults, refuses: Loc -> bool): State
    decreases if s.phase.Next? then |s.phase.todo| else 0
  {
    if s.phase.Next? && s.phase.todo != [] && InLogs(s.broker.logs, s.phase.todo[0]) then
      AllTurns(env, AfterTurn(env, s, s.phase.todo[0], s.phase.todo[1..], faults(i), refuses), i + 1, faults, refuses)
    else s
  }

  function CommitEvent(fault: Fault): Event {
    if fault.Fine? then CommitOk else CommitFail(fault.After?)
  }

  /** The state after a turn of the outer loop. */
  ghost function PollResult(env: Env, s: State, fetch: seq<Batch>, faults: nat -> TurnFaults, refuses: Loc -> bool,
                            commit: Fault): State
    requires s.phase.Idle? && s.broker.CanFetch(fetch)
  {
    var polled := Apply(env, s, Poll(fetch));
    if fetch == [] then polled
    else
      var t := AllTurns(env, polled, 0, faults, refuses);
      if t.phase == Next([]) then Apply(env, t, CommitEvent(commit)) else t
  }

  // ------------------------------------------------------------------------- the code

  class LogWriterConsumer {
    const env: Env
    var broker: Broker
    var table: Table
    var attempts: seq<Attempt>
    ghost var skipped: set<Loc>
    ghost var abandoned: set<Loc>

    constructor (env: Env, broker: Broker)
      ensures this.env == env && this.broker == broker && table == map[] && attempts == []
      ensures skipped == {} && abandoned == {}
    {
      this.env, this.broker, table, attempts := env, broker, map[], [];
      skipped, abandoned := {}, {};
    }

    ghost function View(phase: Phase): State
      reads this
    {
      State(broker, table, attempts, phase, skipped, abandoned)
    }

    /** The parse loop. */
    method ParseAll(b: Batch) returns (rows: seq<Row>, valid: seq<Loc>, failed: seq<Loc>)
      requires InLogs(broker.logs, b)
      ensures Work(b.partition, rows, valid, failed) == BatchWork(env, broker.logs, b)
      ensures |rows| == |valid|
      ensures forall l :: l in failed + valid ==> broker.Holds(l)
    {
      rows, valid, failed := [], [], [];
      for o := b.lo to b.hi
        invariant Work(b.partition, rows, valid, failed) ==
                  ParseBatch(env, broker.logs[b.partition], b.partition, b.lo, o)
        invariant |rows| == |valid|
        invariant forall l :: l in failed + valid ==> broker.Holds(l)
      {
        match Parse(env, broker.logs[b.partition][o])
        case Some(row) =>
          rows, valid := rows + [row], valid + [Loc(b.partition, o)];
        case None =>
          failed := failed + [Loc(b.partition, o)];
      }
    }

    /** `conn.execute` of one row; PostgreSQL raises on a row it does not accept. */
    method ExecuteInsert(row: Row, fault: Fault) returns (raised: bool)
      modifies this`table
      ensures raised == !(fault.Fine? && env.accepts(row))
      ensures table == if env.accepts(row) && !fault.Before? then InsertIfAbsent(old(table), row) else old(table)
    {
      if fault.Before? || !env.accepts(row) { return true; }
      table := InsertIfAbsent(table, row);
      raised := fault.After?;
    }

    /** `for row, msg in zip(rows, valid_messages)`: if no call fails, every acceptable row is
        stored and the messages of the others, and only they, are missed. */
    method InsertEach(rows: seq<Row>, valid: seq<Loc>, unparsed: seq<Loc>, singles: nat -> Fault)
      returns (failed: seq<Loc>)
      requires |rows| == |valid|
      modifies this`table
      ensures table == InsertAll(old(table), Taken(env, rows, singles))
      ensures failed == unparsed + Missed(env, rows, valid, singles)
      ensures (forall i :: singles(i).Fine?) ==>
        table == InsertAll(old(table), AcceptedRows(env, rows)) && failed == unparsed + Poison(env, rows, valid)
    {
      ghost var before := table;
      failed := unparsed;
      var i := 0;
      assert rows[..0] == [] && valid[..0] == [];
      while i < |rows|
        invariant i <= |rows|
        invariant table == InsertAll(before, Taken(env, rows[..i], singles))
        invariant failed == unparsed + Missed(env, rows[..i], valid[..i], singles)
      {
        NextSingle(env, before, rows, valid, unparsed, singles, i);
        var fails := ExecuteInsert(rows[i], singles(i));
        if fails {
          failed := failed + [valid[i]];
        }
        i := i + 1;
      }
      assert rows[..i] == rows && valid[..i] == valid;
      if forall i :: singles(i).Fine? {
        FineSingles(env, rows, valid, singles);
      }
    }

    /** The row-by-row fallback; `raised` when taking or returning the connection fails. */
    method InsertSingly(rows: seq<Row>, valid: seq<Loc>, unparsed: seq<Loc>, f: TurnFaults)
      returns (raised: bool, failed: seq<Loc>)
      requires |rows| == |valid|
      modifies this`table
      ensures raised == !(f.acquires && f.releases)
      ensures table == if f.acquires then InsertAll(old(table), Taken(env, rows, f.singles)) else old(table)
      ensures failed == unparsed + if f.acquires then Missed(env, rows, valid, f.singles) else []
    {
      failed := unparsed;
      if !f.acquires { return true, failed; }
      failed := InsertEach(rows, valid, unparsed, f.singles);
      raised := !f.releases;
    }

    /** The transaction over all rows, and its fallback. */
    method InsertRows(rows: seq<Row>, valid: seq<Loc>, unparsed: seq<Loc>, f: TurnFaults)
      returns (raised: bool, failed: seq<Loc>)
      requires rows != [] && |rows| == |valid|
      modifies this`table
      ensures raised == TurnRaises(env, rows, f)
      ensures table == TurnTable(env, old(table), rows, f)
      ensures !raised ==> failed == unparsed + TurnMissed(env, rows, valid, f)
      ensures Quiet(f) ==>
        && !raised
        && table == InsertAll(old(table), AcceptedRows(env, rows))
        && failed == unparsed + Poison(env, rows, valid)
    {
      if Quiet(f) { QuietTurn(env, table, rows, valid, f); }
      raised, failed := false, unparsed;
      if AllAccepted(env, rows) && !f.batch.Before? {
        table := InsertAll(table, rows);
      }
      if !(AllAccepted(env, rows) && f.batch.Fine?) {
        raised, failed := InsertSingly(rows, valid, unparsed, f);
      }
    }

    /** One dead-letter send; a refusal is logged and passed over. */
    method SendToDeadLetter(l: Loc, refused: bool) returns (delivered: bool)
      requires broker.Holds(l)
      modifies this`attempts
      ensures delivered == (!refused && Routable(broker.Fetch(l)))
      ensures attempts == old(attempts) + [Attempt(l, delivered)]
    {
      delivered := Routable(broker.Fetch(l)) && !refused;
      attempts := attempts + [Attempt(l, delivered)];
    }

    /** The dead-letter loop. */
    method RouteAll(failed: seq<Loc>, refuses: Loc -> bool)
      requires forall l :: l in failed ==> broker.Holds(l)
      modifies this`attempts
      ensures attempts == Routed(broker.logs, old(attempts), failed, refuses)
    {
      ghost var before := attempts;
      for i := 0 to |failed|
        invariant attempts == Routed(broker.logs, before, failed[..i], refuses)
      {
        assert failed[..i + 1][..i] == failed[..i];
        var delivered := SendToDeadLetter(failed[i], refuses(failed[i]));
      }
      assert failed[..|failed|] == failed;
    }

    /** One iteration over `messages.items()`. */
    method ProcessPartition(b: Batch, f: TurnFaults, refuses: Loc -> bool, ghost todo: seq<Batch>) returns (raised: bool)
      requires InLogs(broker.logs, b)
      modifies this`table, this`attempts, this`skipped
      ensures View(if raised then Idle else Next(todo)) == AfterTurn(env, old(View(Next([b] + todo))), b, todo, f, refuses)
    {
      var rows, valid, failed := ParseAll(b);
      ghost var w := Work(b.partition, rows, valid, failed);
      raised := false;
      if rows != [] {
        raised, failed := InsertRows(rows, valid, failed, f);
        if raised {
          skipped := skipped + TurnSkipped(env, w, todo, f);
          return;
        }
      } else {
        assert failed + [] == failed;
      }
      HeldMissed(env, broker, w, f);
      RouteAll(failed, refuses);
    }

    /** `for tp, batch in messages.items()`, which ends early in a turn that raises. */
    method ProcessAll(fetch: seq<Batch>, faults: nat -> TurnFaults, refuses: Loc -> bool) returns (raised: bool)
      requires Fetched(broker.logs, fetch)
      modifies this`table, this`attempts, this`skipped
      ensures View(if raised then Idle else Next([])) == AllTurns(env, old(View(Next(fetch))), 0, faults, refuses)
    {
      ghost var s := View(Next(fetch));
      raised := false;
      var i := 0;
      assert fetch[0..] == fetch;
      while i < |fetch| && !raised
        invariant i <= |fetch| && broker == s.broker
        invariant AllTurns(env, s, 0, faults, refuses) ==
                  AllTurns(env, View(if raised then Idle else Next(fetch[i..])), i, faults, refuses)
        decreases |fetch| - i
      {
        assert fetch[i..] == [fetch[i]] + fetch[i + 1..];
        NextTurn(env, View(Next(fetch[i..])), i, fetch[i], fetch[i + 1..], faults, refuses);
        raised := ProcessPartition(fetch[i], faults(i), refuses, fetch[i + 1..]);
        i := i + 1;
      }
      assert !raised ==> fetch[i..] == [];
    }

    /** `commit()`, which may raise before or after taking effect. */
    method CommitOffsets(fault: Fault)
      modifies this`broker, this`abandoned
      ensures broker == if fault.Before? then old(broker) else old(broker).Commit()
      ensures View(Idle) == Apply(env, old(View(Next([]))), CommitEvent(fault))
    {
      if !fault.Before? {
        abandoned := abandoned + set l | l in skipped && !Accounted(env, View(Next([])), l);
        broker := broker.Commit();
      }
    }

    /** One turn of `while self._running`, including the handler of whatever it raises: a run of
        the machine. If the calls of the fallback work, every acceptable row of the poll is
        stored, one send is made for each other message, and the poll is committed, if that
        call works too. */
    method PollOnce(fetch: seq<Batch>, faults: nat -> TurnFaults, refuses: Loc -> bool, commit: Fault)
      returns (ghost run: seq<Event>)
      requires broker.CanFetch(fetch)
      modifies this
      ensures View(Idle) == PollResult(env, old(View(Idle)), fetch, faults, refuses, commit)
      ensures Run(env, old(View(Idle)), run) && Exec(env, old(View(Idle)), run) == View(Idle)
      ensures run != [] && run[0] == Poll(fetch)
      ensures fetch != [] ==> var last := run[|run| - 1]; last.CommitOk? || last.CommitFail? || last.EarlyExit?
      ensures AllQuiet(faults) ==>
        var works := Works(env, old(broker).logs, fetch);
        && table == PollTable(env, old(table), works, |works|)
        && attempts == PollAttempts(env, old(broker).logs, old(attempts), works, |works|, refuses)
        && broker == (if fetch == [] || commit.Before? then old(broker).Advance(fetch)
                      else old(broker).Advance(fetch).Commit())
    {
      run := PollIsRun(env, View(Idle), fetch, faults, refuses, commit);
      if AllQuiet(faults) {
        QuietResult(env, View(Idle), fetch, faults, refuses, commit);
      }
      broker := broker.Advance(fetch);
      if fetch == [] { return; }
      var raised := ProcessAll(fetch, faults, refuses);
      if raised { return; }
      CommitOffsets(commit);
    }
  }

  lemma NextSingle(env: Env, table: Table, rows: seq<Row>, valid: seq<Loc>, unparsed: seq<Loc>,
                   singles: nat -> Fault, i: nat)
    requires i < |rows| == |valid|
    ensures var row := rows[i];
      var t := InsertAll(table, Taken(env, rows[..i], singles));
      InsertAll(table, Taken(env, rows[..i + 1], singles)) ==
      if env.accepts(row) && !singles(i).Before? then InsertIfAbsent(t, row) else t
    ensures unparsed + Missed(env, rows[..i + 1], valid[..i + 1], singles) ==
            (unparsed + Missed(env, rows[..i], valid[..i], singles))
            + if env.accepts(rows[i]) && singles(i).Fine? then [] else [valid[i]]
  {
    assert rows[..i + 1][..i] == rows[..i] && valid[..i + 1][..i] == valid[..i];
    InsertAllSnoc(table, Taken(env, rows[..i], singles), rows[i]);
    var done := Taken(env, rows[..i], singles);
    assert done + [] == done;
  }

  lemma NextTurn(env: Env, s: State, i: nat, b: Batch, todo: seq<Batch>, faults: nat -> TurnFaults, refuses: Loc -> bool)
    requires s.phase == Next([b] + todo) && InLogs(s.broker.logs, b)
    ensures AllTurns(env, s, i, faults, refuses) ==
            AllTurns(env, AfterTurn(env, s, b, todo, faults(i), refuses), i + 1, faults, refuses)
  {
    assert ([b] + todo)[1..] == todo;
  }

  lemma HeldMissed(env: Env, b: Broker, w: Work, f: TurnFaults)
    requires |w.rows| == |w.valid| && forall l :: l in w.failed + w.valid ==> b.Holds(l)
    ensures forall l :: l in w.failed + TurnMissed(env, w.rows, w.valid, f) ==> b.Holds(l)
  {
    MissedIn(env, w.rows, w.valid, f.singles);
    assert forall l :: l in w.failed || l in w.valid ==> l in w.failed + w.valid;
  }

  lemma {:induction false} MissedIn(env: Env, rows: seq<Row>, valid: seq<Loc>, singles: nat -> Fault)
    requires |rows| == |valid|
    ensures forall l :: l in Missed(env, rows, valid, singles) ==> l in valid
    decreases |rows|
  {
    if rows != [] {
      MissedIn(env, rows[..|rows| - 1], valid[..|rows| - 1], singles);
    }
  }

  // --------------------------------------------------------------- the code as a machine run

  /** The event of one single insert. */
  function SingleEvent(env: Env, row: Row, fault: Fault): Event {
    if fault.Fine? && env.accepts(row) then SingleOk else SingleFail(env.accepts(row) && fault.After?)
  }

  lemma ExtendSingle(env: Env, s: State, run: seq<Event>, t: State, w: Work, i: nat, todo: seq<Batch>, fault: Fault)
    requires Run(env, s, run) && Exec(env, s, run) == t && t.phase == Fallback(w, i, todo)
    requires i < |w.rows| == |w.valid|
    ensures var row, e := w.rows[i], SingleEvent(env, w.rows[i], fault);
      && Run(env, s, run + [e])
      && Exec(env, s, run + [e]) ==
         t.(table := if env.accepts(row) && !fault.Before? then InsertIfAbsent(t.table, row) else t.table,
            phase := Fallback(w.(failed := w.failed + if env.accepts(row) && fault.Fine? then [] else [w.valid[i]]), i + 1, todo))
  {
    var e := SingleEvent(env, w.rows[i], fault);
    assert w.failed + [] == w.failed;
    Extend(env, s, run, e);
  }

  /** The first `i` single inserts of the fallback, begun in `s`. */
  lemma {:induction false} SinglesAreRun(env: Env, s: State, w: Work, todo: seq<Batch>, singles: nat -> Fault, i: nat)
    returns (run: seq<Event>)
    requires s.phase == Fallback(w, 0, todo) && |w.rows| == |w.valid| && i <= |w.rows|
    ensures Run(env, s, run)
    ensures Exec(env, s, run) ==
            s.(table := InsertAll(s.table, Taken(env, w.rows[..i], singles)),
               phase := Fallback(w.(failed := w.failed + Missed(env, w.rows[..i], w.valid[..i], singles)), i, todo))
    decreases i
  {
    if i == 0 {
      run := [];
      assert w.rows[..0] == [] && w.failed + [] == w.failed;
    } else {
      var before := SinglesAreRun(env, s, w, todo, singles, i - 1);
      NextSingle(env, s.table, w.rows, w.valid, w.failed, singles, i - 1);
      var missed := Missed(env, w.rows[..i - 1], w.valid[..i - 1], singles);
      ExtendSingle(env, s, before, Exec(env, s, before), w.(failed := w.failed + missed), i - 1, todo, singles(i - 1));
      run := before + [SingleEvent(env, w.rows[i - 1], singles(i - 1))];
    }
  }

  /** The whole fallback, up to its release or early exit. */
  lemma FallbackIsRun(env: Env, s: State, w: Work, todo: seq<Batch>, f: TurnFaults) returns (run: seq<Event>)
    requires s.phase == Fallback(w, 0, todo) && |w.rows| == |w.valid|
    ensures Run(env, s, run) && run != []
    ensures var failed := w.failed + if f.acquires then Missed(env, w.rows, w.valid, f.singles) else [];
      var t := s.(table := if f.acquires then InsertAll(s.table, Taken(env, w.rows, f.singles)) else s.table);
      if f.acquires && f.releases then Exec(env, s, run) == t.(phase := AfterInsert(failed, todo))
      else && run[|run| - 1] == EarlyExit
           && Exec(env, s, run) ==
              t.(phase := Idle,
                 skipped := s.skipped + Pending(Fallback(w.(failed := failed), if f.acquires then |w.rows| else 0, todo)))
  {
    run := [];
    assert w.failed + [] == w.failed;
    if f.acquires {
      run := SinglesAreRun(env, s, w, todo, f.singles, |w.rows|);
      assert w.rows[..|w.rows|] == w.rows && w.valid[..|w.rows|] == w.valid;
    }
    var last := if f.acquires && f.releases then Release else EarlyExit;
    Extend(env, s, run, last);
    run := run + [last];
  }

  /** The transaction and its fallback. */
  lemma InsertIsRun(env: Env, s: State, w: Work, todo: seq<Batch>, f: TurnFaults) returns (run: seq<Event>)
    requires s.phase == Insert(w, todo) && |w.rows| == |w.valid| && w.rows != []
    ensures Run(env, s, run)
    ensures var t := s.(table := TurnTable(env, s.table, w.rows, f));
      if TurnRaises(env, w.rows, f) then
        && run != [] && run[|run| - 1] == EarlyExit
        && Exec(env, s, run) == t.(phase := Idle, skipped := s.skipped + TurnSkipped(env, w, todo, f))
      else
        Exec(env, s, run) == t.(phase := AfterInsert(w.failed + TurnMissed(env, w.rows, w.valid, f), todo))
  {
    var ok := AllAccepted(env, w.rows);
    assert w.failed + [] == w.failed;
    if ok && f.batch.Fine? {
      RunOne(env, s, BatchOk);
      run := [BatchOk];
    } else {
      var e := BatchFail(ok && f.batch.After?);
      RunOne(env, s, e);
      var rest := FallbackIsRun(env, Apply(env, s, e), w, todo, f);
      RunConcat(env, s, [e], rest);
      run := [e] + rest;
    }
  }

  /** The sends of a turn. */
  lemma {:induction false} SendsAreRun(env: Env, s: State, failed: seq<Loc>, todo: seq<Batch>, refuses: Loc -> bool, i: nat)
    returns (run: seq<Event>)
    requires s.phase == AfterInsert(failed, todo) && i <= |failed| && forall l :: l in failed ==> s.broker.Holds(l)
    ensures Run(env, s, run)
    ensures Exec(env, s, run) ==
            s.(attempts := Routed(s.broker.logs, s.attempts, failed[..i], refuses), phase := AfterInsert(failed[i..], todo))
    decreases i
  {
    if i == 0 {
      run := [];
      assert failed[0..] == failed;
    } else {
      var before := SendsAreRun(env, s, failed, todo, refuses, i - 1);
      var l := failed[i - 1];
      assert failed[i - 1..][1..] == failed[i..] && failed[..i][..i - 1] == failed[..i - 1];
      Extend(env, s, before, Send(!refuses(l) && RoutableAt(s.broker.logs, l)));
      run := before + [Send(!refuses(l) && RoutableAt(s.broker.logs, l))];
    }
  }

  lemma WorkHeld(env: Env, b: Broker, batch: Batch)
    requires InLogs(b.logs, batch)
    ensures var w := BatchWork(env, b.logs, batch);
      |w.rows| == |w.valid| && forall l :: l in w.failed + w.valid ==> b.Holds(l)
  {
    var w := BatchWork(env, b.logs, batch);
    ParseBatchOk(env, b, batch.partition, batch.lo, batch.hi);
    forall l | l in w.valid ensures b.Holds(l) {
      var i :| 0 <= i < |w.valid| && w.valid[i] == l;
    }
  }

  /** A partition's turn. */
  lemma TurnIsRun(env: Env, s: State, b: Batch, todo: seq<Batch>, f: TurnFaults, refuses: Loc -> bool)
    returns (run: seq<Event>)
    requires InLogs(s.broker.logs, b) && s.phase == Next([b] + todo)
    ensures Run(env, s, run) && Exec(env, s, run) == AfterTurn(env, s, b, todo, f, refuses)
    ensures AfterTurn(env, s, b, todo, f, refuses).phase.Idle? ==> run != [] && run[|run| - 1] == EarlyExit
  {
    var w := BatchWork(env, s.broker.logs, b);
    WorkHeld(env, s.broker, b);
    assert ([b] + todo)[1..] == todo;
    RunOne(env, s, Begin);
    run := [Begin];
    var missed := TurnMissed(env, w.rows, w.valid, f);
    if w.rows != [] {
      var rest := InsertIsRun(env, Apply(env, s, Begin), w, todo, f);
      RunConcat(env, s, run, rest);
      run := run + rest;
    } else {
      assert w.failed + [] == w.failed;
    }
    if !TurnRaises(env, w.rows, f) {
      HeldMissed(env, s.broker, w, f);
      var failed := w.failed + missed;
      var sends := SendsAreRun(env, Exec(env, s, run), failed, todo, refuses, |failed|);
      assert failed[..|failed|] == failed && failed[|failed|..] == [];
      RunConcat(env, s, run, sends);
      run := run + sends;
    }
  }

  lemma {:induction false} AllTurnsAreRun(env: Env, s: State, i: nat, faults: nat -> TurnFaults, refuses: Loc -> bool)
    returns (run: seq<Event>)
    requires s.phase.Next? && Fetched(s.broker.logs, s.phase.todo)
    ensures Run(env, s, run) && Exec(env, s, run) == AllTurns(env, s, i, faults, refuses)
    ensures var t := AllTurns(env, s, i, faults, refuses);
      t.phase == Next([]) || (t.phase.Idle? && run != [] && run[|run| - 1] == EarlyExit)
    decreases |s.phase.todo|
  {
    run := [];
    if s.phase.todo != [] {
      var b, todo := s.phase.todo[0], s.phase.todo[1..];
      assert s.phase.todo == [b] + todo;
      run := TurnIsRun(env, s, b, todo, faults(i), refuses);
      var t := AfterTurn(env, s, b, todo, faults(i), refuses);
      if t.phase.Next? {
        var rest := AllTurnsAreRun(env, t, i + 1, faults, refuses);
        RunConcat(env, s, run, rest);
        run := run + rest;
      }
    }
  }

  /** A turn of the outer loop, for all outcomes, is a run of the machine. */
  lemma PollIsRun(env: Env, s: State, fetch: seq<Batch>, faults: nat -> TurnFaults, refuses: Loc -> bool, commit: Fault)
    returns (run: seq<Event>)
    requires s.phase.Idle? && s.broker.CanFetch(fetch)
    ensures Run(env, s, run) && Exec(env, s, run) == PollResult(env, s, fetch, faults, refuses, commit)
    ensures run != [] && run[0] == Poll(fetch) && PollResult(env, s, fetch, faults, refuses, commit).phase.Idle?
    ensures fetch != [] ==> var last := run[|run| - 1]; last.CommitOk? || last.CommitFail? || last.EarlyExit?
  {
    RunOne(env, s, Poll(fetch));
    run := [Poll(fetch)];
    if fetch != [] {
      var rest := AllTurnsAreRun(env, Apply(env, s, Poll(fetch)), 0, faults, refuses);
      RunConcat(env, s, run, rest);
      run := run + rest;
      if Exec(env, s, run).phase == Next([]) {
        Extend(env, s, run, CommitEvent(commit));
        run := run + [CommitEvent(commit)];
      }
    }
  }

  // ------------------------------------------------------------------- when the calls work

  /** If the calls of the fallback work, no turn raises, and the turns add up. */
  lemma {:induction false} QuietTurns(env: Env, s: State, fetch: seq<Batch>, works: seq<Work>, i: nat, table: Table,
                                      attempts: seq<Attempt>, faults: nat -> TurnFaults, refuses: Loc -> bool)
    requires Fetched(s.broker.logs, fetch) && works == Works(env, s.broker.logs, fetch) && AllQuiet(faults)
    requires i <= |fetch| && s.phase == Next(fetch[i..])
    requires s.table == PollTable(env, table, works, i)
    requires s.attempts == PollAttempts(env, s.broker.logs, attempts, works, i, refuses)
    ensures AllTurns(env, s, i, faults, refuses) ==
            s.(phase := Next([]), table := PollTable(env, table, works, |works|),
               attempts := PollAttempts(env, s.broker.logs, attempts, works, |works|, refuses))
    decreases |fetch| - i
  {
    if i == |fetch| {
      assert fetch[i..] == [];
    } else {
      var todo := fetch[i + 1..];
      assert fetch[i..][0] == fetch[i] && fetch[i..][1..] == todo;
      QuietTurnIs(env, s, fetch[i], todo, faults(i), refuses, works[i]);
      QuietTurns(env, AfterTurn(env, s, fetch[i], todo, faults(i), refuses), fetch, works, i + 1, table, attempts, faults, refuses);
    }
  }

  lemma QuietTurnIs(env: Env, s: State, b: Batch, todo: seq<Batch>, f: TurnFaults, refuses: Loc -> bool, w: Work)
    requires InLogs(s.broker.logs, b) && Quiet(f) && w == BatchWork(env, s.broker.logs, b)
    ensures AfterTurn(env, s, b, todo, f, refuses) ==
            s.(table := InsertAll(s.table, AcceptedRows(env, w.rows)), phase := Next(todo),
               attempts := Routed(s.broker.logs, s.attempts, Owed(env, w), refuses))
  {
    ParseBatchOk(env, s.broker, b.partition, b.lo, b.hi);
    QuietTurn(env, s.table, w.rows, w.valid, f);
  }

  lemma QuietResult(env: Env, s: State, fetch: seq<Batch>, faults: nat -> TurnFaults, refuses: Loc -> bool, commit: Fault)
    requires s.phase.Idle? && s.broker.CanFetch(fetch) && AllQuiet(faults)
    ensures var t, works := PollResult(env, s, fetch, faults, refuses, commit), Works(env, s.broker.logs, fetch);
      && t.table == PollTable(env, s.table, works, |works|)
      && t.attempts == PollAttempts(env, s.broker.logs, s.attempts, works, |works|, refuses)
      && t.broker == (if fetch == [] || commit.Before? then s.broker.Advance(fetch) else s.broker.Advance(fetch).Commit())
  {
    var works := Works(env, s.broker.logs, fetch);
    if fetch == [] {
      assert |works| == 0;
    } else {
      var polled := Apply(env, s, Poll(fetch));
      QuietPolled(env, s, polled, fetch, works, faults, refuses);
      CommitLeaves(env, AllTurns(env, polled, 0, faults, refuses), commit);
    }
  }

  lemma CommitLeaves(env: Env, t: State, fault: Fault)
    requires t.phase == Next([])
    ensures var u := Apply(env, t, CommitEvent(fault));
      u.table == t.table && u.attempts == t.attempts && u.broker == if fault.Before? then t.broker else t.broker.Commit()
  {}

  lemma QuietPolled(env: Env, s: State, polled: State, fetch: seq<Batch>, works: seq<Work>, faults: nat -> TurnFaults,
                    refuses: Loc -> bool)
    requires polled.phase == Next(fetch) && polled.table == s.table && polled.attempts == s.attempts
    requires polled.broker.logs == s.broker.logs && Fetched(s.broker.logs, fetch)
    requires works == Works(env, s.broker.logs, fetch) && AllQuiet(faults)
    ensures AllTurns(env, polled, 0, faults, refuses) ==
            polled.(phase := Next([]), table := PollTable(env, s.table, works, |works|),
                    attempts := PollAttempts(env, s.broker.logs, s.attempts, works, |works|, refuses))
  {
    assert fetch[0..] == fetch;
    QuietTurns(env, polled, fetch, works, 0, s.table, s.attempts, faults, refuses);
  }

  lemma {:induction false} RoutedHas(logs: seq<seq<Message>>, attempts: seq<Attempt>, locs: seq<Loc>, refuses: Loc -> bool)
    ensures attempts <= Routed(logs, attempts, locs, refuses)
    ensures forall l :: l in locs ==> Attempt(l, !refuses(l) && RoutableAt(logs, l)) in Routed(logs, attempts, locs, refuses)
    decreases |locs|
  {
    if locs != [] {
      RoutedHas(logs, attempts, locs[..|locs| - 1], refuses);
      assert locs == locs[..|locs| - 1] + [locs[|locs| - 1]];
    }
  }

  lemma {:induction false} AcceptedHas(env: Env, rows: seq<Row>)
    ensures forall i :: 0 <= i < |rows| && env.accepts(rows[i]) ==> rows[i] in AcceptedRows(env, rows)
    decreases |rows|
  {
    if rows != [] {
      AcceptedHas(env, rows[..|rows| - 1]);
    }
  }

  /** One batch of a poll whose calls work. */
  lemma BatchAccounted(env: Env, b: Broker, batch: Batch, w: Work, table: Table, attempts: seq<Attempt>,
                       refuses: Loc -> bool, l: Loc)
    requires InLogs(b.logs, batch) && w == BatchWork(env, b.logs, batch) && l in BatchLocs(batch)
    ensures
      if Acceptable(env, b, l) then RowKey(env, b, l) in InsertAll(table, AcceptedRows(env, w.rows))
      else Attempt(l, !refuses(l) && RoutableAt(b.logs, l)) in Routed(b.logs, attempts, Owed(env, w), refuses)
  {
    ParseBatchOk(env, b, batch.partition, batch.lo, batch.hi);
    FailedDistinct(env, b.logs[batch.partition], batch.partition, batch.lo, batch.hi);
    OwedIs(env, b, w);
    RoutedHas(b.logs, attempts, Owed(env, w), refuses);
    assert BatchLocs(Batch(batch.partition, batch.lo, batch.hi)) == BatchLocs(batch);
    assert l in Elements(w.valid) + Elements(w.failed);
    if Acceptable(env, b, l) {
      var i :| 0 <= i < |w.valid| && w.valid[i] == l;
      AcceptedHas(env, w.rows);
      InsertAllKeys(table, AcceptedRows(env, w.rows));
      assert RowAt(env, b, l) == Some(w.rows[i]);
    }
  }

  lemma {:induction false} PollGrows(env: Env, logs: seq<seq<Message>>, table: Table, attempts: seq<Attempt>,
                                     works: seq<Work>, m: nat, refuses: Loc -> bool)
    requires m <= |works|
    ensures PollTable(env, table, works, m).Keys <= PollTable(env, table, works, |works|).Keys
    ensures PollAttempts(env, logs, attempts, works, m, refuses) <= PollAttempts(env, logs, attempts, works, |works|, refuses)
    decreases |works| - m
  {
    if m < |works| {
      PollGrows(env, logs, table, attempts, works, m + 1, refuses);
      InsertAllKeys(PollTable(env, table, works, m), AcceptedRows(env, works[m].rows));
      RoutedHas(logs, PollAttempts(env, logs, attempts, works, m, refuses), Owed(env, works[m]), refuses);
    }
  }

  lemma TurnStays(env: Env, logs: seq<seq<Message>>, table: Table, attempts: seq<Attempt>, works: seq<Work>, i: nat,
                  refuses: Loc -> bool)
    requires i < |works|
    ensures InsertAll(PollTable(env, table, works, i), AcceptedRows(env, works[i].rows)).Keys <=
            PollTable(env, table, works, |works|).Keys
    ensures Routed(logs, PollAttempts(env, logs, attempts, works, i, refuses), Owed(env, works[i]), refuses) <=
            PollAttempts(env, logs, attempts, works, |works|, refuses)
  {
    PollGrows(env, logs, table, attempts, works, i + 1, refuses);
  }

  /** A poll whose calls work: every acceptable message has its key in the table, and every other
      one has been sent, delivered if it could be decoded and was not refused. */
  lemma QuietPoll(env: Env, b: Broker, table: Table, attempts: seq<Attempt>, fetch: seq<Batch>, works: seq<Work>,
                  refuses: Loc -> bool, i: nat, l: Loc)
    requires Fetched(b.logs, fetch) && works == Works(env, b.logs, fetch) && i < |fetch| && l in BatchLocs(fetch[i])
    ensures if Acceptable(env, b, l) then RowKey(env, b, l) in PollTable(env, table, works, |works|)
            else Attempt(l, !refuses(l) && RoutableAt(b.logs, l)) in PollAttempts(env, b.logs, attempts, works, |works|, refuses)
  {
    var t, a := PollTable(env, table, works, i), PollAttempts(env, b.logs, attempts, works, i, refuses);
    BatchAccounted(env, b, fetch[i], works[i], t, a, refuses, l);
    TurnStays(env, b.logs, table, attempts, works, i, refuses);
  }
}
