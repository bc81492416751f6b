/** The log writer's delivery protocol as a machine of single effects: poll, parse,
    transactional batch insert, row-by-row fallback, dead-lettering, commit and crash. */
module LogWriter {
  import opened Wrappers
  import opened Events
  import opened Kafka

  type Table = map<Key, Row>

  /** INSERT ... ON CONFLICT (id, timestamp) DO NOTHING. */
  function InsertIfAbsent(table: Table, row: Row): Table {
    if KeyOf(row) in table then table else table[KeyOf(row) := row]
  }

  function InsertAll(table: Table, rows: seq<Row>): Table {
    if rows == [] then table
    else InsertIfAbsent(InsertAll(table, rows[..|rows| - 1]), rows[|rows| - 1])
  }

  /** The local variables of one iteration over `messages.items()`. */
  datatype Work = Work(partition: nat, rows: seq<Row>, valid: seq<Loc>, failed: seq<Loc>)

  /** What the parse loop leaves in `rows`, `valid_messages` and `failed_messages`. */
  function ParseBatch(env: Env, log: seq<Message>, p: nat, lo: nat, hi: nat): Work
    requires lo <= hi <= |log|
    decreases hi
  {
    if lo == hi then Work(p, [], [], [])
    else
      var w := ParseBatch(env, log, p, lo, hi - 1);
      match Parse(env, log[hi - 1])
      case Some(row) => w.(rows := w.rows + [row], valid := w.valid + [Loc(p, hi - 1)])
      case None => w.(failed := w.failed + [Loc(p, hi - 1)])
  }

  /** Where the consumer is between two effects. */
  datatype Phase =
    | Idle
    | Next(todo: seq<Batch>)                       // take the next partition, or commit
    | Insert(work: Work, todo: seq<Batch>)         // about to run the transaction
    | Fallback(work: Work, i: nat, todo: seq<Batch>) // about to insert row i alone
    | Route(failed: seq<Loc>, todo: seq<Batch>)    // messages left to dead-letter

  /** `skipped` and `abandoned` are history variables: the messages passed over by an
      early exit since the last restart, and those a later commit covered anyway. */
  datatype State = State(broker: Broker, table: Table, attempts: seq<Attempt>, phase: Phase,
                         skipped: set<Loc>, abandoned: set<Loc>)

  /** One effect, with the outcome the environment chose for it. */
  datatype Event =
    | Produce(p: nat, m: Message)
    | Poll(fetch: seq<Batch>)
    | Begin
    | BatchOk
    | BatchFail(applied: bool)   // raises before or after taking effect
    | SingleOk
    | SingleFail(applied: bool)
    | Release                    // the fallback is done with its connection
    | EarlyExit                  // acquiring or releasing that connection raises
    | Send(delivered: bool)
    | CommitOk
    | CommitFail(applied: bool)
    | Crash                      // at any point; the next process starts afresh

  predicate AllAccepted(env: Env, rows: seq<Row>) {
    forall i :: 0 <= i < |rows| ==> env.accepts(rows[i])
  }

  predicate Enabled(env: Env, s: State, e: Event) {
    match e
    case Produce(p, m) => p < |s.broker.logs|
    case Poll(fetch) => s.phase.Idle? && s.broker.CanFetch(fetch)
    case Begin =>
      && s.phase.Next? && s.phase.todo != []
      && var b := s.phase.todo[0];
         b.partition < |s.broker.logs| && b.lo <= b.hi <= |s.broker.logs[b.partition]|
    case BatchOk => s.phase.Insert? && AllAccepted(env, s.phase.work.rows)
    case BatchFail(applied) => s.phase.Insert? && (applied ==> AllAccepted(env, s.phase.work.rows))
    case SingleOk =>
      s.phase.Fallback? && s.phase.i < |s.phase.work.rows| && env.accepts(s.phase.work.rows[s.phase.i])
    case SingleFail(applied) =>
      && s.phase.Fallback? && s.phase.i < |s.phase.work.rows| && s.phase.i < |s.phase.work.valid|
      && (applied ==> env.accepts(s.phase.work.rows[s.phase.i]))
    case Release => s.phase.Fallback? && s.phase.i == |s.phase.work.rows|
    case EarlyExit => s.phase.Fallback? && (s.phase.i == 0 || s.phase.i == |s.phase.work.rows|)
    case Send(delivered) =>
      && s.phase.Route? && s.phase.failed != [] && s.broker.Holds(s.phase.failed[0])
      && (delivered ==> Routable(s.broker.Fetch(s.phase.failed[0])))
    case CommitOk => s.phase == Next([])
    case CommitFail(applied) => s.phase == Next([])
    case Crash => true
  }

  function Apply(env: Env, s: State, e: Event): State
    requires Enabled(env, s, e)
  {
    match e
    case Produce(p, m) => s.(broker := s.broker.Produce(p, m))
    case Poll(fetch) =>
      s.(broker := s.broker.Advance(fetch), phase := if fetch == [] then Idle else Next(fetch))
    case Begin =>
      var b, todo := s.phase.todo[0], s.phase.todo[1..];
      var w := ParseBatch(env, s.broker.logs[b.partition], b.partition, b.lo, b.hi);
      s.(phase := if w.rows == [] then AfterInsert(w.failed, todo) else Insert(w, todo))
    case BatchOk =>
      s.(table := InsertAll(s.table, s.phase.work.rows),
         phase := AfterInsert(s.phase.work.failed, s.phase.todo))
    case BatchFail(applied) =>
      s.(table := if applied then InsertAll(s.table, s.phase.work.rows) else s.table,
         phase := Fallback(s.phase.work, 0, s.phase.todo))
    case SingleOk =>
      s.(table := InsertIfAbsent(s.table, s.phase.work.rows[s.phase.i]),
         phase := s.phase.(i := s.phase.i + 1))
    case SingleFail(applied) =>
      var w, i := s.phase.work, s.phase.i;
      s.(table := if applied then InsertIfAbsent(s.table, w.rows[i]) else s.table,
         phase := Fallback(w.(failed := w.failed + [w.valid[i]]), i + 1, s.phase.todo))
    case Release => s.(phase := AfterInsert(s.phase.work.failed, s.phase.todo))
    case EarlyExit => s.(phase := Idle, skipped := s.skipped + Pending(s.phase))
    case Send(delivered) =>
      s.(attempts := s.attempts + [Attempt(s.phase.failed[0], delivered)],
         phase := AfterInsert(s.phase.failed[1..], s.phase.todo))
    case CommitOk => Committed(env, s)
    case CommitFail(applied) => if applied then Committed(env, s) else s.(phase := Idle)
    case Crash => s.(broker := s.broker.Restart(), phase := Idle, skipped := {})
  }

  /** The dead-letter loop, or straight on to the next partition if nothing failed. */
  function AfterInsert(failed: seq<Loc>, todo: seq<Batch>): Phase {
    if failed == [] then Next(todo) else Route(failed, todo)
  }

  function Committed(env: Env, s: State): State {
    s.(broker := s.broker.Commit(), phase := Idle,
       abandoned := s.abandoned + set l | l in s.skipped && !Accounted(env, s, l))
  }

  /** Messages handed out by the current poll that no effect has dealt with yet. */
  function Pending(phase: Phase): set<Loc> {
    match phase
    case Idle => {}
    case Next(todo) => Locs(todo)
    case Insert(w, todo) => Elements(w.valid) + Elements(w.failed) + Locs(todo)
    case Fallback(w, i, todo) =>
      (if i <= |w.valid| then Elements(w.valid[i..]) else {}) + Elements(w.failed) + Locs(todo)
    case Route(failed, todo) => Elements(failed) + Locs(todo)
  }

  function Elements(s: seq<Loc>): set<Loc> {
    set l | l in s
  }

  function RowAt(env: Env, b: Broker, l: Loc): Option<Row> {
    if b.Holds(l) then Parse(env, b.Fetch(l)) else None
  }

  /** A row for this message's key is in the table. */
  predicate Stored(env: Env, s: State, l: Loc) {
    RowAt(env, s.broker, l).Some? && KeyOf(RowAt(env, s.broker, l).value) in s.table
  }

  /** The message is in the dead-letter log. */
  predicate Quarantined(s: State, l: Loc) {
    Attempt(l, true) in s.attempts
  }

  /** Sending the message to the dead-letter topic raised. */
  predicate Lost(s: State, l: Loc) {
    Attempt(l, false) in s.attempts
  }

  predicate Accounted(env: Env, s: State, l: Loc) {
    Stored(env, s, l) || Quarantined(s, l) || Lost(s, l)
  }

  /** Executing a sequence of effects. */
  ghost predicate Run(env: Env, s: State, es: seq<Event>)
    decreases |es|
  {
    es != [] ==> Enabled(env, s, es[0]) && Run(env, Apply(env, s, es[0]), es[1..])
  }

  ghost function Exec(env: Env, s: State, es: seq<Event>): State
    requires Run(env, s, es)
    decreases |es|
  {
    if es == [] then s else Exec(env, Apply(env, s, es[0]), es[1..])
  }

  /** Empty logs, an empty table, nothing committed. */
  function Initial(partitions: nat): State {
    State(Broker(seq(partitions, _ => []), seq(partitions, _ => 0), seq(partitions, _ => 0)),
          map[], [], Idle, {}, {})
  }

  /** A row the database takes: the message parses and the row is acceptable. */
  predicate Acceptable(env: Env, b: Broker, l: Loc) {
    RowAt(env, b, l).Some? && env.accepts(RowAt(env, b, l).value)
  }

  /** What a calm run owes each message. */
  predicate Settled(env: Env, s: State, l: Loc) {
    if Acceptable(env, s.broker, l) then Stored(env, s, l) else Quarantined(s, l) || Lost(s, l)
  }

  /** A calm event: the fallback leaves out only unacceptable rows (it may raise after it has
      stored one), and an early exit is followed by a restart. */
  predicate Calm(env: Env, s: State, e: Event) {
    && (e == SingleFail(false) && s.phase.Fallback? && s.phase.i < |s.phase.work.rows| ==>
          !env.accepts(s.phase.work.rows[s.phase.i]))
    && (s.skipped != {} ==> e.Crash? || e.Produce?)
  }

  ghost predicate CalmRun(env: Env, s: State, es: seq<Event>)
    requires Run(env, s, es)
    decreases |es|
  {
    es != [] ==> Calm(env, s, es[0]) && CalmRun(env, Apply(env, s, es[0]), es[1..])
  }

  // ---------------------------------------------------------------- invariant

  /** What is owed to a message that is no longer pending. */
  predicate Done(env: Env, s: State, calm: bool, l: Loc) {
    if calm then Settled(env, s, l) else Accounted(env, s, l) || l in s.abandoned
  }

  ghost predicate TodoOk(b: Broker, todo: seq<Batch>) {
    && Apart(todo)
    && forall i :: 0 <= i < |todo| ==>
         todo[i].partition < |b.logs| && todo[i].lo <= todo[i].hi <= |b.logs[todo[i].partition]|
  }

  ghost predicate WorkOk(env: Env, b: Broker, table: Table, calm: bool, w: Work, todo: seq<Batch>) {
    && |w.rows| == |w.valid|
    && (forall i :: 0 <= i < |todo| ==> todo[i].partition != w.partition)
    && (forall i :: 0 <= i < |w.valid| ==>
          && w.valid[i].partition == w.partition
          && RowAt(env, b, w.valid[i]) == Some(w.rows[i]))
    && (forall i, j :: 0 <= i < j < |w.valid| ==> w.valid[i].offset < w.valid[j].offset)
    && FailedOk(env, b, table, calm, w.failed)
  }

  /** In a calm run, an acceptable message to be dead-lettered has been stored as well. */
  ghost predicate FailedOk(env: Env, b: Broker, table: Table, calm: bool, failed: seq<Loc>) {
    forall l :: l in failed ==>
      b.Holds(l) && (calm && Acceptable(env, b, l) ==> KeyOf(RowAt(env, b, l).value) in table)
  }

  ghost predicate PhaseOk(env: Env, b: Broker, table: Table, calm: bool, phase: Phase) {
    match phase
    case Idle => true
    case Next(todo) => TodoOk(b, todo)
    case Insert(w, todo) => WorkOk(env, b, table, calm, w, todo) && TodoOk(b, todo)
    case Fallback(w, i, todo) => i <= |w.rows| && WorkOk(env, b, table, calm, w, todo) && TodoOk(b, todo)
    case Route(failed, todo) => failed != [] && FailedOk(env, b, table, calm, failed) && TodoOk(b, todo)
  }

  ghost predicate Inv(env: Env, s: State, calm: bool) {
    && s.broker.Valid()
    && PhaseOk(env, s.broker, s.table, calm, s.phase)
    && (calm ==> s.abandoned == {} && (s.skipped != {} ==> s.phase.Idle?))
    && (forall l :: l in s.skipped ==> s.broker.Polled(l))
    && (forall l :: l in s.abandoned ==> s.broker.Covered(l))
    && (forall l :: l in Pending(s.phase) ==> s.broker.Polled(l))
    && (forall l :: s.broker.Polled(l) ==>
          Done(env, s, calm, l) || l in Pending(s.phase) || l in s.skipped)
    && (forall l :: s.broker.Covered(l) ==> Done(env, s, calm, l))
    && (forall a :: a in s.attempts ==> s.broker.Holds(a.loc) && (a.delivered ==> Routable(s.broker.Fetch(a.loc))))
  }
}
