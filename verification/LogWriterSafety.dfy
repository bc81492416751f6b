/** At-least-once delivery: whatever fails and whenever the process dies, every message
    below a committed offset is stored, dead-lettered, or recorded as lost. */
module LogWriterSafety {
  import opened Wrappers
  import opened Events
  import opened Kafka
  import opened LogWriter

  lemma {:induction false} ParseBatchOk(env: Env, b: Broker, p: nat, lo: nat, hi: nat)
    requires p < |b.logs| && lo <= hi <= |b.logs[p]|
    ensures var w := ParseBatch(env, b.logs[p], p, lo, hi);
      && w.partition == p
      && |w.rows| == |w.valid|
      && (forall i :: 0 <= i < |w.valid| ==>
            w.valid[i].partition == p && lo <= w.valid[i].offset < hi && RowAt(env, b, w.valid[i]) == Some(w.rows[i]))
      && (forall i, j :: 0 <= i < j < |w.valid| ==> w.valid[i].offset < w.valid[j].offset)
      && (forall l :: l in w.failed ==> b.Holds(l) && RowAt(env, b, l).None?)
      && Elements(w.valid) + Elements(w.failed) == BatchLocs(Batch(p, lo, hi))
    decreases hi
  {
    if lo < hi {
      ParseBatchOk(env, b, p, lo, hi - 1);
      assert BatchLocs(Batch(p, lo, hi)) == BatchLocs(Batch(p, lo, hi - 1)) + {Loc(p, hi - 1)};
    }
  }

  lemma {:induction false} InsertAllKeys(table: Table, rows: seq<Row>)
    ensures table.Keys <= InsertAll(table, rows).Keys
    ensures forall k :: k in table ==> InsertAll(table, rows)[k] == table[k]
    ensures forall i :: 0 <= i < |rows| ==> KeyOf(rows[i]) in InsertAll(table, rows)
    decreases |rows|
  {
    if rows != [] {
      var front := rows[..|rows| - 1];
      InsertAllKeys(table, front);
      forall i | 0 <= i < |rows|
        ensures KeyOf(rows[i]) in InsertAll(table, rows)
      {
        if i < |front| { assert rows[i] == front[i]; }
      }
    }
  }

  /** The log only grows, the table only gains keys, and attempts are never forgotten. */
  ghost predicate Grows(s: State, t: State) {
    && |s.broker.logs| == |t.broker.logs|
    && (forall p :: 0 <= p < |s.broker.logs| ==> s.broker.logs[p] <= t.broker.logs[p])
    && s.table.Keys <= t.table.Keys
    && (forall a :: a in s.attempts ==> a in t.attempts)
    && s.abandoned <= t.abandoned
  }

  lemma DoneStays(env: Env, s: State, t: State, calm: bool, l: Loc)
    requires Grows(s, t) && Done(env, s, calm, l)
    requires s.broker.Holds(l) || s.broker == t.broker
    ensures Done(env, t, calm, l)
  {}

  /** An effect that leaves the broker alone keeps the invariant, if it deals with
      every message it takes off the pending set. */
  lemma EffectKeepsInv(env: Env, s: State, t: State, calm: bool)
    requires Inv(env, s, calm) && Grows(s, t) && t.broker == s.broker
    requires t.skipped == s.skipped && t.abandoned == s.abandoned
    requires !s.phase.Idle?
    requires PhaseOk(env, t.broker, t.table, calm, t.phase)
    requires Pending(t.phase) <= Pending(s.phase)
    requires forall l :: l in Pending(s.phase) && l !in Pending(t.phase) ==> Done(env, t, calm, l)
    requires forall a :: a in t.attempts ==>
      t.broker.Holds(a.loc) && (a.delivered ==> Routable(t.broker.Fetch(a.loc)))
    ensures Inv(env, t, calm)
  {}

  /** Appending messages leaves what was read before as it was. */
  lemma PhaseStaysOk(env: Env, b: Broker, c: Broker, table: Table, calm: bool, phase: Phase)
    requires PhaseOk(env, b, table, calm, phase) && |b.logs| == |c.logs|
    requires forall p :: 0 <= p < |b.logs| ==> b.logs[p] <= c.logs[p]
    ensures PhaseOk(env, c, table, calm, phase)
  {
    forall l | b.Holds(l)
      ensures c.Holds(l) && c.Fetch(l) == b.Fetch(l)
    {}
  }

  lemma ProduceKeepsInv(env: Env, s: State, calm: bool, p: nat, m: Message)
    requires Inv(env, s, calm) && p < |s.broker.logs|
    ensures Inv(env, Apply(env, s, Produce(p, m)), calm)
  {
    var t := Apply(env, s, Produce(p, m));
    PhaseStaysOk(env, s.broker, t.broker, s.table, calm, s.phase);
    forall l | s.broker.Holds(l)
      ensures t.broker.Holds(l) && t.broker.Fetch(l) == s.broker.Fetch(l)
    {}
    forall l | s.broker.Polled(l)
      ensures Done(env, t, calm, l) || l in Pending(t.phase) || l in t.skipped
    {
      if Done(env, s, calm, l) { DoneStays(env, s, t, calm, l); }
    }
    forall l | s.broker.Covered(l)
      ensures Done(env, t, calm, l)
    {
      DoneStays(env, s, t, calm, l);
    }
  }

  lemma PollKeepsInv(env: Env, s: State, calm: bool, fetch: seq<Batch>)
    requires Inv(env, s, calm) && Enabled(env, s, Poll(fetch)) && (calm ==> Calm(env, s, Poll(fetch)))
    ensures Inv(env, Apply(env, s, Poll(fetch)), calm)
  {
    var t := Apply(env, s, Poll(fetch));
    AdvancePolls(s.broker, fetch);
    forall l
      ensures Done(env, s, calm, l) ==> Done(env, t, calm, l)
    {}
  }

  lemma BeginKeepsInv(env: Env, s: State, calm: bool)
    requires Inv(env, s, calm) && Enabled(env, s, Begin)
    ensures Inv(env, Apply(env, s, Begin), calm)
  {
    var t := Apply(env, s, Begin);
    var b, todo := s.phase.todo[0], s.phase.todo[1..];
    ParseBatchOk(env, s.broker, b.partition, b.lo, b.hi);
    var w := ParseBatch(env, s.broker.logs[b.partition], b.partition, b.lo, b.hi);
    assert BatchLocs(Batch(b.partition, b.lo, b.hi)) == BatchLocs(b);
    assert Elements(w.valid) + Elements(w.failed) + Locs(todo) == Pending(s.phase);
    assert w.valid == [] ==> Elements(w.valid) == {};
    EffectKeepsInv(env, s, t, calm);
  }

  lemma BatchOkKeepsInv(env: Env, s: State, calm: bool)
    requires Inv(env, s, calm) && Enabled(env, s, BatchOk)
    ensures Inv(env, Apply(env, s, BatchOk), calm)
  {
    var t := Apply(env, s, BatchOk);
    var w := s.phase.work;
    InsertAllKeys(s.table, w.rows);
    forall l | l in w.valid
      ensures Done(env, t, calm, l)
    {
      var i :| 0 <= i < |w.valid| && w.valid[i] == l;
      assert Stored(env, t, l);
    }
    EffectKeepsInv(env, s, t, calm);
  }

  lemma BatchFailKeepsInv(env: Env, s: State, calm: bool, applied: bool)
    requires Inv(env, s, calm) && Enabled(env, s, BatchFail(applied))
    ensures Inv(env, Apply(env, s, BatchFail(applied)), calm)
  {
    var w := s.phase.work;
    InsertAllKeys(s.table, w.rows);
    assert w.valid[0..] == w.valid;
    EffectKeepsInv(env, s, Apply(env, s, BatchFail(applied)), calm);
  }

  lemma SingleOkKeepsInv(env: Env, s: State, calm: bool)
    requires Inv(env, s, calm) && Enabled(env, s, SingleOk)
    ensures Inv(env, Apply(env, s, SingleOk), calm)
  {
    var w, i := s.phase.work, s.phase.i;
    assert w.valid[i..] == [w.valid[i]] + w.valid[i + 1..];
    assert RowAt(env, s.broker, w.valid[i]) == Some(w.rows[i]);
    EffectKeepsInv(env, s, Apply(env, s, SingleOk), calm);
  }

  /** Row `i` joins the failed messages, over a table that may have it. */
  lemma RowFails(env: Env, b: Broker, table: Table, after: Table, calm: bool, w: Work, i: nat, todo: seq<Batch>)
    requires WorkOk(env, b, table, calm, w, todo) && i < |w.rows| && table.Keys <= after.Keys
    requires calm && env.accepts(w.rows[i]) ==> KeyOf(w.rows[i]) in after
    ensures WorkOk(env, b, after, calm, w.(failed := w.failed + [w.valid[i]]), todo)
    ensures RowAt(env, b, w.valid[i]) == Some(w.rows[i]) && b.Holds(w.valid[i])
    ensures Elements(w.valid[i..]) + Elements(w.failed) ==
            Elements(w.valid[i + 1..]) + Elements(w.failed + [w.valid[i]])
  {
    assert w.valid[i..] == [w.valid[i]] + w.valid[i + 1..];
    assert RowAt(env, b, w.valid[i]) == Some(w.rows[i]);
  }

  lemma SingleFailKeepsInv(env: Env, s: State, calm: bool, applied: bool)
    requires Inv(env, s, calm) && Enabled(env, s, SingleFail(applied)) && (calm ==> Calm(env, s, SingleFail(applied)))
    ensures Inv(env, Apply(env, s, SingleFail(applied)), calm)
  {
    var t := Apply(env, s, SingleFail(applied));
    RowFails(env, s.broker, s.table, t.table, calm, s.phase.work, s.phase.i, s.phase.todo);
    EffectKeepsInv(env, s, t, calm);
  }

  lemma TailKeepsInv(env: Env, s: State, calm: bool, e: Event)
    requires Inv(env, s, calm) && Enabled(env, s, e) && (e.Release? || e.Send?)
    ensures Inv(env, Apply(env, s, e), calm)
  {
    var t := Apply(env, s, e);
    if e.Send? {
      assert s.phase.failed == [s.phase.failed[0]] + s.phase.failed[1..];
      forall l | l in Pending(s.phase) && l !in Pending(t.phase)
        ensures Done(env, t, calm, l)
      {
        assert l == s.phase.failed[0];
        assert Attempt(l, e.delivered) in t.attempts;
      }
    } else {
      assert |s.phase.work.valid[s.phase.i..]| == 0;
    }
    EffectKeepsInv(env, s, t, calm);
  }

  lemma CommitKeepsInv(env: Env, s: State, calm: bool, e: Event)
    requires Inv(env, s, calm) && Enabled(env, s, e) && (e.CommitOk? || e.CommitFail?)
    ensures Inv(env, Apply(env, s, e), calm)
  {
    var t := Apply(env, s, e);
    assert Pending(s.phase) == {};
    forall l ensures Done(env, s, calm, l) ==> Done(env, t, calm, l) {}
  }

  lemma StopKeepsInv(env: Env, s: State, calm: bool, e: Event)
    requires Inv(env, s, calm) && Enabled(env, s, e) && (e.EarlyExit? || e.Crash?)
    ensures Inv(env, Apply(env, s, e), calm)
  {
    var t := Apply(env, s, e);
    forall l
      ensures Done(env, s, calm, l) ==> Done(env, t, calm, l)
    {}
  }

  /** Every effect keeps the invariant. */
  lemma StepKeepsInv(env: Env, s: State, calm: bool, e: Event)
    requires Inv(env, s, calm) && Enabled(env, s, e) && (calm ==> Calm(env, s, e))
    ensures Inv(env, Apply(env, s, e), calm)
  {
    match e
    case Produce(p, m) => ProduceKeepsInv(env, s, calm, p, m);
    case Poll(fetch) => PollKeepsInv(env, s, calm, fetch);
    case Begin => BeginKeepsInv(env, s, calm);
    case BatchOk => BatchOkKeepsInv(env, s, calm);
    case BatchFail(applied) => BatchFailKeepsInv(env, s, calm, applied);
    case SingleOk => SingleOkKeepsInv(env, s, calm);
    case SingleFail(applied) => SingleFailKeepsInv(env, s, calm, applied);
    case Release => TailKeepsInv(env, s, calm, e);
    case Send(_) => TailKeepsInv(env, s, calm, e);
    case CommitOk => CommitKeepsInv(env, s, calm, e);
    case CommitFail(_) => CommitKeepsInv(env, s, calm, e);
    case EarlyExit => StopKeepsInv(env, s, calm, e);
    case Crash => StopKeepsInv(env, s, calm, e);
  }

  lemma {:induction false} RunKeepsInv(env: Env, s: State, calm: bool, es: seq<Event>)
    requires Inv(env, s, calm) && Run(env, s, es) && (calm ==> CalmRun(env, s, es))
    ensures Inv(env, Exec(env, s, es), calm)
    decreases |es|
  {
    if es != [] {
      StepKeepsInv(env, s, calm, es[0]);
      RunKeepsInv(env, Apply(env, s, es[0]), calm, es[1..]);
    }
  }

  lemma InitialInv(env: Env, n: nat, calm: bool)
    ensures Inv(env, Initial(n), calm)
  {}

  // ------------------------------------------------------------------ theorems

  /** No commit happens while messages passed over by an early exit are outstanding. */
  ghost predicate NeverCommitsPastSkip(env: Env, s: State, es: seq<Event>)
    requires Run(env, s, es)
    decreases |es|
  {
    es != [] ==>
      && (es[0] == CommitOk || es[0] == CommitFail(true) ==> s.skipped == {})
      && NeverCommitsPastSkip(env, Apply(env, s, es[0]), es[1..])
  }

  lemma {:induction false} NothingAbandoned(env: Env, s: State, es: seq<Event>)
    requires Run(env, s, es) && NeverCommitsPastSkip(env, s, es)
    ensures Exec(env, s, es).abandoned == s.abandoned
    decreases |es|
  {
    if es != [] {
      NothingAbandoned(env, Apply(env, s, es[0]), es[1..]);
    }
  }

  /** At-least-once safety over every run, any number of partitions and crashes: an offset
      is committed only if its message is stored, dead-lettered, or recorded as lost,
      or it is one of the messages that a commit covered after an early exit. */
  lemma AtLeastOnce(env: Env, n: nat, es: seq<Event>, l: Loc)
    requires Run(env, Initial(n), es)
    requires Exec(env, Initial(n), es).broker.Covered(l)
    ensures var s := Exec(env, Initial(n), es);
      && s.broker.Holds(l)
      && (Accounted(env, s, l) || l in s.abandoned)
      && (NeverCommitsPastSkip(env, Initial(n), es) ==> Accounted(env, s, l))
  {
    InitialInv(env, n, false);
    RunKeepsInv(env, Initial(n), false, es);
    if NeverCommitsPastSkip(env, Initial(n), es) {
      NothingAbandoned(env, Initial(n), es);
    }
  }

  /** Exactly when a commit is safe: all covered messages are accounted for afterwards
      if and only if those skipped or abandoned so far already are. */
  lemma CommitSafeExactly(env: Env, n: nat, es: seq<Event>)
    requires Run(env, Initial(n), es) && Enabled(env, Exec(env, Initial(n), es), CommitOk)
    ensures var s := Exec(env, Initial(n), es);
      var t := Apply(env, s, CommitOk);
      (forall l :: t.broker.Covered(l) ==> Accounted(env, t, l)) <==>
      (forall l :: l in s.skipped + s.abandoned ==> Accounted(env, s, l))
  {
    var s := Exec(env, Initial(n), es);
    var t := Apply(env, s, CommitOk);
    InitialInv(env, n, false);
    RunKeepsInv(env, Initial(n), false, es);
    assert Pending(s.phase) == {};
    forall l ensures Accounted(env, t, l) == Accounted(env, s, l) {}
    forall l | l in s.skipped + s.abandoned
      ensures t.broker.Covered(l)
    {}
    if forall l :: l in s.skipped + s.abandoned ==> Accounted(env, s, l) {
      forall l | t.broker.Covered(l)
        ensures Accounted(env, t, l)
      {
        assert s.broker.Polled(l);
        assert Done(env, s, false, l) || l in s.skipped;
      }
    }
  }

  lemma ParseOne(env: Env, log: seq<Message>, o: nat)
    requires o < |log| && Parse(env, log[o]).Some?
    ensures ParseBatch(env, log, 0, o, o + 1) == Work(0, [Parse(env, log[o]).value], [Loc(0, o)], [])
  {}

  /** One poll of one parseable message, up to the insert. */
  lemma PollOne(env: Env, s: State) returns (t: State)
    requires |s.broker.logs| == |s.broker.position| == 1 && s.phase.Idle?
    requires s.broker.position[0] < |s.broker.logs[0]|
    requires Parse(env, s.broker.logs[0][s.broker.position[0]]).Some?
    ensures var o := s.broker.position[0];
      && t == s.(broker := s.broker.(position := [o + 1]),
                 phase := Insert(Work(0, [Parse(env, s.broker.logs[0][o]).value], [Loc(0, o)], []), []))
      && Run(env, s, [Poll([Batch(0, o, o + 1)]), Begin])
      && Exec(env, s, [Poll([Batch(0, o, o + 1)]), Begin]) == t
  {
    var o := s.broker.position[0];
    var fetch := [Batch(0, o, o + 1)];
    assert Total(fetch) == 1 + Total([]);
    var s1 := Apply(env, s, Poll(fetch));
    assert Moved(s.broker.position, fetch) == Moved(s.broker.position[0 := o + 1], []);
    assert s1.broker.position == [o + 1];
    ParseOne(env, s.broker.logs[0], o);
    t := Apply(env, s1, Begin);
    assert [Poll(fetch), Begin][1..] == [Begin];
    assert [Begin][1..] == [];
  }

  lemma {:induction false} RunConcat(env: Env, s: State, a: seq<Event>, b: seq<Event>)
    requires Run(env, s, a) && Run(env, Exec(env, s, a), b)
    ensures Run(env, s, a + b) && Exec(env, s, a + b) == Exec(env, Exec(env, s, a), b)
    decreases |a|
  {
    if a == [] {
      assert a + b == b;
    } else {
      assert (a + b)[1..] == a[1..] + b;
      RunConcat(env, Apply(env, s, a[0]), a[1..], b);
    }
  }

  lemma RunOne(env: Env, s: State, e: Event)
    requires Enabled(env, s, e)
    ensures Run(env, s, [e]) && Exec(env, s, [e]) == Apply(env, s, e)
  {}

  lemma RunTwo(env: Env, s: State, e: Event, f: Event)
    requires Enabled(env, s, e) && Enabled(env, Apply(env, s, e), f)
    ensures Run(env, s, [e, f]) && Exec(env, s, [e, f]) == Apply(env, Apply(env, s, e), f)
  {
    assert [e, f][1..] == [f];
    RunOne(env, Apply(env, s, e), f);
  }

  lemma ProducesTwo(env: Env, m0: Message, m1: Message)
    ensures var es := [Produce(0, m0), Produce(0, m1)];
      && Run(env, Initial(1), es)
      && Exec(env, Initial(1), es) == State(Broker([[m0, m1]], [0], [0]), map[], [], Idle, {}, {})
  {
    assert Initial(1) == State(Broker([[]], [0], [0]), map[], [], Idle, {}, {});
    assert [] + [m0] + [m1] == [m0, m1];
    RunTwo(env, Initial(1), Produce(0, m0), Produce(0, m1));
  }

  lemma SkipsOne(env: Env, s: State)
    requires |s.broker.logs| == |s.broker.position| == 1 && s.phase.Idle?
    requires s.broker.position[0] < |s.broker.logs[0]|
    requires Parse(env, s.broker.logs[0][s.broker.position[0]]).Some?
    ensures var o := s.broker.position[0];
      var es := [Poll([Batch(0, o, o + 1)]), Begin] + [BatchFail(false), EarlyExit];
      && Run(env, s, es)
      && Exec(env, s, es) == s.(broker := s.broker.(position := [o + 1]), skipped := s.skipped + {Loc(0, o)})
  {
    var o := s.broker.position[0];
    var t := PollOne(env, s);
    assert Pending(Apply(env, t, BatchFail(false)).phase) == {Loc(0, o)};
    RunTwo(env, t, BatchFail(false), EarlyExit);
    RunConcat(env, s, [Poll([Batch(0, o, o + 1)]), Begin], [BatchFail(false), EarlyExit]);
  }

  lemma StoresOne(env: Env, s: State, row: Row)
    requires |s.broker.logs| == |s.broker.position| == 1 && s.phase.Idle? && s.table == map[]
    requires s.broker.position[0] < |s.broker.logs[0]|
    requires Parse(env, s.broker.logs[0][s.broker.position[0]]) == Some(row) && env.accepts(row)
    ensures var o := s.broker.position[0];
      var es := [Poll([Batch(0, o, o + 1)]), Begin] + [BatchOk, CommitOk];
      && Run(env, s, es)
      && var t := Exec(env, s, es);
         && t.broker == Broker(s.broker.logs, [o + 1], [o + 1]) && t.table == map[KeyOf(row) := row]
         && t.attempts == s.attempts
         && t.abandoned == s.abandoned + set l | l in s.skipped && !Accounted(env, t, l)
  {
    var o := s.broker.position[0];
    var t := PollOne(env, s);
    var u := Apply(env, t, BatchOk);
    assert InsertAll(map[], [row]) == InsertIfAbsent(InsertAll(map[], [row][..0]), row);
    var v := Apply(env, u, CommitOk);
    RunTwo(env, t, BatchOk, CommitOk);
    RunConcat(env, s, [Poll([Batch(0, o, o + 1)]), Begin], [BatchOk, CommitOk]);
    forall l ensures Accounted(env, u, l) == Accounted(env, v, l) {}
  }

  lemma ProducesThenSkips(env: Env, m0: Message, m1: Message)
    requires Parse(env, m0).Some?
    ensures var es := [Produce(0, m0), Produce(0, m1)] + ([Poll([Batch(0, 0, 1)]), Begin] + [BatchFail(false), EarlyExit]);
      && Run(env, Initial(1), es)
      && Exec(env, Initial(1), es) == State(Broker([[m0, m1]], [1], [0]), map[], [], Idle, {Loc(0, 0)}, {})
  {
    var a := [Produce(0, m0), Produce(0, m1)];
    ProducesTwo(env, m0, m1);
    SkipsOne(env, Exec(env, Initial(1), a));
    RunConcat(env, Initial(1), a, [Poll([Batch(0, 0, 1)]), Begin] + [BatchFail(false), EarlyExit]);
  }

  /** The code does break the promise: the early exit, one more poll, and a commit leave
      the first message in neither the table nor the dead-letter log, and not lost either.
      The messages are any two that the database would take as two rows. */
  lemma EarlyExitAbandons(env: Env, m0: Message, m1: Message)
    requires Parse(env, m0).Some? && Parse(env, m1).Some?
    requires env.accepts(Parse(env, m1).value)
    requires KeyOf(Parse(env, m0).value) != KeyOf(Parse(env, m1).value)
    ensures var es := [Produce(0, m0), Produce(0, m1)]
                      + ([Poll([Batch(0, 0, 1)]), Begin] + [BatchFail(false), EarlyExit])
                      + ([Poll([Batch(0, 1, 2)]), Begin] + [BatchOk, CommitOk]);
      && Run(env, Initial(1), es)
      && var s := Exec(env, Initial(1), es);
         s.broker.Covered(Loc(0, 0)) && !Accounted(env, s, Loc(0, 0)) && s.abandoned == {Loc(0, 0)}
  {
    var skip := [Produce(0, m0), Produce(0, m1)] + ([Poll([Batch(0, 0, 1)]), Begin] + [BatchFail(false), EarlyExit]);
    var store := [Poll([Batch(0, 1, 2)]), Begin] + [BatchOk, CommitOk];
    ProducesThenSkips(env, m0, m1);
    var s := Exec(env, Initial(1), skip);
    StoresOne(env, s, Parse(env, m1).value);
    RunConcat(env, Initial(1), skip, store);
    assert RowAt(env, Exec(env, s, store).broker, Loc(0, 0)) == Some(Parse(env, m0).value);
  }

  /** The producer never refuses an envelope that could be built. */
  ghost predicate SendsSucceed(env: Env, s: State, es: seq<Event>)
    requires Run(env, s, es)
    decreases |es|
  {
    es != [] ==>
      && (es[0] == Send(false) ==> !Routable(s.broker.Fetch(s.phase.failed[0])))
      && SendsSucceed(env, Apply(env, s, es[0]), es[1..])
  }

  lemma {:induction false} OnlyUnroutableLost(env: Env, s: State, es: seq<Event>)
    requires Inv(env, s, false) && Run(env, s, es) && SendsSucceed(env, s, es)
    requires forall a :: a in s.attempts && !a.delivered ==> !Routable(s.broker.Fetch(a.loc))
    ensures Inv(env, Exec(env, s, es), false)
    ensures forall a :: a in Exec(env, s, es).attempts && !a.delivered ==>
      !Routable(Exec(env, s, es).broker.Fetch(a.loc))
    decreases |es|
  {
    if es != [] {
      StepKeepsInv(env, s, false, es[0]);
      OnlyUnroutableLost(env, Apply(env, s, es[0]), es[1..]);
    }
  }

  /** Quarantine, exactly: with a working producer and no early exit covered by a commit,
      a committed message without a row is dead-lettered if and only if its key and value
      are UTF-8; the other ones cannot be wrapped and are lost whatever the broker does. */
  lemma QuarantineExactly(env: Env, n: nat, es: seq<Event>, l: Loc)
    requires Run(env, Initial(n), es) && SendsSucceed(env, Initial(n), es)
    requires NeverCommitsPastSkip(env, Initial(n), es)
    requires Exec(env, Initial(n), es).broker.Covered(l)
    ensures var s := Exec(env, Initial(n), es);
      && s.broker.Holds(l)
      && (Quarantined(s, l) ==> Routable(s.broker.Fetch(l)))
      && (Lost(s, l) ==> !Routable(s.broker.Fetch(l)))
      && (!Stored(env, s, l) ==>
            (Quarantined(s, l) <==> Routable(s.broker.Fetch(l))) && (Lost(s, l) <==> !Routable(s.broker.Fetch(l))))
  {
    InitialInv(env, n, false);
    OnlyUnroutableLost(env, Initial(n), es);
    AtLeastOnce(env, n, es, l);
  }

  lemma ParseNone(env: Env, log: seq<Message>, o: nat)
    requires o < |log| && Parse(env, log[o]).None?
    ensures ParseBatch(env, log, 0, o, o + 1) == Work(0, [], [], [Loc(0, o)])
  {
    assert ParseBatch(env, log, 0, o, o) == Work(0, [], [], []);
  }

  lemma {:induction false} SendsConcat(env: Env, s: State, a: seq<Event>, b: seq<Event>)
    requires Run(env, s, a) && Send(false) !in a
    requires Run(env, Exec(env, s, a), b) && SendsSucceed(env, Exec(env, s, a), b)
    ensures Run(env, s, a + b) && SendsSucceed(env, s, a + b)
    decreases |a|
  {
    RunConcat(env, s, a, b);
    if a == [] {
      assert a + b == b;
    } else {
      assert a == [a[0]] + a[1..] && (a + b)[1..] == a[1..] + b;
      SendsConcat(env, Apply(env, s, a[0]), a[1..], b);
    }
  }

  /** One message that does not parse, polled and about to be dead-lettered. */
  lemma PollsUnparseable(env: Env, m: Message) returns (t: State)
    requires Parse(env, m).None?
    ensures var es := [Produce(0, m), Poll([Batch(0, 0, 1)])] + [Begin];
      Run(env, Initial(1), es) && Exec(env, Initial(1), es) == t
    ensures t == State(Broker([[m]], [1], [0]), map[], [], Route([Loc(0, 0)], []), {}, {})
  {
    var fetch := [Batch(0, 0, 1)];
    assert Initial(1) == State(Broker([[]], [0], [0]), map[], [], Idle, {}, {});
    var s1 := Apply(env, Initial(1), Produce(0, m));
    assert [] + [m] == [m] && s1.broker.logs == [[m]];
    assert fetch[1..] == [] && Total(fetch) == 1;
    RunTwo(env, Initial(1), Produce(0, m), Poll(fetch));
    var s2 := Apply(env, s1, Poll(fetch));
    assert Moved([0], fetch) == Moved([1], []) == [1];
    ParseNone(env, [m], 0);
    assert fetch[0] == Batch(0, 0, 1) && s2.phase == Next(fetch) && s2.broker.logs[0] == [m];
    RunOne(env, s2, Begin);
    t := Apply(env, s2, Begin);
    RunConcat(env, Initial(1), [Produce(0, m), Poll(fetch)], [Begin]);
  }

  /** Such a loss happens: of any message whose key or value is not UTF-8 and that has no row,
      with a producer that refuses nothing it is given. */
  lemma UnroutableIsLost(env: Env, m: Message)
    requires Parse(env, m).None? && !Routable(m)
    ensures var es := ([Produce(0, m), Poll([Batch(0, 0, 1)])] + [Begin]) + [Send(false), CommitOk];
      && Run(env, Initial(1), es) && SendsSucceed(env, Initial(1), es)
      && var s, l := Exec(env, Initial(1), es), Loc(0, 0);
         s.broker.Covered(l) && Lost(s, l) && !Quarantined(s, l) && !Stored(env, s, l)
  {
    var es := [Produce(0, m), Poll([Batch(0, 0, 1)])] + [Begin];
    var t := PollsUnparseable(env, m);
    RunTwo(env, t, Send(false), CommitOk);
    RunConcat(env, Initial(1), es, [Send(false), CommitOk]);
    assert RowAt(env, t.broker, Loc(0, 0)).None?;
    assert [Send(false), CommitOk][1..] == [CommitOk] && [CommitOk][1..] == [];
    SendsConcat(env, Initial(1), es, [Send(false), CommitOk]);
    assert [] + [Attempt(Loc(0, 0), false)] == [Attempt(Loc(0, 0), false)];
  }
}
