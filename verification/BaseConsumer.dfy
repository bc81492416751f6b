/** The shared consume loop: bounded retries, dead-lettering, one commit per poll, and
    graceful shutdown. */
module BaseConsumer {
  import opened Wrappers
  import opened Events
  import opened Kafka

  /** The default of `max_retries`, which every caller uses. */
  const MAX_RETRIES: nat := 3

  function Pow2(n: nat): nat {
    if n == 0 then 1 else 2 * Pow2(n - 1)
  }

  predicate FirstSuccess(outcomes: nat -> bool, n: nat, s: nat) {
    s < n && outcomes(s) && forall i: nat :: i < s ==> !outcomes(i)
  }

  /** `_run_with_retry`: attempt i succeeds when `outcomes(i)` does. Counts the calls of
      `process`, the seconds slept, and the dead-letter attempts. */
  method RunWithRetry(outcomes: nat -> bool, maxRetries: nat) returns (calls: nat, slept: nat, sends: nat)
    ensures forall s: nat :: FirstSuccess(outcomes, maxRetries, s) ==>
      calls == s + 1 && slept == Pow2(s) - 1 && sends == 0
    ensures (forall i: nat :: i < maxRetries ==> !outcomes(i)) ==>
      calls == maxRetries && sends == 1 && slept == if maxRetries == 0 then 0 else Pow2(maxRetries - 1) - 1
    ensures sends == 0 ==> calls > 0 && FirstSuccess(outcomes, maxRetries, calls - 1)
    ensures sends == 1 <==> forall i: nat :: i < maxRetries ==> !outcomes(i)
    ensures sends <= 1
  {
    calls, slept, sends := 0, 0, 0;
    for attempt := 0 to maxRetries
      invariant calls == attempt && sends == 0
      invariant forall i: nat :: i < attempt ==> !outcomes(i)
      invariant slept + 1 == if attempt == 0 then 1 else Pow2(if attempt < maxRetries then attempt else attempt - 1)
    {
      calls := calls + 1;
      if outcomes(attempt) {
        return;
      }
      var wait := Pow2(attempt);
      if attempt < maxRetries - 1 {
        slept := slept + wait;
      }
    }
    sends := 1;
  }

  // ------------------------------------------------------------- the machine

  datatype Phase =
    | Idle                              // about to test `_running`
    | Handle(todo: seq<Loc>, tries: nat) // messages of this poll not yet dealt with
    | Exited

  /** `processed` lists the messages of the successful `process` calls. */
  datatype State = State(broker: Broker, running: bool, phase: Phase,
                         processed: seq<Loc>, attempts: seq<Attempt>)

  datatype Event =
    | Produce(p: nat, m: Message)
    | Poll(fetch: seq<Batch>)
    | Try(ok: bool)
    | Send(delivered: bool)
    | CommitOk
    | CommitFail(applied: bool)
    | Signal                            // SIGTERM or SIGINT, at any point
    | Exit
    | Crash                             // followed by a restart

  function BatchSeq(b: Batch): seq<Loc> {
    seq(if b.lo <= b.hi then b.hi - b.lo else 0, (i: nat) => Loc(b.partition, b.lo + i))
  }

  /** The messages of a poll in the order of the two nested loops. */
  function Queue(fetch: seq<Batch>): seq<Loc> {
    if fetch == [] then [] else BatchSeq(fetch[0]) + Queue(fetch[1..])
  }

  predicate Enabled(s: State, e: Event) {
    match e
    case Produce(p, m) => p < |s.broker.logs|
    case Poll(fetch) => s.phase.Idle? && s.running && s.broker.CanFetch(fetch)
    case Try(ok) => s.phase.Handle? && s.phase.todo != [] && s.phase.tries < MAX_RETRIES
    case Send(delivered) =>
      && s.phase.Handle? && s.phase.todo != [] && s.phase.tries == MAX_RETRIES
      && (delivered ==> s.broker.Holds(s.phase.todo[0]) && Routable(s.broker.Fetch(s.phase.todo[0])))
    case CommitOk => s.phase.Handle? && s.phase.todo == []
    case CommitFail(applied) => s.phase.Handle? && s.phase.todo == []
    case Signal => true
    case Exit => s.phase.Idle? && !s.running
    case Crash => true
  }

  function Apply(s: State, e: Event): State
    requires Enabled(s, e)
  {
    match e
    case Produce(p, m) => s.(broker := s.broker.Produce(p, m))
    case Poll(fetch) =>
      s.(broker := s.broker.Advance(fetch), phase := if fetch == [] then Idle else Handle(Queue(fetch), 0))
    case Try(ok) =>
      if ok then s.(processed := s.processed + [s.phase.todo[0]], phase := Handle(s.phase.todo[1..], 0))
      else s.(phase := s.phase.(tries := s.phase.tries + 1))
    case Send(delivered) =>
      s.(attempts := s.attempts + [Attempt(s.phase.todo[0], delivered)], phase := Handle(s.phase.todo[1..], 0))
    case CommitOk => s.(broker := s.broker.Commit(), phase := Idle)
    case CommitFail(applied) => s.(broker := if applied then s.broker.Commit() else s.broker, phase := Idle)
    case Signal => s.(running := false)
    case Exit => s.(phase := Exited)
    case Crash => s.(broker := s.broker.Restart(), running := true, phase := Idle)
  }

  ghost predicate Run(s: State, es: seq<Event>)
    decreases |es|
  {
    es != [] ==> Enabled(s, es[0]) && Run(Apply(s, es[0]), es[1..])
  }

  ghost function Exec(s: State, es: seq<Event>): State
    requires Run(s, es)
    decreases |es|
  {
    if es == [] then s else Exec(Apply(s, es[0]), es[1..])
  }

  function Initial(partitions: nat): State {
    State(Broker(seq(partitions, _ => []), seq(partitions, _ => 0), seq(partitions, _ => 0)), true, Idle, [], [])
  }

  predicate Done(s: State, l: Loc) {
    l in s.processed || Attempt(l, true) in s.attempts || Attempt(l, false) in s.attempts
  }

  function Pending(phase: Phase): seq<Loc> {
    if phase.Handle? then phase.todo else []
  }

  ghost predicate Inv(s: State) {
    && s.broker.Valid()
    && (s.phase.Handle? ==> s.phase.tries <= MAX_RETRIES)
    && (forall l :: l in Pending(s.phase) ==> s.broker.Polled(l))
    && (forall l :: s.broker.Polled(l) ==> Done(s, l) || l in Pending(s.phase))
    && (forall l :: s.broker.Covered(l) ==> Done(s, l))
    && (forall l :: l in s.processed ==> s.broker.Holds(l))
  }

  lemma {:induction false} QueueIsFetch(fetch: seq<Batch>)
    ensures forall l :: l in Queue(fetch) <==> l in Locs(fetch)
  {
    if fetch != [] {
      var b := fetch[0];
      QueueIsFetch(fetch[1..]);
      forall l | l in BatchLocs(b)
        ensures l in BatchSeq(b)
      {
        assert BatchSeq(b)[l.offset - b.lo] == l;
      }
    }
  }

  /** Each partition's messages in offset order, none twice. */
  ghost predicate InOrder(q: seq<Loc>) {
    forall i, j :: 0 <= i < j < |q| && q[i].partition == q[j].partition ==> q[i].offset < q[j].offset
  }

  /** The two nested loops take each partition's messages in offset order. */
  lemma {:induction false} QueueInOrder(fetch: seq<Batch>)
    requires Apart(fetch)
    ensures InOrder(Queue(fetch))
    decreases |fetch|
  {
    if fetch != [] {
      var head, rest := BatchSeq(fetch[0]), Queue(fetch[1..]);
      QueueInOrder(fetch[1..]);
      QueuePartitions(fetch[1..]);
      forall l | l in rest
        ensures l.partition != fetch[0].partition
      {
        var i :| 0 <= i < |fetch[1..]| && fetch[1..][i].partition == l.partition;
        assert fetch[i + 1].partition == l.partition;
      }
      InOrderJoin(head, rest);
    }
  }

  lemma InOrderJoin(a: seq<Loc>, b: seq<Loc>)
    requires InOrder(a) && InOrder(b)
    requires forall l, r :: l in a && r in b ==> l.partition != r.partition
    ensures InOrder(a + b)
  {
    var q := a + b;
    forall i, j | 0 <= i < j < |q| && q[i].partition == q[j].partition
      ensures q[i].offset < q[j].offset
    {
      assert i < |a| ==> q[i] in a;
      assert |a| <= j ==> q[j] in b;
    }
  }

  lemma {:induction false} QueuePartitions(fetch: seq<Batch>)
    ensures forall l :: l in Queue(fetch) ==> exists i :: 0 <= i < |fetch| && fetch[i].partition == l.partition
    decreases |fetch|
  {
    if fetch != [] {
      QueuePartitions(fetch[1..]);
      forall l | l in Queue(fetch)
        ensures exists i :: 0 <= i < |fetch| && fetch[i].partition == l.partition
      {
        if l in BatchSeq(fetch[0]) {
          assert fetch[0].partition == l.partition;
        } else {
          var i :| 0 <= i < |fetch[1..]| && fetch[1..][i].partition == l.partition;
          assert fetch[i + 1].partition == l.partition;
        }
      }
    }
  }

  lemma StepKeepsInv(s: State, e: Event)
    requires Inv(s) && Enabled(s, e)
    ensures Inv(Apply(s, e))
  {
    var t := Apply(s, e);
    if e.Poll? {
      AdvancePolls(s.broker, e.fetch);
      QueueIsFetch(e.fetch);
    } else if e.Send? || (e.Try? && e.ok) {
      assert s.phase.todo == [s.phase.todo[0]] + s.phase.todo[1..];
      assert s.phase.todo[0] in Pending(s.phase);
      assert s.broker.Polled(s.phase.todo[0]);
      if e.Send? { assert Attempt(s.phase.todo[0], e.delivered) in t.attempts; }
    }
    forall l | Done(s, l) ensures Done(t, l) {}
    forall l | s.broker.Holds(l) ensures t.broker.Holds(l) {}
  }

  lemma {:induction false} RunKeepsInv(s: State, es: seq<Event>)
    requires Inv(s) && Run(s, es)
    ensures Inv(Exec(s, es))
    decreases |es|
  {
    if es != [] {
      StepKeepsInv(s, es[0]);
      RunKeepsInv(Apply(s, es[0]), es[1..]);
    }
  }

  /** Accounting over whole runs: a committed message was processed successfully, or was
      dead-lettered, or its dead-letter send was refused. */
  lemma EveryCommittedMessageAccounted(n: nat, es: seq<Event>, l: Loc)
    requires Run(Initial(n), es) && Exec(Initial(n), es).broker.Covered(l)
    ensures Done(Exec(Initial(n), es), l)
  {
    RunKeepsInv(Initial(n), es);
  }

  lemma {:induction false} NoPollAfterSignal(s: State, es: seq<Event>)
    requires Run(s, es) && Crash !in es && !s.running
    ensures !Exec(s, es).running && Exec(s, es).broker.position == s.broker.position
    decreases |es|
  {
    if es != [] {
      assert es[0] in es && forall e :: e in es[1..] ==> e in es;
      NoPollAfterSignal(Apply(s, es[0]), es[1..]);
    }
  }

  /** Out of the poll and not running, the loop commits nothing more. */
  lemma {:induction false} NoCommitAfterPoll(s: State, es: seq<Event>)
    requires Run(s, es) && Crash !in es && !s.running && !s.phase.Handle?
    ensures Exec(s, es).broker.committed == s.broker.committed && CommitFail(false) !in es
    decreases |es|
  {
    if es != [] {
      assert es == [es[0]] + es[1..];
      NoCommitAfterPoll(Apply(s, es[0]), es[1..]);
    }
  }

  /** A poll that is being handled when the signal has come ends in one commit or failed commit. */
  lemma {:induction false} OneCommitToExit(s: State, es: seq<Event>)
    requires Run(s, es) && Crash !in es && !s.running && s.phase.Handle? && Exec(s, es).phase.Exited?
    ensures Exec(s, es).broker.committed ==
            if CommitFail(false) in es then s.broker.committed else s.broker.position
    decreases |es|
  {
    assert es == [es[0]] + es[1..];
    if es[0].CommitOk? || es[0].CommitFail? {
      NoCommitAfterPoll(Apply(s, es[0]), es[1..]);
    } else {
      OneCommitToExit(Apply(s, es[0]), es[1..]);
    }
  }

  /** Graceful shutdown: a signal that arrives while a poll is being handled lets every message
      of that poll be dealt with before the loop exits, and no further poll happens. The
      offsets are committed before the exit if and only if the one commit left does not fail,
      or there was nothing to commit. */
  lemma ShutdownDrains(s: State, es: seq<Event>)
    requires Inv(s) && s.phase.Handle? && Run(s, [Signal] + es) && Crash !in es
    requires Exec(s, [Signal] + es).phase.Exited?
    ensures var t := Exec(s, [Signal] + es);
      && t.broker.position == s.broker.position
      && (forall l :: s.broker.Polled(l) ==> Done(t, l))
      && (t.broker.committed == s.broker.position <==>
            CommitFail(false) !in es || s.broker.committed == s.broker.position)
  {
    assert ([Signal] + es)[1..] == es;
    var u := Apply(s, Signal);
    StepKeepsInv(s, Signal);
    RunKeepsInv(u, es);
    NoPollAfterSignal(u, es);
    OneCommitToExit(u, es);
    forall l | s.broker.Polled(l)
      ensures Done(Exec(u, es), l)
    {
      assert Exec(u, es).broker.Polled(l);
    }
  }

  lemma Cons(s: State, e: Event, es: seq<Event>)
    requires Enabled(s, e) && Run(Apply(s, e), es)
    ensures Run(s, [e] + es) && Exec(s, [e] + es) == Exec(Apply(s, e), es)
  {
    assert ([e] + es)[1..] == es;
  }

  /** One message has arrived, been polled, and processed, when the signal comes. */
  lemma SignalDuringPoll(m: Message) returns (t: State)
    ensures var es := [Produce(0, m)] + ([Poll([Batch(0, 0, 1)])] + ([Signal] + ([Try(true)] + [])));
      Run(Initial(1), es) && Exec(Initial(1), es) == t
    ensures t == State(Broker([[m]], [1], [0]), false, Handle([], 0), [Loc(0, 0)], [])
  {
    var fetch := [Batch(0, 0, 1)];
    assert Initial(1) == State(Broker([[]], [0], [0]), true, Idle, [], []);
    var s1 := Apply(Initial(1), Produce(0, m));
    assert [] + [m] == [m] && s1.broker.logs == [[m]];
    assert fetch[1..] == [] && Total(fetch) == 1;
    var s2 := Apply(s1, Poll(fetch));
    assert Moved([0], fetch) == Moved([1], []) == [1];
    assert BatchSeq(fetch[0]) == [Loc(0, 0)] && Queue(fetch) == [Loc(0, 0)];
    var s3 := Apply(s2, Signal);
    t := Apply(s3, Try(true));
    Cons(s3, Try(true), []);
    Cons(s2, Signal, [Try(true)] + []);
    Cons(s1, Poll(fetch), [Signal] + ([Try(true)] + []));
    Cons(Initial(1), Produce(0, m), [Poll(fetch)] + ([Signal] + ([Try(true)] + [])));
  }

  /** A shutdown that does not commit: the consumer stops with a processed message uncommitted. */
  lemma ShutdownMayNotCommit(m: Message)
    ensures var es := ([Produce(0, m)] + ([Poll([Batch(0, 0, 1)])] + ([Signal] + ([Try(true)] + []))))
                      + ([CommitFail(false)] + ([Exit] + []));
      && Run(Initial(1), es)
      && var t := Exec(Initial(1), es);
         t.phase.Exited? && Loc(0, 0) in t.processed && t.broker.position == [1] && t.broker.committed == [0]
  {
    var t := SignalDuringPoll(m);
    Cons(Apply(t, CommitFail(false)), Exit, []);
    Cons(t, CommitFail(false), [Exit] + []);
    RunConcat(Initial(1), [Produce(0, m)] + ([Poll([Batch(0, 0, 1)])] + ([Signal] + ([Try(true)] + []))),
              [CommitFail(false)] + ([Exit] + []));
  }

  // ---------------------------------------------------------- the loop itself

  /** The failed attempts of one call of `_run_with_retry`. */
  function Failures(n: nat): seq<Event> {
    if n == 0 then [] else [Try(false)] + Failures(n - 1)
  }

  lemma {:induction false} FailuresRun(s: State, n: nat)
    requires s.phase.Handle? && s.phase.todo != [] && s.phase.tries + n <= MAX_RETRIES
    ensures Run(s, Failures(n))
    ensures Exec(s, Failures(n)) == s.(phase := Handle(s.phase.todo, s.phase.tries + n))
    decreases n
  {
    if n > 0 {
      FailuresRun(Apply(s, Try(false)), n - 1);
      Cons(s, Try(false), Failures(n - 1));
    }
  }

  /** A message whose last of `calls` attempts succeeds. */
  lemma RetrySucceeds(s: State, calls: nat)
    requires s.phase.Handle? && s.phase.todo != [] && s.phase.tries == 0 && 0 < calls <= MAX_RETRIES
    ensures var es := Failures(calls - 1) + [Try(true)];
      && Run(s, es)
      && Exec(s, es) == s.(processed := s.processed + [s.phase.todo[0]], phase := Handle(s.phase.todo[1..], 0))
  {
    FailuresRun(s, calls - 1);
    Extend(s, Failures(calls - 1), Try(true));
  }

  /** A message all of whose attempts fail. */
  lemma RetryExhausts(s: State, delivered: bool)
    requires s.phase.Handle? && s.phase.todo != [] && s.phase.tries == 0
    requires delivered ==> s.broker.Holds(s.phase.todo[0]) && Routable(s.broker.Fetch(s.phase.todo[0]))
    ensures var es := Failures(MAX_RETRIES) + [Send(delivered)];
      && Run(s, es)
      && Exec(s, es) ==
         s.(attempts := s.attempts + [Attempt(s.phase.todo[0], delivered)], phase := Handle(s.phase.todo[1..], 0))
  {
    FailuresRun(s, MAX_RETRIES);
    Extend(s, Failures(MAX_RETRIES), Send(delivered));
  }

  lemma {:induction false} RunConcat(s: State, a: seq<Event>, b: seq<Event>)
    requires Run(s, a) && Run(Exec(s, a), b)
    ensures Run(s, a + b) && Exec(s, a + b) == Exec(Exec(s, a), b)
    decreases |a|
  {
    if a == [] {
      assert a + b == b;
    } else {
      assert (a + b)[1..] == a[1..] + b;
      RunConcat(Apply(s, a[0]), a[1..], b);
    }
  }

  lemma Extend(s: State, run: seq<Event>, e: Event)
    requires Run(s, run) && Enabled(Exec(s, run), e)
    ensures Run(s, run + [e]) && Exec(s, run + [e]) == Apply(Exec(s, run), e)
  {
    assert [e][1..] == [];
    RunConcat(s, run, [e]);
  }

  // --------------------------------------------------- what outcomes make of a poll

  /** Some attempt succeeds. */
  ghost predicate Succeeds(outcomes: nat -> bool) {
    exists i :: 0 <= i < MAX_RETRIES && outcomes(i)
  }

  /** The outcomes of a poll: of the attempts on each message, of its dead-letter send, whether a
      signal arrives after the i-th message, and of the commit. */
  datatype Outcomes = Outcomes(tries: Loc -> nat -> bool, refuses: Loc -> bool, signals: nat -> bool, commit: Fault)

  /** The state after the message at the head, the i-th of the poll. */
  ghost function Handled(s: State, i: nat, o: Outcomes): State
    requires s.phase.Handle? && s.phase.todo != []
  {
    var l := s.phase.todo[0];
    var t := s.(phase := Handle(s.phase.todo[1..], 0), running := s.running && !o.signals(i));
    if Succeeds(o.tries(l)) then t.(processed := s.processed + [l])
    else t.(attempts := s.attempts + [Attempt(l, !o.refuses(l) && s.broker.Holds(l) && Routable(s.broker.Fetch(l)))])
  }

  /** The state after all messages left of the poll. */
  ghost function AllHandled(s: State, i: nat, o: Outcomes): State
    decreases if s.phase.Handle? then |s.phase.todo| else 0
  {
    if s.phase.Handle? && s.phase.todo != [] then AllHandled(Handled(s, i, o), i + 1, o) else s
  }

  function CommitEvent(fault: Fault): Event {
    if fault.Fine? then CommitOk else CommitFail(fault.After?)
  }

  /** The state after one turn of the loop. */
  ghost function PollResult(s: State, fetch: seq<Batch>, o: Outcomes): State
    requires s.phase.Idle? && s.running && s.broker.CanFetch(fetch)
  {
    var polled := Apply(s, Poll(fetch));
    if fetch == [] then polled
    else
      var t := AllHandled(polled, 0, o);
      if t.phase == Handle([], 0) then Apply(t, CommitEvent(o.commit)) else t
  }

  /** `done` with the messages of a queue that are processed, and `sent` with the sends for the
      others, in order. */
  ghost function Successes(done: seq<Loc>, queue: seq<Loc>, o: Outcomes): seq<Loc>
    decreases |queue|
  {
    if queue == [] then done
    else Successes(if Succeeds(o.tries(queue[0])) then done + [queue[0]] else done, queue[1..], o)
  }

  ghost function Sends(b: Broker, sent: seq<Attempt>, queue: seq<Loc>, o: Outcomes): seq<Attempt>
    decreases |queue|
  {
    if queue == [] then sent
    else
      var l := queue[0];
      Sends(b, if Succeeds(o.tries(l)) then sent
               else sent + [Attempt(l, !o.refuses(l) && b.Holds(l) && Routable(b.Fetch(l)))], queue[1..], o)
  }

  /** Every message of a poll is processed or sent, each once and in order. */
  lemma {:induction false} AllHandledIs(s: State, i: nat, o: Outcomes)
    requires s.phase.Handle? && (s.phase.todo == [] ==> s.phase.tries == 0)
    ensures var t := AllHandled(s, i, o);
      && t.processed == Successes(s.processed, s.phase.todo, o)
      && t.attempts == Sends(s.broker, s.attempts, s.phase.todo, o)
      && t.phase == Handle([], 0) && t.broker == s.broker
    decreases |s.phase.todo|
  {
    if s.phase.todo != [] {
      AllHandledIs(Handled(s, i, o), i + 1, o);
    }
  }

  /** One turn of the loop, for all outcomes: what was processed, sent and committed. */
  lemma PollAccounts(s: State, fetch: seq<Batch>, o: Outcomes)
    requires s.phase.Idle? && s.running && s.broker.CanFetch(fetch)
    ensures var t := PollResult(s, fetch, o);
      && t.phase.Idle?
      && t.processed == Successes(s.processed, Queue(fetch), o)
      && t.attempts == Sends(s.broker.Advance(fetch), s.attempts, Queue(fetch), o)
      && t.broker == (if fetch == [] || o.commit.Before? then s.broker.Advance(fetch) else s.broker.Advance(fetch).Commit())
  {
    if fetch != [] {
      var polled := Apply(s, Poll(fetch));
      AllHandledIs(polled, 0, o);
    }
  }

  lemma FirstOf(outcomes: nat -> bool) returns (first: nat)
    requires Succeeds(outcomes)
    ensures FirstSuccess(outcomes, MAX_RETRIES, first)
  {
    first := 0;
    while !outcomes(first)
      invariant first < MAX_RETRIES && forall i: nat :: i < first ==> !outcomes(i)
      decreases MAX_RETRIES - first
    {
      first := first + 1;
    }
  }

  /** The retries of one message, its dead-lettering, and a signal: a run of the machine. */
  lemma HandledIsRun(s: State, i: nat, o: Outcomes) returns (run: seq<Event>)
    requires s.phase.Handle? && s.phase.todo != [] && s.phase.tries == 0
    ensures Run(s, run) && Exec(s, run) == Handled(s, i, o)
  {
    var l := s.phase.todo[0];
    if Succeeds(o.tries(l)) {
      var first := FirstOf(o.tries(l));
      RetrySucceeds(s, first + 1);
      run := Failures(first) + [Try(true)];
    } else {
      var delivered := !o.refuses(l) && s.broker.Holds(l) && Routable(s.broker.Fetch(l));
      RetryExhausts(s, delivered);
      run := Failures(MAX_RETRIES) + [Send(delivered)];
    }
    if o.signals(i) {
      Extend(s, run, Signal);
      run := run + [Signal];
    }
  }

  lemma {:induction false} AllHandledIsRun(s: State, i: nat, o: Outcomes) returns (run: seq<Event>)
    requires s.phase.Handle? && s.phase.tries == 0
    ensures Run(s, run) && Exec(s, run) == AllHandled(s, i, o) && AllHandled(s, i, o).phase == Handle([], 0)
    decreases |s.phase.todo|
  {
    run := [];
    if s.phase.todo != [] {
      run := HandledIsRun(s, i, o);
      var rest := AllHandledIsRun(Handled(s, i, o), i + 1, o);
      RunConcat(s, run, rest);
      run := run + rest;
    }
  }

  /** One turn of the loop, for all outcomes, is a run of the machine. */
  lemma PollIsRun(s: State, fetch: seq<Batch>, o: Outcomes) returns (run: seq<Event>)
    requires s.phase.Idle? && s.running && s.broker.CanFetch(fetch)
    ensures Run(s, run) && Exec(s, run) == PollResult(s, fetch, o)
    ensures run != [] && run[0] == Poll(fetch)
    ensures fetch != [] ==> run[|run| - 1].CommitOk? || run[|run| - 1].CommitFail?
  {
    Extend(s, [], Poll(fetch));
    run := [] + [Poll(fetch)];
    if fetch != [] {
      var rest := AllHandledIsRun(Apply(s, Poll(fetch)), 0, o);
      RunConcat(s, run, rest);
      Extend(s, run + rest, CommitEvent(o.commit));
      run := run + rest + [CommitEvent(o.commit)];
    }
  }

  // ------------------------------------------------------------------------- the code

  class Consumer {
    var broker: Broker
    var running: bool
    var processed: seq<Loc>
    var attempts: seq<Attempt>

    constructor (broker: Broker)
      ensures this.broker == broker && running && processed == [] && attempts == []
    {
      this.broker, running, processed, attempts := broker, true, [], [];
    }

    ghost function View(phase: Phase): State
      reads this
    {
      State(broker, running, phase, processed, attempts)
    }

    method HandleShutdownSignal()
      modifies this`running
      ensures View(Idle) == Apply(old(View(Idle)), Signal)
    {
      running := false;
    }

    /** One message: its retries, and its dead-lettering if all of them fail. */
    method HandleMessage(l: Loc, tries: nat -> bool, refused: bool) returns (calls: nat)
      requires broker.Holds(l)
      modifies this`processed, this`attempts
      ensures processed == if Succeeds(tries) then old(processed) + [l] else old(processed)
      ensures attempts == if Succeeds(tries) then old(attempts)
                          else old(attempts) + [Attempt(l, !refused && Routable(broker.Fetch(l)))]
      ensures if Succeeds(tries) then calls > 0 && FirstSuccess(tries, MAX_RETRIES, calls - 1) else calls == MAX_RETRIES
    {
      var slept, sends;
      calls, slept, sends := RunWithRetry(tries, MAX_RETRIES);
      if sends == 0 {
        processed := processed + [l];
      } else {
        attempts := attempts + [Attempt(l, Routable(broker.Fetch(l)) && !refused)];
      }
    }

    /** `commit()`, which may raise before or after taking effect. */
    method CommitOffsets(fault: Fault)
      modifies this`broker
      ensures broker == if fault.Before? then old(broker) else old(broker).Commit()
      ensures View(Idle) == Apply(old(View(Handle([], 0))), CommitEvent(fault))
    {
      if !fault.Before? {
        broker := broker.Commit();
      }
    }

    /** The messages of a poll. */
    method HandleAll(queue: seq<Loc>, o: Outcomes)
      requires forall l :: l in queue ==> broker.Holds(l)
      modifies this`processed, this`attempts, this`running
      ensures View(Handle([], 0)) == AllHandled(old(View(Handle(queue, 0))), 0, o)
    {
      ghost var s := View(Handle(queue, 0));
      var i := 0;
      assert queue[0..] == queue;
      while i < |queue|
        invariant i <= |queue| && broker == s.broker
        invariant AllHandled(s, 0, o) == AllHandled(View(Handle(queue[i..], 0)), i, o)
      {
        assert queue[i..] == [queue[i]] + queue[i + 1..];
        var calls := HandleMessage(queue[i], o.tries(queue[i]), o.refuses(queue[i]));
        if o.signals(i) {
          HandleShutdownSignal();
        }
        i := i + 1;
      }
      assert queue[i..] == [];
    }

    /** One turn of the loop: a run of the machine. Every message of the poll is processed, if
        one of its attempts succeeds, and else sent, each once and in order, whether or not a
        signal arrives; and then the poll is committed, if that call works. */
    method PollOnce(fetch: seq<Batch>, o: Outcomes) returns (ghost run: seq<Event>)
      requires running && broker.Valid() && broker.CanFetch(fetch)
      modifies this
      ensures View(Idle) == PollResult(old(View(Idle)), fetch, o)
      ensures processed == Successes(old(processed), Queue(fetch), o)
      ensures attempts == Sends(old(broker).Advance(fetch), old(attempts), Queue(fetch), o)
      ensures broker == (if fetch == [] || o.commit.Before? then old(broker).Advance(fetch)
                         else old(broker).Advance(fetch).Commit())
      ensures Run(old(View(Idle)), run) && Exec(old(View(Idle)), run) == View(Idle)
      ensures run != [] && run[0] == Poll(fetch)
      ensures fetch != [] ==> run[|run| - 1].CommitOk? || run[|run| - 1].CommitFail?
    {
      run := PollIsRun(View(Idle), fetch, o);
      PollAccounts(View(Idle), fetch, o);
      QueueHeld(broker, fetch);
      broker := broker.Advance(fetch);
      if fetch == [] { return; }
      HandleAll(Queue(fetch), o);
      CommitOffsets(o.commit);
    }
  }

  lemma QueueHeld(b: Broker, fetch: seq<Batch>)
    requires b.Valid() && b.CanFetch(fetch)
    ensures forall l :: l in Queue(fetch) ==> b.Advance(fetch).Holds(l)
  {
    AdvancePolls(b, fetch);
    QueueIsFetch(fetch);
    forall l | l in Queue(fetch)
      ensures b.Advance(fetch).Holds(l)
    {
      assert b.Advance(fetch).Polled(l);
    }
  }
}
