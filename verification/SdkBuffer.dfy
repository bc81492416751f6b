/** The SDK's buffered handler as threads see it: emitters, explicit flushes, close, and the
    background flusher, interleaved between any two shared accesses. */
module SdkBuffer {
  import opened Wrappers

  type Entry = int

  datatype Config = Config(asyncMode: bool, batchSize: int, maxBuffer: int)

  /** Who called `flush`: a user, `close` or the exit handler, or the background loop. */
  datatype Caller = User | Closer | Loop

  /** A thread's next shared access. */
  datatype Pc =
    | Out                       // not inside the handler
    | EmitLock(e: Entry)        // with self._lock
    | EmitCheck(e: Entry)       // if self._closed
    | EmitRoom(e: Entry)        // if len(self._buffer) >= self._max_buffer_size
    | EmitAppend(e: Entry)      // self._buffer.append(event)
    | EmitNotify                // swap, or self._flush_event.set()
    | EmitUnlock
    | FlushLock(c: Caller)
    | FlushSwap(c: Caller)
    | FlushUnlock(c: Caller)
    | CloseMark                 // self._closed = True, outside the lock
    | LoopTest                  // while not self._closed
    | LoopWait                  // self._flush_event.wait(flush_interval)
    | LoopClear                 // self._flush_event.clear()
    | Exited

  datatype Op = Emit(e: Entry) | Flush | Close

  datatype Event = Call(t: nat, op: Op) | Step(t: nat)

  /** `accepted` lists every entry ever appended and `batches` every swapped-out buffer, in
      order; `sealed` records that a closing flush has run its critical section. */
  datatype State = State(buffer: seq<Entry>, closed: bool, flag: bool, lock: Option<nat>, pcs: seq<Pc>,
                         accepted: seq<Entry>, batches: seq<seq<Entry>>, sealed: bool)

  predicate NeedsLock(pc: Pc) {
    pc.EmitLock? || pc.FlushLock?
  }

  /** Between acquiring and releasing the lock. */
  predicate Critical(pc: Pc) {
    pc.EmitCheck? || pc.EmitRoom? || pc.EmitAppend? || pc.EmitNotify? || pc.EmitUnlock? || pc.FlushSwap? || pc.FlushUnlock?
  }

  predicate Enabled(s: State, e: Event) {
    match e
    case Call(t, op) => t < |s.pcs| && s.pcs[t].Out?
    case Step(t) =>
      t < |s.pcs| && !s.pcs[t].Out? && !s.pcs[t].Exited? && (NeedsLock(s.pcs[t]) ==> s.lock.None?)
  }

  /** Where a thread goes after one access. */
  function PcAfter(k: Config, s: State, pc: Pc): Pc {
    match pc
    case Out => Out
    case EmitLock(x) => EmitCheck(x)
    case EmitCheck(x) => if s.closed then EmitUnlock else EmitRoom(x)
    case EmitRoom(x) => if |s.buffer| >= k.maxBuffer then EmitUnlock else EmitAppend(x)
    case EmitAppend(x) => EmitNotify
    case EmitNotify => EmitUnlock
    case EmitUnlock => Out
    case FlushLock(c) => FlushSwap(c)
    case FlushSwap(c) => FlushUnlock(c)
    case FlushUnlock(c) => if c == Loop then LoopTest else Out
    case CloseMark => FlushLock(Closer)
    case LoopTest => if s.closed then Exited else LoopWait
    case LoopWait => LoopClear  // signalled or timed out
    case LoopClear => FlushLock(Loop)
    case Exited => Exited
  }

  /** The access swaps the buffer out for sending. */
  predicate Swaps(k: Config, s: State, pc: Pc) {
    (pc.EmitNotify? && !k.asyncMode) || (pc.FlushSwap? && s.buffer != [])
  }

  function FlagAfter(k: Config, s: State, pc: Pc): bool {
    if pc.EmitNotify? && k.asyncMode && |s.buffer| >= k.batchSize then true
    else if pc.LoopClear? then false
    else s.flag
  }

  function LockAfter(s: State, t: nat, pc: Pc): Option<nat> {
    if NeedsLock(pc) then Some(t) else if pc.EmitUnlock? || pc.FlushUnlock? then None else s.lock
  }

  function StepOf(k: Config, s: State, t: nat, pc: Pc): State
    requires t < |s.pcs|
  {
    State(if pc.EmitAppend? then s.buffer + [pc.e] else if Swaps(k, s, pc) then [] else s.buffer,
          s.closed || pc.CloseMark?,
          FlagAfter(k, s, pc),
          LockAfter(s, t, pc),
          s.pcs[t := PcAfter(k, s, pc)],
          if pc.EmitAppend? then s.accepted + [pc.e] else s.accepted,
          if Swaps(k, s, pc) then s.batches + [s.buffer] else s.batches,
          s.sealed || pc == FlushSwap(Closer))
  }

  function Entering(op: Op): Pc {
    match op
    case Emit(x) => EmitLock(x)
    case Flush => FlushLock(User)
    case Close => CloseMark
  }

  function Apply(k: Config, s: State, e: Event): State
    requires Enabled(s, e)
  {
    match e
    case Call(t, op) => s.(pcs := s.pcs[t := Entering(op)])
    case Step(t) => StepOf(k, s, t, s.pcs[t])
  }

  ghost predicate Run(k: Config, s: State, es: seq<Event>)
    decreases |es|
  {
    es != [] ==> Enabled(s, es[0]) && Run(k, Apply(k, s, es[0]), es[1..])
  }

  ghost function Exec(k: Config, s: State, es: seq<Event>): State
    requires Run(k, s, es)
    decreases |es|
  {
    if es == [] then s else Exec(k, Apply(k, s, es[0]), es[1..])
  }

  /** Thread 0 is the background flusher in async mode; the others are the application's. */
  function Initial(k: Config, threads: nat): State {
    State([], false, false, None,
          seq(threads, (t: nat) => if t == 0 && k.asyncMode then LoopTest else Out), [], [], false)
  }

  // ------------------------------------------------------------------ invariants

  function Flatten(batches: seq<seq<Entry>>): seq<Entry> {
    if batches == [] then [] else Flatten(batches[..|batches| - 1]) + batches[|batches| - 1]
  }

  predicate OfLoop(pc: Pc) {
    match pc
    case FlushLock(c) => c == Loop
    case FlushSwap(c) => c == Loop
    case FlushUnlock(c) => c == Loop
    case _ => pc.LoopTest? || pc.LoopWait? || pc.LoopClear? || pc.Exited?
  }

  predicate OfCloser(pc: Pc) {
    match pc
    case FlushLock(c) => c == Closer
    case FlushSwap(c) => c == Closer
    case FlushUnlock(c) => c == Closer
    case _ => false
  }

  /** The flusher is past its wait and before its swap. */
  predicate FlushComing(pc: Pc) {
    pc.LoopClear? || pc == FlushLock(Loop) || pc == FlushSwap(Loop)
  }

  /** The lock is held exactly by the one thread in a critical section. */
  ghost predicate Mutex(s: State) {
    forall t: nat :: t < |s.pcs| ==> (Critical(s.pcs[t]) <==> s.lock == Some(t))
  }

  ghost predicate Roles(k: Config, s: State) {
    && (forall t: nat :: t < |s.pcs| ==> (OfLoop(s.pcs[t]) <==> t == 0 && k.asyncMode))
    && (forall t: nat :: t < |s.pcs| && OfCloser(s.pcs[t]) ==> s.closed)
  }

  ghost predicate Conserved(s: State) {
    s.accepted == Flatten(s.batches) + s.buffer
  }

  ghost predicate Bounded(k: Config, s: State) {
    && |s.buffer| <= (if k.maxBuffer > 0 then k.maxBuffer else 0)
    && (forall t: nat :: t < |s.pcs| && s.pcs[t].EmitAppend? ==> |s.buffer| < k.maxBuffer)
  }

  /** A full batch is never forgotten: someone is about to signal, has signalled, or flushes. */
  ghost predicate WillWake(k: Config, s: State) {
    k.asyncMode && |s.pcs| > 0 && |s.buffer| >= k.batchSize >= 1 ==>
      || s.flag
      || FlushComing(s.pcs[0])
      || exists t: nat :: t < |s.pcs| && s.pcs[t].EmitNotify?
  }

  /** After a closing flush nothing is buffered and no emitter is past its closed test. */
  ghost predicate SealedOk(s: State) {
    s.sealed ==>
      && s.closed && s.buffer == []
      && forall t: nat :: t < |s.pcs| ==> !s.pcs[t].EmitRoom? && !s.pcs[t].EmitAppend? && !s.pcs[t].EmitNotify?
  }

  /** The flusher leaves its loop only when the handler is closed. */
  ghost predicate ExitedOk(s: State) {
    forall t: nat :: t < |s.pcs| && s.pcs[t].Exited? ==> s.closed
  }

  /** Without the flusher, what an emit appends it takes out at once. */
  ghost predicate SyncEmpty(k: Config, s: State) {
    !k.asyncMode && s.buffer != [] ==> exists t: nat :: t < |s.pcs| && s.pcs[t].EmitNotify?
  }

  ghost predicate Inv(k: Config, s: State) {
    && Mutex(s) && Roles(k, s) && Conserved(s) && Bounded(k, s) && WillWake(k, s) && SealedOk(s)
    && ExitedOk(s) && SyncEmpty(k, s)
  }

  lemma OthersStay(k: Config, s: State, e: Event)
    requires Enabled(s, e)
    ensures |Apply(k, s, e).pcs| == |s.pcs|
    ensures forall t: nat :: t < |s.pcs| && t != e.t ==> Apply(k, s, e).pcs[t] == s.pcs[t]
  {}

  lemma StepKeepsMutex(k: Config, s: State, e: Event)
    requires Mutex(s) && Enabled(s, e)
    ensures Mutex(Apply(k, s, e))
  {}

  lemma StepKeepsRoles(k: Config, s: State, e: Event)
    requires Roles(k, s) && Enabled(s, e)
    ensures Roles(k, Apply(k, s, e))
  {}

  lemma StepConserves(k: Config, s: State, e: Event)
    requires Conserved(s) && Enabled(s, e)
    ensures Conserved(Apply(k, s, e))
  {}

  lemma StepKeepsBound(k: Config, s: State, e: Event)
    requires Mutex(s) && Bounded(k, s) && Enabled(s, e)
    ensures Bounded(k, Apply(k, s, e))
  {}

  lemma StepKeepsWake(k: Config, s: State, e: Event)
    requires Mutex(s) && Roles(k, s) && WillWake(k, s) && Enabled(s, e)
    ensures WillWake(k, Apply(k, s, e))
  {
    OthersStay(k, s, e);
    var u := Apply(k, s, e);
    if t: nat :| t < |s.pcs| && s.pcs[t].EmitNotify? && t != e.t {
      assert u.pcs[t].EmitNotify?;
    }
    if e.Step? && u.pcs[e.t].EmitNotify? {}
  }

  lemma StepKeepsSeal(k: Config, s: State, e: Event)
    requires Mutex(s) && Roles(k, s) && SealedOk(s) && Enabled(s, e)
    ensures SealedOk(Apply(k, s, e))
  {}

  lemma StepKeepsExited(k: Config, s: State, e: Event)
    requires ExitedOk(s) && Enabled(s, e)
    ensures ExitedOk(Apply(k, s, e))
  {
    OthersStay(k, s, e);
  }

  lemma StepKeepsSync(k: Config, s: State, e: Event)
    requires Mutex(s) && SyncEmpty(k, s) && Enabled(s, e)
    ensures SyncEmpty(k, Apply(k, s, e))
  {
    OthersStay(k, s, e);
    var u := Apply(k, s, e);
    if t: nat :| t < |s.pcs| && s.pcs[t].EmitNotify? && t != e.t {
      assert u.pcs[t].EmitNotify?;
    }
    if e.Step? && u.pcs[e.t].EmitNotify? {}
  }

  lemma StepKeepsInv(k: Config, s: State, e: Event)
    requires Inv(k, s) && Enabled(s, e)
    ensures Inv(k, Apply(k, s, e))
  {
    StepKeepsMutex(k, s, e);
    StepKeepsRoles(k, s, e);
    StepConserves(k, s, e);
    StepKeepsBound(k, s, e);
    StepKeepsWake(k, s, e);
    StepKeepsSeal(k, s, e);
    StepKeepsExited(k, s, e);
    StepKeepsSync(k, s, e);
  }

  lemma {:induction false} RunKeepsInv(k: Config, s: State, es: seq<Event>)
    requires Inv(k, s) && Run(k, s, es)
    ensures Inv(k, Exec(k, s, es))
    decreases |es|
  {
    if es != [] {
      StepKeepsInv(k, s, es[0]);
      RunKeepsInv(k, Apply(k, s, es[0]), es[1..]);
    }
  }

  lemma InitialInv(k: Config, threads: nat)
    ensures Inv(k, Initial(k, threads))
  {}

  // -------------------------------------------------------------------- theorems

  /** Conservation: in every interleaving the accepted entries, in order, are the batches in
      swap order followed by the buffer, and the buffer never exceeds its maximum. */
  lemma BufferConserves(k: Config, threads: nat, es: seq<Event>)
    requires Run(k, Initial(k, threads), es)
    ensures var s := Exec(k, Initial(k, threads), es);
      && s.accepted == Flatten(s.batches) + s.buffer
      && |s.buffer| <= (if k.maxBuffer > 0 then k.maxBuffer else 0)
  {
    InitialInv(k, threads);
    RunKeepsInv(k, Initial(k, threads), es);
  }

  /** No lost wake-up: whenever the lock is free and the buffer holds a full batch, the event
      is set or the flusher is between its wait and its swap. */
  lemma NoLostWakeUp(k: Config, threads: nat, es: seq<Event>)
    requires k.batchSize >= 1 && k.asyncMode && threads > 0 && Run(k, Initial(k, threads), es)
    ensures var s := Exec(k, Initial(k, threads), es);
      |s.pcs| == threads && (s.lock.None? && |s.buffer| >= k.batchSize ==> s.flag || FlushComing(s.pcs[0]))
  {
    InitialInv(k, threads);
    RunKeepsInv(k, Initial(k, threads), es);
    RunKeepsThreads(k, Initial(k, threads), es);
  }

  lemma {:induction false} RunKeepsThreads(k: Config, s: State, es: seq<Event>)
    requires Run(k, s, es)
    ensures |Exec(k, s, es).pcs| == |s.pcs|
    decreases |es|
  {
    if es != [] {
      OthersStay(k, s, es[0]);
      RunKeepsThreads(k, Apply(k, s, es[0]), es[1..]);
    }
  }

  lemma SealedStep(k: Config, s: State, e: Event)
    requires SealedOk(s) && s.sealed && Enabled(s, e)
    ensures var u := Apply(k, s, e);
      u.sealed && u.batches == s.batches && u.accepted == s.accepted
  {}

  /** Shutdown: once a closing flush has run its critical section, the buffer stays empty
      forever, nothing more is accepted, and every entry ever accepted is in a batch,
      although `_closed` is set without holding the lock. */
  lemma {:induction false} SealedForever(k: Config, s: State, es: seq<Event>)
    requires Inv(k, s) && s.sealed && Run(k, s, es)
    ensures var t := Exec(k, s, es);
      && t.sealed && t.buffer == []
      && t.accepted == s.accepted == Flatten(t.batches)
      && t.batches == s.batches
    decreases |es|
  {
    if es != [] {
      StepKeepsInv(k, s, es[0]);
      SealedStep(k, s, es[0]);
      SealedForever(k, Apply(k, s, es[0]), es[1..]);
    } else {
      assert s.accepted == Flatten(s.batches) + [];
    }
  }

  /** The same for any history: split it where a closing flush swaps. */
  lemma ShutdownLosesNothing(k: Config, threads: nat, es: seq<Event>, later: seq<Event>)
    requires Run(k, Initial(k, threads), es)
    requires Exec(k, Initial(k, threads), es).sealed && Run(k, Exec(k, Initial(k, threads), es), later)
    ensures var s := Exec(k, Initial(k, threads), es);
      var t := Exec(k, s, later);
      t.buffer == [] && t.accepted == s.accepted == Flatten(t.batches)
  {
    InitialInv(k, threads);
    RunKeepsInv(k, Initial(k, threads), es);
    SealedForever(k, Exec(k, Initial(k, threads), es), later);
  }

  /** In synchronous mode nothing stays buffered: whenever the lock is free the buffer is empty. */
  lemma SyncSendsAtOnce(k: Config, threads: nat, es: seq<Event>)
    requires !k.asyncMode && Run(k, Initial(k, threads), es) && Exec(k, Initial(k, threads), es).lock.None?
    ensures var s := Exec(k, Initial(k, threads), es);
      s.buffer == [] && s.accepted == Flatten(s.batches)
  {
    InitialInv(k, threads);
    RunKeepsInv(k, Initial(k, threads), es);
    var s := Exec(k, Initial(k, threads), es);
    assert Flatten(s.batches) + [] == Flatten(s.batches);
  }

  /** The flusher's own next `n` steps. */
  function Steps(n: nat): seq<Event> {
    if n == 0 then [] else [Step(0)] + Steps(n - 1)
  }

  /** How many steps from each point of the loop to the far side of its swap. */
  function ToSwap(pc: Pc): nat {
    match pc
    case LoopTest => 5
    case LoopWait => 4
    case LoopClear => 3
    case FlushLock(_) => 2
    case _ => 1
  }

  /** What the buffer has been swapped into. */
  function SwappedOut(s: State): seq<seq<Entry>> {
    if s.buffer == [] then s.batches else s.batches + [s.buffer]
  }

  lemma {:induction false} FlusherSteps(k: Config, s: State, pc: Pc)
    requires |s.pcs| > 0 && s.pcs[0] == pc && OfLoop(pc) && !pc.Exited? && !pc.FlushUnlock?
    requires s.lock == (if pc.FlushSwap? then Some(0) else None)
    requires pc.LoopTest? ==> !s.closed
    ensures Run(k, s, Steps(ToSwap(pc)))
    ensures var t := Exec(k, s, Steps(ToSwap(pc)));
      t.buffer == [] && t.batches == SwappedOut(s) && t.accepted == s.accepted && t.pcs == s.pcs[0 := FlushUnlock(Loop)]
    decreases ToSwap(pc)
  {
    var t := Apply(k, s, Step(0));
    if pc.FlushSwap? {
      assert Steps(1) == [Step(0)] + Steps(0);
      assert [Step(0)][1..] == [];
    } else {
      FlusherSteps(k, t, PcAfter(k, s, pc));
      assert Steps(ToSwap(pc)) == [Step(0)] + Steps(ToSwap(pc) - 1);
      assert Steps(ToSwap(pc))[1..] == Steps(ToSwap(pc) - 1);
      assert t.pcs[0 := FlushUnlock(Loop)] == s.pcs[0 := FlushUnlock(Loop)];
    }
  }

  /** The wake-up takes effect: after any history, while the handler is open and the lock free,
      at most five steps of the flusher alone empty the buffer into a batch. */
  lemma FlusherFlushes(k: Config, threads: nat, es: seq<Event>) returns (n: nat)
    requires k.asyncMode && threads > 0 && Run(k, Initial(k, threads), es)
    requires !Exec(k, Initial(k, threads), es).closed && Exec(k, Initial(k, threads), es).lock.None?
    ensures n <= 5
    ensures var s := Exec(k, Initial(k, threads), es);
      && Run(k, s, Steps(n))
      && var t := Exec(k, s, Steps(n));
         t.buffer == [] && t.batches == SwappedOut(s) && t.accepted == s.accepted == Flatten(t.batches)
  {
    InitialInv(k, threads);
    RunKeepsInv(k, Initial(k, threads), es);
    RunKeepsThreads(k, Initial(k, threads), es);
    var s := Exec(k, Initial(k, threads), es);
    n := ToSwap(s.pcs[0]);
    FlusherSteps(k, s, s.pcs[0]);
    RunKeepsInv(k, s, Steps(n));
    var t := Exec(k, s, Steps(n));
    assert Flatten(t.batches) + [] == Flatten(t.batches);
  }

  /** And it ends: after any history, once closed and with the lock free, at most six steps of the
      flusher alone end it. */
  lemma FlusherEnds(k: Config, threads: nat, es: seq<Event>) returns (n: nat)
    requires k.asyncMode && threads > 0 && Run(k, Initial(k, threads), es)
    requires Exec(k, Initial(k, threads), es).closed && Exec(k, Initial(k, threads), es).lock.None?
    ensures n <= 6
    ensures var s := Exec(k, Initial(k, threads), es);
      && Run(k, s, Steps(n)) && |s.pcs| > 0 && |Exec(k, s, Steps(n)).pcs| > 0
      && Exec(k, s, Steps(n)).pcs[0].Exited?
  {
    InitialInv(k, threads);
    RunKeepsInv(k, Initial(k, threads), es);
    RunKeepsThreads(k, Initial(k, threads), es);
    var s := Exec(k, Initial(k, threads), es);
    var pc := s.pcs[0];
    if pc.Exited? {
      n := 0;
    } else {
      n := ToExit(pc);
      ExitSteps(k, s, pc);
    }
  }

  function ToExit(pc: Pc): nat {
    match pc
    case LoopTest => 1
    case LoopWait => 6
    case LoopClear => 5
    case FlushLock(_) => 4
    case FlushSwap(_) => 3
    case _ => 2
  }

  lemma {:induction false} ExitSteps(k: Config, s: State, pc: Pc)
    requires |s.pcs| > 0 && s.pcs[0] == pc && OfLoop(pc) && !pc.Exited? && s.closed
    requires s.lock == (if pc.FlushSwap? || pc.FlushUnlock? then Some(0) else None)
    ensures Run(k, s, Steps(ToExit(pc)))
    ensures var t := Exec(k, s, Steps(ToExit(pc))); |t.pcs| > 0 && t.pcs[0].Exited?
    decreases ToExit(pc)
  {
    var n := ToExit(pc);
    assert Steps(n) == [Step(0)] + Steps(n - 1) && Steps(n)[1..] == Steps(n - 1);
    if n > 1 {
      ExitSteps(k, Apply(k, s, Step(0)), PcAfter(k, s, pc));
    } else {
      assert Steps(0) == [];
    }
  }

  // ------------------------------------------------------------ the handler's code

  lemma {:induction false} RunConcat(k: Config, s: State, a: seq<Event>, b: seq<Event>)
    requires Run(k, s, a) && Run(k, Exec(k, s, a), b)
    ensures Run(k, s, a + b) && Exec(k, s, a + b) == Exec(k, Exec(k, s, a), b)
    decreases |a|
  {
    if a == [] {
      assert a + b == b;
    } else {
      assert (a + b)[1..] == a[1..] + b;
      RunConcat(k, Apply(k, s, a[0]), a[1..], b);
    }
  }

  lemma Extend(k: Config, s: State, run: seq<Event>, e: Event)
    requires Run(k, s, run) && Enabled(Exec(k, s, run), e)
    ensures Run(k, s, run + [e]) && Exec(k, s, run + [e]) == Apply(k, Exec(k, s, run), e)
  {
    assert [e][1..] == [];
    RunConcat(k, s, run, [e]);
  }

  lemma ThreeEvents(k: Config, s: State, a: Event, b: Event, c: Event)
    requires Enabled(s, a) && Enabled(Apply(k, s, a), b) && Enabled(Apply(k, Apply(k, s, a), b), c)
    ensures Run(k, s, [a, b, c])
    ensures Exec(k, s, [a, b, c]) == Apply(k, Apply(k, Apply(k, s, a), b), c)
  {
    Extend(k, s, [], a);
    Extend(k, s, [] + [a], b);
    Extend(k, s, [] + [a] + [b], c);
    assert [] + [a] + [b] + [c] == [a, b, c];
  }

  /** Into `emit`, up to its closed test. */
  lemma EmitEnters(k: Config, s: State, t: nat, x: Entry)
    requires t < |s.pcs| && s.pcs[t].Out? && s.lock.None?
    ensures var es := [Call(t, Emit(x)), Step(t), Step(t)];
      Run(k, s, es) &&
      Exec(k, s, es) == s.(lock := Some(t), pcs := s.pcs[t := if s.closed then EmitUnlock else EmitRoom(x)])
  {
    var s1 := Apply(k, s, Call(t, Emit(x)));
    assert s1 == s.(pcs := s.pcs[t := EmitLock(x)]);
    var s2 := Apply(k, s1, Step(t));
    assert s2 == s.(lock := Some(t), pcs := s.pcs[t := EmitCheck(x)]);
    ThreeEvents(k, s, Call(t, Emit(x)), Step(t), Step(t));
  }

  /** From room in the buffer to the end of `emit`'s critical section. */
  lemma EmitAppends(k: Config, s: State, t: nat, x: Entry)
    requires t < |s.pcs| && s.pcs[t] == EmitRoom(x) && |s.buffer| < k.maxBuffer
    ensures var es := [Step(t), Step(t), Step(t)];
      var buffer := s.buffer + [x];
      && Run(k, s, es)
      && Exec(k, s, es) ==
         s.(buffer := if k.asyncMode then buffer else [],
            batches := if k.asyncMode then s.batches else s.batches + [buffer],
            flag := s.flag || (k.asyncMode && |buffer| >= k.batchSize),
            accepted := s.accepted + [x], pcs := s.pcs[t := EmitUnlock])
  {
    var s1 := Apply(k, s, Step(t));
    assert s1 == s.(pcs := s.pcs[t := EmitAppend(x)]);
    var s2 := Apply(k, s1, Step(t));
    assert s2 == s.(buffer := s.buffer + [x], accepted := s.accepted + [x], pcs := s.pcs[t := EmitNotify]);
    ThreeEvents(k, s, Step(t), Step(t), Step(t));
  }

  /** What `emit` leaves when no other thread interferes. */
  function Emitted(k: Config, s: State, x: Entry): State {
    var buffer := s.buffer + [x];
    if s.closed || |s.buffer| >= k.maxBuffer then s
    else if !k.asyncMode then
      s.(buffer := [], batches := s.batches + [buffer], accepted := s.accepted + [x])
    else
      s.(buffer := buffer, flag := s.flag || |buffer| >= k.batchSize, accepted := s.accepted + [x])
  }

  /** From the closed test of `emit` to the end of its critical section. */
  lemma EmitCompletes(k: Config, s: State, t: nat, x: Entry, inside: State) returns (run: seq<Event>)
    requires t < |s.pcs| && s.pcs[t].Out? && s.lock.None?
    requires inside == s.(lock := Some(t), pcs := s.pcs[t := if s.closed then EmitUnlock else EmitRoom(x)])
    ensures Run(k, inside, run)
    ensures Exec(k, inside, run) == Emitted(k, s, x).(lock := Some(t), pcs := s.pcs[t := EmitUnlock])
  {
    run := [];
    if !s.closed {
      if |s.buffer| < k.maxBuffer {
        EmitAppends(k, inside, t, x);
        run := [Step(t), Step(t), Step(t)];
      } else {
        Extend(k, inside, [], Step(t));
        run := [] + [Step(t)];
      }
    }
  }

  /** `emit` as a whole. */
  lemma EmitRuns(k: Config, s: State, t: nat, x: Entry) returns (run: seq<Event>)
    requires t < |s.pcs| && s.pcs[t].Out? && s.lock.None?
    ensures Run(k, s, run) && run != [] && run[0] == Call(t, Emit(x))
    ensures Exec(k, s, run) == Emitted(k, s, x)
  {
    var enter := [Call(t, Emit(x)), Step(t), Step(t)];
    EmitEnters(k, s, t, x);
    var rest := EmitCompletes(k, s, t, x, Exec(k, s, enter));
    RunConcat(k, s, enter, rest);
    Extend(k, s, enter + rest, Step(t));
    run := enter + rest + [Step(t)];
    assert s.pcs[t := EmitUnlock][t := Out] == s.pcs;
  }

  /** `flush` as a whole. */
  lemma FlushRuns(k: Config, s: State, t: nat, c: Caller)
    requires t < |s.pcs| && s.pcs[t] == FlushLock(c) && s.lock.None?
    ensures var es := [Step(t), Step(t), Step(t)];
      && Run(k, s, es)
      && Exec(k, s, es) ==
         s.(buffer := [], batches := if s.buffer == [] then s.batches else s.batches + [s.buffer],
            sealed := s.sealed || c == Closer, pcs := s.pcs[t := if c == Loop then LoopTest else Out])
  {
    var s1 := Apply(k, s, Step(t));
    assert s1 == s.(lock := Some(t), pcs := s.pcs[t := FlushSwap(c)]);
    var s2 := Apply(k, s1, Step(t));
    assert s2.pcs == s.pcs[t := FlushUnlock(c)];
    ThreeEvents(k, s, Step(t), Step(t), Step(t));
  }

  /** `LogFoundryHandler`, called by thread `t` while the other threads stand still: each
      method performs a run of the machine from one idle point of the thread to the next. */
  class LogFoundryHandler {
    const k: Config
    var buffer: seq<Entry>
    var closed: bool
    var flag: bool
    ghost var accepted: seq<Entry>
    ghost var batches: seq<seq<Entry>>
    ghost var sealed: bool

    constructor (k: Config)
      ensures this.k == k
      ensures forall n: nat :: View(Initial(k, n).pcs, None) == Initial(k, n)
    {
      this.k, buffer, closed, flag := k, [], false, false;
      accepted, batches, sealed := [], [], false;
    }

    ghost function View(pcs: seq<Pc>, lock: Option<nat>): State
      reads this
    {
      State(buffer, closed, flag, lock, pcs, accepted, batches, sealed)
    }

    /** The part of `emit` that touches shared state; the result is what it then sends. */
    method EmitEntry(x: Entry, ghost t: nat, ghost pcs: seq<Pc>) returns (toSend: seq<Entry>, ghost run: seq<Event>)
      requires t < |pcs| && pcs[t].Out?
      modifies this`buffer, this`accepted, this`batches, this`flag
      ensures Run(k, old(View(pcs, None)), run) && Exec(k, old(View(pcs, None)), run) == View(pcs, None)
      ensures run != [] && run[0] == Call(t, Emit(x))
      ensures var takes := !old(closed) && |old(buffer)| < k.maxBuffer;
        && accepted == (if takes then old(accepted) + [x] else old(accepted))
        && toSend == (if takes && !k.asyncMode then old(buffer) + [x] else [])
        && buffer == (if !takes then old(buffer) else if k.asyncMode then old(buffer) + [x] else [])
        && (flag <==> old(flag) || (takes && k.asyncMode && |buffer| >= k.batchSize))
      ensures batches == if toSend == [] then old(batches) else old(batches) + [toSend]
    {
      run := EmitRuns(k, View(pcs, None), t, x);
      toSend := [];
      if closed { return; }
      if |buffer| >= k.maxBuffer { return; }
      buffer, accepted := buffer + [x], accepted + [x];
      if !k.asyncMode {
        toSend := buffer;
        buffer, batches := [], batches + [buffer];
      } else if |buffer| >= k.batchSize {
        flag := true;
      }
    }

    /** `flush`, from waiting for the lock to releasing it. */
    method FlushBuffer(ghost c: Caller, ghost t: nat, ghost pcs: seq<Pc>) returns (toSend: seq<Entry>, ghost run: seq<Event>)
      requires t < |pcs| && pcs[t] == FlushLock(c)
      modifies this`buffer, this`batches, this`sealed
      ensures Run(k, old(View(pcs, None)), run)
      ensures Exec(k, old(View(pcs, None)), run) == View(pcs[t := if c == Loop then LoopTest else Out], None)
      ensures toSend == old(buffer) && buffer == [] && sealed == (old(sealed) || c == Closer)
    {
      FlushRuns(k, View(pcs, None), t, c);
      run := [Step(t), Step(t), Step(t)];
      toSend := [];
      sealed := sealed || c == Closer;
      if buffer != [] {
        toSend := buffer;
        buffer, batches := [], batches + [buffer];
      }
    }

    /** `close`, and the exit handler. */
    method CloseAndFlush(ghost t: nat, ghost pcs: seq<Pc>) returns (toSend: seq<Entry>, ghost run: seq<Event>)
      requires t < |pcs| && pcs[t].Out?
      modifies this
      ensures Run(k, old(View(pcs, None)), run) && Exec(k, old(View(pcs, None)), run) == View(pcs, None)
      ensures closed && buffer == [] && sealed && toSend == old(buffer)
    {
      ghost var s := View(pcs, None);
      CloseMarks(k, s, t);
      run := [Call(t, Close), Step(t)];
      closed := true;
      ghost var tail;
      toSend, tail := FlushBuffer(Closer, t, pcs[t := FlushLock(Closer)]);
      RunConcat(k, s, run, tail);
      run := run + tail;
      assert pcs[t := FlushLock(Closer)][t := Out] == pcs;
    }

    /** `_background_flush_loop` from one test to the next, or to its end. */
    method FlushLoopOnce(ghost pcs: seq<Pc>) returns (exits: bool, toSend: seq<Entry>, ghost run: seq<Event>)
      requires 0 < |pcs| && pcs[0] == LoopTest
      modifies this`flag, this`buffer, this`batches, this`sealed
      ensures exits == closed
      ensures Run(k, old(View(pcs, None)), run)
      ensures Exec(k, old(View(pcs, None)), run) == View(pcs[0 := if exits then Exited else LoopTest], None)
      ensures if exits then toSend == [] && buffer == old(buffer) && flag == old(flag)
              else toSend == old(buffer) && buffer == [] && !flag
    {
      ghost var s := View(pcs, None);
      exits, toSend := closed, [];
      if exits {
        Extend(k, s, [], Step(0));
        run := [] + [Step(0)];
        return;
      }
      LoopWakes(k, s);
      run := [Step(0), Step(0), Step(0)];
      flag := false;
      ghost var tail;
      toSend, tail := FlushBuffer(Loop, 0, pcs[0 := FlushLock(Loop)]);
      RunConcat(k, s, run, tail);
      run := run + tail;
      assert pcs[0 := FlushLock(Loop)][0 := LoopTest] == pcs;
    }
  }

  lemma CloseMarks(k: Config, s: State, t: nat)
    requires t < |s.pcs| && s.pcs[t].Out?
    ensures var es := [Call(t, Close), Step(t)];
      Run(k, s, es) && Exec(k, s, es) == s.(closed := true, pcs := s.pcs[t := FlushLock(Closer)])
  {
    var s1 := Apply(k, s, Call(t, Close));
    assert s1 == s.(pcs := s.pcs[t := CloseMark]);
    Extend(k, s, [], Call(t, Close));
    Extend(k, s, [] + [Call(t, Close)], Step(t));
    assert [] + [Call(t, Close)] + [Step(t)] == [Call(t, Close), Step(t)];
  }

  lemma LoopWakes(k: Config, s: State)
    requires 0 < |s.pcs| && s.pcs[0] == LoopTest && !s.closed
    ensures var es := [Step(0), Step(0), Step(0)];
      Run(k, s, es) && Exec(k, s, es) == s.(flag := false, pcs := s.pcs[0 := FlushLock(Loop)])
  {
    assert Apply(k, s, Step(0)) == s.(pcs := s.pcs[0 := LoopWait]);
    assert Apply(k, Apply(k, s, Step(0)), Step(0)) == s.(pcs := s.pcs[0 := LoopClear]);
    ThreeEvents(k, s, Step(0), Step(0), Step(0));
  }
}
