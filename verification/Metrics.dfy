/** The metrics consumer's four families of counters, driven by the shared consume loop.
    Increments are not idempotent, so redelivery can only push counters up. */
module Metrics {
  import opened Wrappers
  import opened Events
  import opened Kafka
  import B = BaseConsumer

  // -------------------------------------------------------------- composite keys

  function PairKey(service: string, level: string): string {
    service + ":" + level
  }

  /** `key.split(":")` */
  function Split(s: string): (parts: seq<string>)
    ensures |parts| > 0
  {
    if s == "" then [""]
    else
      var rest := Split(s[1..]);
      if s[0] == ':' then [""] + rest else [[s[0]] + rest[0]] + rest[1..]
  }

  lemma {:induction false} SplitNoColon(s: string)
    ensures ':' !in s <==> |Split(s)| == 1
    ensures ':' !in s ==> Split(s) == [s]
  {
    if s != "" {
      SplitNoColon(s[1..]);
      assert s == [s[0]] + s[1..];
    }
  }

  lemma {:induction false} SplitPair(service: string, level: string)
    ensures |Split(PairKey(service, level))| == |Split(service)| + |Split(level)|
    ensures ':' !in service ==> Split(PairKey(service, level)) == [service] + Split(level)
  {
    var key := PairKey(service, level);
    if service == "" {
      assert key[1..] == level;
    } else {
      assert key[1..] == PairKey(service[1..], level);
      SplitPair(service[1..], level);
      assert service == [service[0]] + service[1..];
    }
  }

  /** `/metrics` shows a service-level counter, with both labels intact, exactly when
      neither label contains a colon; otherwise it silently leaves the counter out. */
  lemma PairShownExactly(service: string, level: string)
    ensures |Split(PairKey(service, level))| == 2 <==> ':' !in service && ':' !in level
    ensures |Split(PairKey(service, level))| == 2 ==> Split(PairKey(service, level)) == [service, level]
  {
    SplitPair(service, level);
    SplitNoColon(service);
    SplitNoColon(level);
  }

  lemma LongerService(s1: string, l1: string, s2: string, l2: string)
    requires PairKey(s1, l1) == PairKey(s2, l2) && |s1| < |s2|
    ensures ':' in l1
  {
    assert PairKey(s2, l2)[|s2|] == ':';
    assert PairKey(s1, l1)[|s2|] == l1[|s2| - |s1| - 1];
  }

  /** Two different pairs share a counter only if a level contains a colon. */
  lemma PairKeyInjective(s1: string, l1: string, s2: string, l2: string)
    requires ':' !in l1 && ':' !in l2
    ensures PairKey(s1, l1) == PairKey(s2, l2) <==> s1 == s2 && l1 == l2
  {
    var k1, k2 := PairKey(s1, l1), PairKey(s2, l2);
    if k1 == k2 && |s1| < |s2| {
      LongerService(s1, l1, s2, l2);
    } else if k1 == k2 && |s2| < |s1| {
      LongerService(s2, l2, s1, l1);
    } else if k1 == k2 {
      assert s1 == k1[..|s1|] && s2 == k2[..|s2|];
      assert l1 == k1[|s1| + 1..] && l2 == k2[|s2| + 1..];
    }
  }

  // ------------------------------------------------------------------- counters

  /** A hash whose fields HINCRBY moves by one is the multiset of the names incremented. */
  datatype Counters = Counters(total: nat, services: multiset<string>,
                               levels: multiset<string>, pairs: multiset<string>)

  const ZERO: Counters := Counters(0, multiset{}, multiset{}, multiset{})

  datatype Family = Total | Services | Levels | Pairs

  const ALL: set<Family> := {Total, Services, Levels, Pairs}

  datatype Labels = Labels(service: string, level: string)

  /** JSON decoding, and how the client writes a label (None where it raises). */
  datatype Library = Library(loads: string -> Option<Json>, render: Json -> Option<string>)

  function GetOr(fields: map<string, Json>, name: string, default: string): Json {
    if name in fields then fields[name] else Str(default)
  }

  /** The labels of a message, or None where `process` raises before the pipeline. */
  function LabelsOf(lib: Library, m: Message): Option<Labels> {
    match m.value
    case Some(Utf8(text)) =>
      (match lib.loads(text)
       case Some(Obj(fields)) =>
         (match (lib.render(GetOr(fields, "service", "unknown")), lib.render(GetOr(fields, "level", "UNKNOWN")))
          case (Some(service), Some(level)) => Some(Labels(service, level))
          case _ => None)
       case _ => None)
    case _ => None
  }

  /** The increments of a pipeline that took effect. */
  function Bump(c: Counters, labels: Labels, applied: set<Family>): Counters {
    Counters(if Total in applied then c.total + 1 else c.total,
             if Services in applied then c.services + multiset{labels.service} else c.services,
             if Levels in applied then c.levels + multiset{labels.level} else c.levels,
             if Pairs in applied then c.pairs + multiset{PairKey(labels.service, labels.level)} else c.pairs)
  }

  /** What one effect of the consume loop does to Redis: a successful call applied its whole
      pipeline, a failed one any part of it, and nothing if the message has no labels. */
  ghost predicate Consistent(lib: Library, s: B.State, e: B.Event, applied: set<Family>)
    requires B.Enabled(s, e)
  {
    if !e.Try? then applied == {}
    else
      && s.broker.Holds(s.phase.todo[0])
      && var labels := LabelsOf(lib, s.broker.Fetch(s.phase.todo[0]));
         (e.ok ==> labels.Some? && applied == ALL) && (labels.None? ==> applied == {})
  }

  ghost predicate ConsistentRun(lib: Library, s: B.State, es: seq<B.Event>, fx: seq<set<Family>>)
    requires B.Run(s, es) && |fx| == |es|
    decreases |es|
  {
    es != [] ==>
      Consistent(lib, s, es[0], fx[0]) && ConsistentRun(lib, B.Apply(s, es[0]), es[1..], fx[1..])
  }

  /** The effect of one event on the counters. */
  ghost function Count(lib: Library, s: B.State, e: B.Event, applied: set<Family>, c: Counters): Counters
    requires B.Enabled(s, e) && Consistent(lib, s, e, applied)
  {
    if e.Try? && LabelsOf(lib, s.broker.Fetch(s.phase.todo[0])).Some? then
      Bump(c, LabelsOf(lib, s.broker.Fetch(s.phase.todo[0])).value, applied)
    else c
  }

  ghost function Tally(lib: Library, s: B.State, es: seq<B.Event>, fx: seq<set<Family>>, c: Counters): Counters
    requires B.Run(s, es) && |fx| == |es| && ConsistentRun(lib, s, es, fx)
    decreases |es|
  {
    if es == [] then c
    else Tally(lib, B.Apply(s, es[0]), es[1..], fx[1..], Count(lib, s, es[0], fx[0], c))
  }

  /** `MetricsConsumer`, with the counters it keeps in Redis. */
  class MetricsConsumer {
    const lib: Library
    var redis: Counters

    constructor (lib: Library)
      ensures this.lib == lib && redis == ZERO
    {
      this.lib, redis := lib, ZERO;
    }

    /** `pipe.execute()`, of which the commands for `applied` take effect. */
    method Execute(labels: Labels, applied: set<Family>)
      modifies this`redis
      ensures redis == Bump(old(redis), labels, applied)
    {
      if Total in applied { redis := redis.(total := redis.total + 1); }
      if Services in applied { redis := redis.(services := redis.services + multiset{labels.service}); }
      if Levels in applied { redis := redis.(levels := redis.levels + multiset{labels.level}); }
      if Pairs in applied { redis := redis.(pairs := redis.pairs + multiset{PairKey(labels.service, labels.level)}); }
    }

    /** `process`; the pipeline has no transaction, and if it raises, only the commands for
        `part` have taken effect. */
    method Process(m: Message, raises: bool, part: set<Family>) returns (ok: bool, applied: set<Family>)
      modifies this`redis
      ensures ok == (LabelsOf(lib, m).Some? && !raises)
      ensures applied == if ok then ALL else if LabelsOf(lib, m).None? then {} else part
      ensures redis == if LabelsOf(lib, m).Some? then Bump(old(redis), LabelsOf(lib, m).value, applied) else old(redis)
    {
      ok, applied := false, {};
      var labels := LabelsOf(lib, m);
      if labels.Some? {
        ok := !raises;
        applied := if ok then ALL else part;
        Execute(labels.value, applied);
      }
    }
  }

  /** What a whole pipeline for one message does to every counter: plus one for the total, for
      its service, for its level, and for the two joined by a colon; nothing else. */
  lemma CountsMessage(lib: Library, m: Message, fields: map<string, Json>, service: string, level: string, c: Counters)
    requires m.value.Some? && m.value.value.Utf8? && lib.loads(m.value.value.text) == Some(Obj(fields))
    requires lib.render(if "service" in fields then fields["service"] else Str("unknown")) == Some(service)
    requires lib.render(if "level" in fields then fields["level"] else Str("UNKNOWN")) == Some(level)
    ensures LabelsOf(lib, m).Some?
    ensures var d := Bump(c, LabelsOf(lib, m).value, ALL);
      && d.total == c.total + 1
      && (forall s :: d.services[s] == c.services[s] + if s == service then 1 else 0)
      && (forall l :: d.levels[l] == c.levels[l] + if l == level then 1 else 0)
      && (forall p :: d.pairs[p] == c.pairs[p] + if p == service + ":" + level then 1 else 0)
  {}

  /** In particular for an event the API published. */
  lemma CountsEvent(lib: Library, m: Message, e: LogEvent, c: Counters)
    requires m.value.Some? && m.value.value.Utf8? && lib.loads(m.value.value.text) == Some(Document(e))
    requires lib.render(Str(e.service)) == Some(e.service) && lib.render(Str(e.level)) == Some(e.level)
    ensures LabelsOf(lib, m) == Some(Labels(e.service, e.level))
    ensures Value(Bump(c, LabelsOf(lib, m).value, ALL), ServiceOf(e.service)) == Value(c, ServiceOf(e.service)) + 1
    ensures Value(Bump(c, LabelsOf(lib, m).value, ALL), LevelOf(e.level)) == Value(c, LevelOf(e.level)) + 1
    ensures Value(Bump(c, LabelsOf(lib, m).value, ALL), PairOf(PairKey(e.service, e.level))) ==
            Value(c, PairOf(PairKey(e.service, e.level))) + 1
  {
    CountsMessage(lib, m, Document(e).fields, e.service, e.level, c);
  }

  /** The counters that a list of whole pipelines leaves. */
  function Marginals(history: seq<Labels>): Counters {
    if history == [] then ZERO
    else Bump(Marginals(history[..|history| - 1]), history[|history| - 1], ALL)
  }

  ghost predicate Seen(lib: Library, b: Broker, h: Labels) {
    exists l :: b.Holds(l) && LabelsOf(lib, b.Fetch(l)) == Some(h)
  }

  ghost predicate AllSeen(lib: Library, b: Broker, history: seq<Labels>) {
    forall i :: 0 <= i < |history| ==> Seen(lib, b, history[i])
  }

  lemma SeenStays(lib: Library, s: B.State, e: B.Event, history: seq<Labels>)
    requires B.Enabled(s, e) && AllSeen(lib, s.broker, history)
    ensures AllSeen(lib, B.Apply(s, e).broker, history)
  {
    var t := B.Apply(s, e);
    forall i | 0 <= i < |history|
      ensures Seen(lib, t.broker, history[i])
    {
      var l :| s.broker.Holds(l) && LabelsOf(lib, s.broker.Fetch(l)) == Some(history[i]);
      assert t.broker.Holds(l) && t.broker.Fetch(l) == s.broker.Fetch(l);
    }
  }

  /** One event with an atomic pipeline extends the history by at most one message. */
  lemma WholeStep(lib: Library, s: B.State, e: B.Event, applied: set<Family>, history: seq<Labels>) returns (after: seq<Labels>)
    requires B.Enabled(s, e) && Consistent(lib, s, e, applied) && (applied == {} || applied == ALL)
    requires AllSeen(lib, s.broker, history)
    ensures Count(lib, s, e, applied, Marginals(history)) == Marginals(after)
    ensures AllSeen(lib, B.Apply(s, e).broker, after)
  {
    after := history;
    if e.Try? && applied == ALL {
      var labels := LabelsOf(lib, s.broker.Fetch(s.phase.todo[0])).value;
      after := history + [labels];
      assert after[..|after| - 1] == history;
      assert Seen(lib, s.broker, labels);
    }
    SeenStays(lib, s, e, after);
  }

  /** If every pipeline applies wholly or not at all, the counters are the marginals of one
      history of messages, over any run with any retries and redelivery. */
  lemma {:induction false} WholePipelines(lib: Library, s: B.State, es: seq<B.Event>, fx: seq<set<Family>>, history: seq<Labels>)
    returns (after: seq<Labels>)
    requires B.Run(s, es) && |fx| == |es| && ConsistentRun(lib, s, es, fx)
    requires forall i :: 0 <= i < |fx| ==> fx[i] == {} || fx[i] == ALL
    requires AllSeen(lib, s.broker, history)
    ensures Tally(lib, s, es, fx, Marginals(history)) == Marginals(after)
    ensures AllSeen(lib, B.Exec(s, es).broker, after)
    decreases |es|
  {
    if es == [] {
      after := history;
    } else {
      var next := WholeStep(lib, s, es[0], fx[0], history);
      after := WholePipelines(lib, B.Apply(s, es[0]), es[1..], fx[1..], next);
    }
  }

  /** The sum of the pair counters of the given pairs. */
  function PairSum(c: Counters, pairs: seq<Labels>): nat {
    if pairs == [] then 0
    else
      var last := pairs[|pairs| - 1];
      PairSum(c, pairs[..|pairs| - 1]) + c.pairs[PairKey(last.service, last.level)]
  }

  /** No pair twice, and no level with a colon. */
  predicate Separate(pairs: seq<Labels>) {
    && (forall i, j :: 0 <= i < j < |pairs| ==> pairs[i] != pairs[j])
    && (forall i :: 0 <= i < |pairs| ==> ':' !in pairs[i].level)
  }

  lemma PairCount(c: Counters, labels: Labels, service: string, level: string)
    requires ':' !in labels.level && ':' !in level
    ensures var k := PairKey(service, level);
      Bump(c, labels, ALL).pairs[k] == c.pairs[k] + if labels == Labels(service, level) then 1 else 0
  {
    PairKeyInjective(labels.service, labels.level, service, level);
  }

  lemma {:induction false} PairSumBump(c: Counters, labels: Labels, pairs: seq<Labels>)
    requires ':' !in labels.level && Separate(pairs)
    ensures PairSum(Bump(c, labels, ALL), pairs) == PairSum(c, pairs) + if labels in pairs then 1 else 0
    decreases |pairs|
  {
    if pairs != [] {
      var n := |pairs| - 1;
      PairSumBump(c, labels, pairs[..n]);
      PairCount(c, labels, pairs[n].service, pairs[n].level);
      assert labels in pairs <==> labels in pairs[..n] || labels == pairs[n];
      assert pairs[n] !in pairs[..n];
    }
  }

  lemma {:induction false} MarginalSizes(history: seq<Labels>)
    ensures var c := Marginals(history);
      c.total == |c.services| == |c.levels| == |c.pairs| == |history|
    decreases |history|
  {
    if history != [] {
      MarginalSizes(history[..|history| - 1]);
    }
  }

  /** A service's counter is the sum of the counters of its pairs, and so for a level, if
      `pairs` has every pair of the history with that service, or that level, and no other. */
  lemma {:induction false} MarginalIsPairSum(history: seq<Labels>, n: Name, pairs: seq<Labels>)
    requires n.ServiceOf? || n.LevelOf?
    requires Separate(pairs) && forall i :: 0 <= i < |history| ==> ':' !in history[i].level
    requires forall i :: 0 <= i < |history| ==> (history[i] in pairs <==> Describes(n, history[i]))
    ensures Value(Marginals(history), n) == PairSum(Marginals(history), pairs)
    decreases |history|
  {
    if history == [] {
      EmptyPairSum(pairs);
    } else {
      var m := |history| - 1;
      MarginalIsPairSum(history[..m], n, pairs);
      PairSumBump(Marginals(history[..m]), history[m], pairs);
      BumpCounts(Marginals(history[..m]), history[m], ALL, n);
    }
  }

  /** Of the pairs on the topic, `pairs` lists exactly those that counter `n` is about, and no
      level on the topic contains a colon. */
  ghost predicate PairsOf(lib: Library, b: Broker, n: Name, pairs: seq<Labels>) {
    && Separate(pairs)
    && (forall h :: Seen(lib, b, h) ==> ':' !in h.level && (h in pairs <==> Describes(n, h)))
  }

  /** The same of Redis after any run of the consumer with atomic pipelines: the families have
      one total, and the counter of a service, or of a level, is the sum of its pair counters. */
  lemma CounterMarginals(lib: Library, partitions: nat, es: seq<B.Event>, fx: seq<set<Family>>,
                         redis: Counters, n: Name, pairs: seq<Labels>)
    requires B.Run(B.Initial(partitions), es) && |fx| == |es| && ConsistentRun(lib, B.Initial(partitions), es, fx)
    requires forall i :: 0 <= i < |fx| ==> fx[i] == {} || fx[i] == ALL
    requires redis == Tally(lib, B.Initial(partitions), es, fx, ZERO)
    requires n.ServiceOf? || n.LevelOf?
    requires PairsOf(lib, B.Exec(B.Initial(partitions), es).broker, n, pairs)
    ensures redis.total == |redis.services| == |redis.levels| == |redis.pairs|
    ensures Value(redis, n) == PairSum(redis, pairs)
  {
    var history := WholePipelines(lib, B.Initial(partitions), es, fx, []);
    MarginalSizes(history);
    MarginalIsPairSum(history, n, pairs);
  }

  lemma {:induction false} EmptyPairSum(pairs: seq<Labels>)
    ensures PairSum(ZERO, pairs) == 0
    decreases |pairs|
  {
    if pairs != [] {
      EmptyPairSum(pairs[..|pairs| - 1]);
    }
  }

  // ------------------------------------------------------ redelivery and failures

  /** One counter of one family. */
  datatype Name = TotalOf | ServiceOf(name: string) | LevelOf(name: string) | PairOf(name: string)

  function Value(c: Counters, n: Name): nat {
    match n
    case TotalOf => c.total
    case ServiceOf(v) => c.services[v]
    case LevelOf(v) => c.levels[v]
    case PairOf(v) => c.pairs[v]
  }

  predicate Describes(n: Name, labels: Labels) {
    match n
    case TotalOf => true
    case ServiceOf(v) => v == labels.service
    case LevelOf(v) => v == labels.level
    case PairOf(v) => v == PairKey(labels.service, labels.level)
  }

  /** The distinct messages processed successfully so far that a counter describes. */
  function Described(lib: Library, s: B.State, n: Name): set<Loc> {
    set l | l in s.processed && s.broker.Holds(l) && LabelsOf(lib, s.broker.Fetch(l)).Some?
            && Describes(n, LabelsOf(lib, s.broker.Fetch(l)).value)
  }

  lemma BumpCounts(c: Counters, labels: Labels, applied: set<Family>, n: Name)
    ensures Value(c, n) <= Value(Bump(c, labels, applied), n)
    ensures applied == ALL ==>
      Value(Bump(c, labels, applied), n) == Value(c, n) + if Describes(n, labels) then 1 else 0
  {}

  lemma DescribedGrows(lib: Library, s: B.State, e: B.Event, n: Name)
    requires B.Inv(s) && B.Enabled(s, e)
    ensures var t := B.Apply(s, e);
      Described(lib, t, n) <=
        Described(lib, s, n) +
        if e.Try? && e.ok && s.broker.Holds(s.phase.todo[0]) &&
           LabelsOf(lib, s.broker.Fetch(s.phase.todo[0])).Some? &&
           Describes(n, LabelsOf(lib, s.broker.Fetch(s.phase.todo[0])).value)
        then {s.phase.todo[0]} else {}
  {}

  lemma StepKeepsLowerBound(lib: Library, s: B.State, e: B.Event, applied: set<Family>, c: Counters, n: Name)
    requires B.Inv(s) && B.Enabled(s, e) && Consistent(lib, s, e, applied)
    requires |Described(lib, s, n)| <= Value(c, n)
    ensures |Described(lib, B.Apply(s, e), n)| <= Value(Count(lib, s, e, applied, c), n)
  {
    DescribedGrows(lib, s, e, n);
    if e.Try? && LabelsOf(lib, s.broker.Fetch(s.phase.todo[0])).Some? {
      var l := s.phase.todo[0];
      BumpCounts(c, LabelsOf(lib, s.broker.Fetch(l)).value, applied, n);
      if e.ok && Describes(n, LabelsOf(lib, s.broker.Fetch(l)).value) {
        SubsetCard(Described(lib, B.Apply(s, e), n), Described(lib, s, n) + {l});
        return;
      }
    }
    SubsetCard(Described(lib, B.Apply(s, e), n), Described(lib, s, n));
  }

  lemma {:induction false} RunKeepsLowerBound(lib: Library, s: B.State, es: seq<B.Event>, fx: seq<set<Family>>, c: Counters, n: Name)
    requires B.Inv(s) && B.Run(s, es) && |fx| == |es| && ConsistentRun(lib, s, es, fx)
    requires |Described(lib, s, n)| <= Value(c, n)
    ensures B.Inv(B.Exec(s, es))
    ensures |Described(lib, B.Exec(s, es), n)| <= Value(Tally(lib, s, es, fx, c), n)
    decreases |es|
  {
    if es != [] {
      StepKeepsLowerBound(lib, s, es[0], fx[0], c, n);
      B.StepKeepsInv(s, es[0]);
      RunKeepsLowerBound(lib, B.Apply(s, es[0]), es[1..], fx[1..], Count(lib, s, es[0], fx[0], c), n);
    }
  }

  /** Whatever partial pipelines, retries, crashes and redeliveries a run contains, every
      counter is at least the number of messages it describes that were processed
      successfully and committed. */
  lemma CountersNeverUndercount(lib: Library, partitions: nat, es: seq<B.Event>, fx: seq<set<Family>>, n: Name)
    requires B.Run(B.Initial(partitions), es) && |fx| == |es|
    requires ConsistentRun(lib, B.Initial(partitions), es, fx)
    ensures var t := B.Exec(B.Initial(partitions), es);
      |set l | l in Described(lib, t, n) && t.broker.Covered(l)| <=
      Value(Tally(lib, B.Initial(partitions), es, fx, ZERO), n)
  {
    var s := B.Initial(partitions);
    assert Described(lib, s, n) == {};
    RunKeepsLowerBound(lib, s, es, fx, ZERO, n);
    var t := B.Exec(s, es);
    SubsetCard((set l | l in Described(lib, t, n) && t.broker.Covered(l)), Described(lib, t, n));
  }

  lemma TallyCons(lib: Library, s: B.State, e: B.Event, applied: set<Family>,
                  es: seq<B.Event>, fx: seq<set<Family>>, c: Counters)
    requires B.Enabled(s, e) && Consistent(lib, s, e, applied)
    requires B.Run(B.Apply(s, e), es) && |fx| == |es| && ConsistentRun(lib, B.Apply(s, e), es, fx)
    ensures B.Run(s, [e] + es) && ConsistentRun(lib, s, [e] + es, [applied] + fx)
    ensures B.Exec(s, [e] + es) == B.Exec(B.Apply(s, e), es)
    ensures Tally(lib, s, [e] + es, [applied] + fx, c) ==
            Tally(lib, B.Apply(s, e), es, fx, Count(lib, s, e, applied, c))
  {}

  /** Poll one message, process it with a whole pipeline, and then stop in the given way. */
  lemma CountsOnce(lib: Library, s: B.State, c: Counters, last: B.Event)
    requires s.broker.Valid() && |s.broker.logs| == 1 && |s.broker.logs[0]| == 1 && s.broker.position == [0]
    requires s.phase.Idle? && s.running && LabelsOf(lib, s.broker.logs[0][0]).Some?
    requires last.CommitOk? || last.Crash?
    ensures var es, fx := [B.Poll([Batch(0, 0, 1)]), B.Try(true), last], [{}, ALL, {}];
      && B.Run(s, es) && ConsistentRun(lib, s, es, fx)
      && Tally(lib, s, es, fx, c) == Bump(c, LabelsOf(lib, s.broker.logs[0][0]).value, ALL)
      && B.Exec(s, es).broker.logs == s.broker.logs
      && (last.Crash? ==> B.Exec(s, es).broker == s.broker.Restart() && B.Exec(s, es).phase.Idle? && B.Exec(s, es).running)
      && (last.CommitOk? ==> B.Exec(s, es).broker.committed == [1])
  {
    var fetch := [Batch(0, 0, 1)];
    assert Kafka.Total(fetch) == 1 + Kafka.Total([]);
    var s1 := B.Apply(s, B.Poll(fetch));
    assert fetch[1..] == [] && B.BatchSeq(fetch[0]) == [Loc(0, 0)];
    assert B.Queue(fetch) == [Loc(0, 0)];
    assert Moved(s.broker.position, fetch) == Moved([1], []) == [1];
    var s2 := B.Apply(s1, B.Try(true));
    var d := Bump(c, LabelsOf(lib, s.broker.logs[0][0]).value, ALL);
    var none: set<Family> := {};
    TallyCons(lib, s2, last, none, [], [], d);
    assert [last] + [] == [last] && [none] + [] == [none];
    TallyCons(lib, s1, B.Try(true), ALL, [last], [none], c);
    TallyCons(lib, s, B.Poll(fetch), none, [B.Try(true)] + [last], [ALL] + [none], c);
    assert [B.Poll(fetch)] + ([B.Try(true)] + [last]) == [B.Poll(fetch), B.Try(true), last];
    assert [none] + ([ALL] + [none]) == [none, ALL, none];
  }

  lemma {:induction false} TallyConcat(lib: Library, s: B.State, a: seq<B.Event>, fa: seq<set<Family>>,
                                       b: seq<B.Event>, fb: seq<set<Family>>, c: Counters)
    requires B.Run(s, a) && |fa| == |a| && ConsistentRun(lib, s, a, fa)
    requires B.Run(B.Exec(s, a), b) && |fb| == |b| && ConsistentRun(lib, B.Exec(s, a), b, fb)
    ensures B.Run(s, a + b) && ConsistentRun(lib, s, a + b, fa + fb)
    ensures Tally(lib, s, a + b, fa + fb, c) == Tally(lib, B.Exec(s, a), b, fb, Tally(lib, s, a, fa, c))
    decreases |a|
  {
    B.RunConcat(s, a, b);
    if a == [] {
      assert a + b == b && fa + fb == fb;
    } else {
      assert (a + b)[1..] == a[1..] + b && (fa + fb)[1..] == fa[1..] + fb;
      TallyConcat(lib, B.Apply(s, a[0]), a[1..], fa[1..], b, fb, Count(lib, s, a[0], fa[0], c));
    }
  }

  /** The bound is all there is: a crash between `process` and the commit counts one message
      twice, where the log writer's insert-if-absent would have stored one row. */
  lemma RedeliveryCountsTwice(lib: Library, s: B.State)
    requires s.broker.Valid() && |s.broker.logs| == 1 && |s.broker.logs[0]| == 1
    requires s.broker.position == s.broker.committed == [0]
    requires s.phase.Idle? && s.running && LabelsOf(lib, s.broker.logs[0][0]).Some?
    ensures var poll := B.Poll([Batch(0, 0, 1)]);
      var es := [poll, B.Try(true), B.Crash] + [poll, B.Try(true), B.CommitOk];
      var fx := [{}, ALL, {}] + [{}, ALL, {}];
      && B.Run(s, es) && ConsistentRun(lib, s, es, fx)
      && B.Exec(s, es).broker.committed == [1]
      && Tally(lib, s, es, fx, ZERO).total == 2
  {
    var poll := B.Poll([Batch(0, 0, 1)]);
    var a, b := [poll, B.Try(true), B.Crash], [poll, B.Try(true), B.CommitOk];
    CountsOnce(lib, s, ZERO, B.Crash);
    var t := B.Exec(s, a);
    var c := Tally(lib, s, a, [{}, ALL, {}], ZERO);
    CountsOnce(lib, t, c, B.CommitOk);
    TallyConcat(lib, s, a, [{}, ALL, {}], b, [{}, ALL, {}], ZERO);
    B.RunConcat(s, a, b);
  }
}
