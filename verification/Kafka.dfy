/** The part of Kafka a consumer group sees: partition logs, the consumer's
    in-memory position, and the offsets committed for the group. */
module Kafka {
  import opened Events

  /** The most records one `getmany` returns. */
  const MAX_RECORDS: nat := 100

  /** Messages lo..hi-1 of one partition, as returned by a poll. */
  datatype Batch = Batch(partition: nat, lo: nat, hi: nat)

  datatype Broker = Broker(logs: seq<seq<Message>>, position: seq<nat>, committed: seq<nat>) {
    ghost predicate Valid() {
      && |logs| == |position| == |committed|
      && forall p :: 0 <= p < |logs| ==> committed[p] <= position[p] <= |logs[p]|
    }

    predicate Holds(l: Loc) {
      l.partition < |logs| && l.offset < |logs[l.partition]|
    }

    function Fetch(l: Loc): Message
      requires Holds(l)
    {
      logs[l.partition][l.offset]
    }

    /** Handed out by a poll since the last restart, or committed before it. */
    predicate Polled(l: Loc) {
      l.partition < |position| && l.offset < position[l.partition]
    }

    predicate Covered(l: Loc) {
      l.partition < |committed| && l.offset < committed[l.partition]
    }

    /** What a poll may return: at most one run of messages per partition,
        starting at its position, in any order of partitions. */
    predicate CanFetch(fetch: seq<Batch>) {
      && |logs| == |position|
      && Apart(fetch)
      && Total(fetch) <= MAX_RECORDS
      && forall i :: 0 <= i < |fetch| ==>
           var b := fetch[i];
           b.partition < |logs| && b.lo == position[b.partition] && b.lo <= b.hi <= |logs[b.partition]|
    }

    /** `getmany` moves the position at once. */
    function Advance(fetch: seq<Batch>): Broker
      requires CanFetch(fetch)
    {
      this.(position := Moved(position, fetch))
    }

    /** `commit()` without arguments commits every position. */
    function Commit(): Broker {
      this.(committed := position)
    }

    /** A new process starts from the committed offsets. */
    function Restart(): Broker {
      this.(position := committed)
    }

    function Produce(p: nat, m: Message): Broker
      requires p < |logs|
    {
      this.(logs := logs[p := logs[p] + [m]])
    }
  }

  predicate Apart(fetch: seq<Batch>) {
    forall i, j :: 0 <= i < j < |fetch| ==> fetch[i].partition != fetch[j].partition
  }

  function Total(fetch: seq<Batch>): int {
    if fetch == [] then 0 else fetch[0].hi - fetch[0].lo + Total(fetch[1..])
  }

  function Moved(position: seq<nat>, fetch: seq<Batch>): (r: seq<nat>)
    requires forall i :: 0 <= i < |fetch| ==> fetch[i].partition < |position|
    ensures |r| == |position|
    decreases |fetch|
  {
    if fetch == [] then position
    else Moved(position[fetch[0].partition := fetch[0].hi], fetch[1..])
  }

  function BatchLocs(b: Batch): set<Loc> {
    set o: nat | b.lo <= o < b.hi :: Loc(b.partition, o)
  }

  function Locs(fetch: seq<Batch>): set<Loc> {
    if fetch == [] then {} else BatchLocs(fetch[0]) + Locs(fetch[1..])
  }

  /** A poll moves each position forward over exactly the messages it hands out. */
  lemma {:induction false} MovedOver(position: seq<nat>, fetch: seq<Batch>, p: nat)
    requires Apart(fetch) && p < |position|
    requires forall i :: 0 <= i < |fetch| ==>
      fetch[i].partition < |position| && position[fetch[i].partition] == fetch[i].lo <= fetch[i].hi
    ensures position[p] <= Moved(position, fetch)[p]
    ensures forall o: nat :: Loc(p, o) in Locs(fetch) <==> position[p] <= o < Moved(position, fetch)[p]
    ensures (forall i :: 0 <= i < |fetch| ==> fetch[i].partition != p) ==> Moved(position, fetch)[p] == position[p]
    ensures forall i :: 0 <= i < |fetch| && fetch[i].partition == p ==> Moved(position, fetch)[p] == fetch[i].hi
    decreases |fetch|
  {
    if fetch != [] {
      var b := fetch[0];
      var next := position[b.partition := b.hi];
      forall i | 0 <= i < |fetch[1..]|
        ensures next[fetch[1..][i].partition] == fetch[1..][i].lo
      {
        assert fetch[1..][i] == fetch[i + 1];
      }
      MovedOver(next, fetch[1..], p);
      forall i | 0 <= i < |fetch| && fetch[i].partition == p
        ensures Moved(position, fetch)[p] == fetch[i].hi
      {
        if i > 0 { assert fetch[i] == fetch[1..][i - 1]; }
      }
    }
  }

  /** Advancing keeps the broker valid and polls exactly the fetched messages. */
  lemma AdvancePolls(b: Broker, fetch: seq<Batch>)
    requires b.Valid() && b.CanFetch(fetch)
    ensures b.Advance(fetch).Valid()
    ensures forall l :: b.Advance(fetch).Polled(l) <==> b.Polled(l) || l in Locs(fetch)
  {
    forall p: nat | p < |b.logs|
      ensures b.position[p] <= Moved(b.position, fetch)[p] <= |b.logs[p]|
    {
      MovedOver(b.position, fetch, p);
      if exists i :: 0 <= i < |fetch| && fetch[i].partition == p {}
    }
    forall l
      ensures b.Advance(fetch).Polled(l) <==> b.Polled(l) || l in Locs(fetch)
    {
      if l.partition < |b.position| {
        MovedOver(b.position, fetch, l.partition);
        assert l == Loc(l.partition, l.offset);
      } else {
        LocsHeld(b, fetch);
      }
    }
  }

  lemma {:induction false} LocsHeld(b: Broker, todo: seq<Batch>)
    requires forall i :: 0 <= i < |todo| ==>
      todo[i].partition < |b.logs| && todo[i].lo <= todo[i].hi <= |b.logs[todo[i].partition]|
    ensures forall l :: l in Locs(todo) ==> b.Holds(l)
  {
    if todo != [] {
      LocsHeld(b, todo[1..]);
    }
  }
}
