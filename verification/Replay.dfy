/** Replaying the dead-letter topic: unwrap, validate, republish, up to a limit. */
module Replay {
  import opened Wrappers
  import opened Events

  /** A dead-letter record's value: missing, not text, text that is not JSON, or a document. */
  datatype Record = Missing | Undecodable | NotJson | Document(json: Json)

  /** What one turn of the loop does. */
  datatype Verdict =
    | Publish(text: string)
    | Skip   // committed and passed over
    | Raise  // an exception the loop does not handle ends the script

  /** `validates` says which texts `LogEvent.model_validate_json` accepts; it takes no other type. */
  function Judge(validates: string -> bool, record: Record): Verdict {
    match record
    case Missing => Raise
    case Undecodable => Raise
    case NotJson => Skip
    case Document(json) =>
      if !json.Obj? then Raise  // only a dictionary has .get
      else
        var original := Get(json.fields, "original_value");
        if Truthy(original) && original.Str? && validates(original.s) then Publish(original.s) else Skip
  }

  /** The texts to publish, in order. */
  function Publications(validates: string -> bool, records: seq<Record>): seq<string> {
    if records == [] then []
    else
      var front := Publications(validates, records[..|records| - 1]);
      match Judge(validates, records[|records| - 1])
      case Publish(text) => front + [text]
      case _ => front
  }

  predicate NoneRaise(validates: string -> bool, records: seq<Record>) {
    forall i :: 0 <= i < |records| ==> !Judge(validates, records[i]).Raise?
  }

  /** Why a run ended: the limit, no record within the timeout, an exception of the loop's own
      that it does not handle, or one raised by the Kafka client. */
  datatype Stop = AtLimit | TimedOut | Unhandled | ClientRaised

  /** A run of the script consumes a prefix of the topic, no record of it after the limit was
      reached, and publishes that prefix's publications; when the client raises, the last of
      them may be missing. */
  ghost predicate Outcome(validates: string -> bool, records: seq<Record>, limit: int,
                          published: seq<string>, consumed: nat, stop: Stop) {
    && consumed <= |records|
    && (consumed > 0 ==>
          && NoneRaise(validates, records[..consumed - 1])
          && |Publications(validates, records[..consumed - 1])| < limit)
    && (published == Publications(validates, records[..consumed]) ||
        (stop.ClientRaised? && consumed > 0 && published == Publications(validates, records[..consumed - 1])))
    && (stop.Unhandled? <==> !NoneRaise(validates, records[..consumed]))
    && (stop.AtLimit? ==> |published| >= limit)
    && (stop.TimedOut? ==> |published| < limit)
  }

  /** What waiting for the next record comes to. */
  datatype Poll = Arrives | Late | Fails

  /** How the client's calls for the i-th record turn out: getone, send_and_wait, and whether
      commit works. */
  datatype Calls = Calls(polls: nat -> Poll, sends: nat -> Fault, commits: nat -> bool)

  /** `replay_dlq` on the records now in the topic. It stops early only where a call says so. */
  method ReplayDlq(validates: string -> bool, records: seq<Record>, limit: int, calls: Calls)
    returns (published: seq<string>, consumed: nat, stop: Stop)
    ensures Outcome(validates, records, limit, published, consumed, stop)
    ensures stop.TimedOut? ==> consumed == |records| || calls.polls(consumed).Late?
    ensures stop.ClientRaised? ==>
      calls.polls(consumed).Fails? || (consumed > 0 && !(calls.sends(consumed - 1).Fine? && calls.commits(consumed - 1)))
  {
    var replayed := 0;
    published, consumed := [], 0;
    while replayed < limit
      invariant consumed <= |records| && replayed == |published|
      invariant consumed > 0 ==> |Publications(validates, records[..consumed - 1])| < limit
      invariant published == Publications(validates, records[..consumed])
      invariant NoneRaise(validates, records[..consumed])
      decreases |records| - consumed
    {
      var poll := calls.polls(consumed);
      if poll.Fails? { return published, consumed, ClientRaised; }
      if consumed == |records| || poll.Late? { return published, consumed, TimedOut; }
      var record, send, commits := records[consumed], calls.sends(consumed), calls.commits(consumed);
      assert records[..consumed + 1][..consumed] == records[..consumed];
      consumed := consumed + 1;
      match Judge(validates, record) {
        case Raise =>
          assert Judge(validates, records[..consumed][consumed - 1]).Raise?;
          return published, consumed, Unhandled;
        case Skip =>
        case Publish(text) =>
          if !send.Fine? {
            return if send.After? then published + [text] else published, consumed, ClientRaised;
          }
          published := published + [text];
          replayed := replayed + 1;
      }
      if !commits { return published, consumed, ClientRaised; }
    }
    stop := AtLimit;
  }

  lemma {:induction false} PublicationsPrefix(validates: string -> bool, records: seq<Record>, n: nat)
    requires n <= |records|
    ensures Publications(validates, records[..n]) <= Publications(validates, records)
    decreases |records| - n
  {
    if n == |records| {
      assert records[..n] == records;
    } else {
      assert records[..n + 1][..n] == records[..n];
      PublicationsPrefix(validates, records, n + 1);
    }
  }

  /** The client worked, and the timeout only struck when the topic was at its end. */
  predicate Undisturbed(records: seq<Record>, consumed: nat, stop: Stop) {
    !stop.ClientRaised? && (stop.TimedOut? ==> consumed == |records|)
  }

  /** No value, no text, or JSON other than an object. */
  predicate Unreadable(record: Record) {
    record == Missing || record == Undecodable || (record.Document? && !record.json.Obj?)
  }

  /** A record on which an undisturbed run ends: the first unreadable one, before the limit. */
  ghost predicate Breaks(validates: string -> bool, records: seq<Record>, limit: int, k: nat) {
    && k < |records| && Unreadable(records[k])
    && (forall i :: 0 <= i < k ==> !Unreadable(records[i]))
    && |Publications(validates, records[..k])| < limit
  }

  /** Publications only grow with the prefix. */
  lemma PublicationsGrow(validates: string -> bool, records: seq<Record>, m: nat, n: nat)
    ensures m <= n <= |records| ==> Publications(validates, records[..m]) <= Publications(validates, records[..n])
  {
    if m <= n <= |records| {
      assert records[..n][..m] == records[..m];
      PublicationsPrefix(validates, records[..n], m);
    }
  }

  /** Undisturbed, where a run stops is determined by the records and the limit. */
  lemma StopsNoEarlier(validates: string -> bool, records: seq<Record>, limit: int,
                       p: seq<string>, c: nat, stop: Stop, q: seq<string>, d: nat, other: Stop)
    requires Outcome(validates, records, limit, p, c, stop) && Undisturbed(records, c, stop)
    requires Outcome(validates, records, limit, q, d, other)
    ensures d <= c
  {
    PublicationsGrow(validates, records, c, if d > 0 then d - 1 else 0);
  }

  /** Two undisturbed runs on the same topic do the same. */
  lemma OutcomeDetermined(validates: string -> bool, records: seq<Record>, limit: int,
                          p: seq<string>, c: nat, stop: Stop, q: seq<string>, d: nat, other: Stop)
    requires Outcome(validates, records, limit, p, c, stop) && Undisturbed(records, c, stop)
    requires Outcome(validates, records, limit, q, d, other) && Undisturbed(records, d, other)
    ensures p == q && c == d && stop == other
  {
    StopsNoEarlier(validates, records, limit, p, c, stop, q, d, other);
    StopsNoEarlier(validates, records, limit, q, d, other, p, c, stop);
  }

  /** When replay ends with an exception of its own, exactly: an undisturbed run does if and
      only if some record that raises comes before the limit is reached; a disturbed one only then. */
  lemma RaisesExactly(validates: string -> bool, records: seq<Record>, limit: int,
                      published: seq<string>, consumed: nat, stop: Stop)
    requires Outcome(validates, records, limit, published, consumed, stop)
    ensures stop.Unhandled? ==> exists k: nat :: Breaks(validates, records, limit, k)
    ensures Undisturbed(records, consumed, stop) && (exists k: nat :: Breaks(validates, records, limit, k)) ==>
      stop.Unhandled?
  {
    forall r ensures Judge(validates, r).Raise? <==> Unreadable(r) {}
    if stop.Unhandled? {
      assert forall i :: 0 <= i < consumed - 1 ==> records[..consumed - 1][i] == records[i];
      assert Breaks(validates, records, limit, consumed - 1);
    }
    forall k: nat | Breaks(validates, records, limit, k)
      ensures Undisturbed(records, consumed, stop) ==> stop.Unhandled?
    {
      PublicationsGrow(validates, records, consumed, k);
      assert k < consumed ==> records[..consumed][k] == records[k];
    }
  }

  /** A single undecodable record, before any positive limit, ends every undisturbed run so. */
  lemma UndecodableRaises(validates: string -> bool, limit: int, published: seq<string>, consumed: nat, stop: Stop)
    requires limit > 0 && Outcome(validates, [Undecodable], limit, published, consumed, stop)
    requires Undisturbed([Undecodable], consumed, stop)
    ensures published == [] && consumed == 1 && stop == Unhandled
    ensures Outcome(validates, [Undecodable], limit, [], 1, Unhandled)
  {
    var records := [Undecodable];
    assert Publications(validates, records[..0]) == [];
    assert records[..1] == records && records[..1][..0] == records[..0];
    assert Judge(validates, records[..1][0]).Raise?;
    assert Outcome(validates, records, limit, [], 1, Unhandled);
    OutcomeDetermined(validates, records, limit, published, consumed, stop, [], 1, Unhandled);
  }

  // ------------------------------------------------------------------- round trip

  /** A message the consumers dead-lettered, and where it was. */
  datatype Dead = Dead(m: Message, loc: Loc)

  /** The records the consumers' `_send_to_dead_letter` writes for them. */
  function Records(dead: seq<Dead>, topic: string, consumer: string, group: string): seq<Record>
    requires forall d :: d in dead ==> Routable(d.m)
  {
    seq(|dead|, (i: nat) requires i < |dead| =>
      assert dead[i] in dead; Document(Envelope(dead[i].m, dead[i].loc, topic, consumer, group)))
  }

  /** Worth replaying: a nonempty UTF-8 value that is a valid log event. */
  predicate Replayable(validates: string -> bool, m: Message) {
    m.value.Some? && m.value.value.Utf8? && m.value.value.text != "" && validates(m.value.value.text)
  }

  /** The original values of the replayable messages, in order. */
  function Originals(validates: string -> bool, dead: seq<Dead>): seq<Option<Payload>> {
    if dead == [] then []
    else
      Originals(validates, dead[..|dead| - 1])
      + if Replayable(validates, dead[|dead| - 1].m) then [dead[|dead| - 1].m.value] else []
  }

  /** What publishing a text puts on the ingest topic. */
  function Values(texts: seq<string>): (values: seq<Option<Payload>>)
    ensures |values| == |texts|
  {
    seq(|texts|, (i: nat) requires i < |texts| => Some(Utf8(texts[i])))
  }

  lemma EnvelopeJudged(validates: string -> bool, d: Dead, topic: string, consumer: string, group: string)
    requires Routable(d.m)
    ensures Judge(validates, Document(Envelope(d.m, d.loc, topic, consumer, group))) == VerdictOn(validates, d.m)
  {}

  /** Records judged as their originals deserve publish exactly the originals. */
  lemma {:induction false} JudgedAlike(validates: string -> bool, dead: seq<Dead>, records: seq<Record>)
    requires |records| == |dead|
    requires forall i :: 0 <= i < |dead| ==>
      Judge(validates, records[i]) == VerdictOn(validates, dead[i].m)
    ensures NoneRaise(validates, records)
    ensures Values(Publications(validates, records)) == Originals(validates, dead)
    decreases |dead|
  {
    if dead != [] {
      var n := |dead| - 1;
      JudgedAlike(validates, dead[..n], records[..n]);
    }
  }

  function VerdictOn(validates: string -> bool, m: Message): Verdict {
    if Replayable(validates, m) then Publish(m.value.value.text) else Skip
  }

  lemma EnvelopesPublishOriginals(validates: string -> bool, dead: seq<Dead>, topic: string, consumer: string, group: string)
    requires forall d :: d in dead ==> Routable(d.m)
    ensures NoneRaise(validates, Records(dead, topic, consumer, group))
    ensures Values(Publications(validates, Records(dead, topic, consumer, group))) == Originals(validates, dead)
  {
    var records := Records(dead, topic, consumer, group);
    forall i | 0 <= i < |dead|
      ensures Judge(validates, records[i]) == VerdictOn(validates, dead[i].m)
    {
      EnvelopeJudged(validates, dead[i], topic, consumer, group);
    }
    JudgedAlike(validates, dead, records);
  }

  /** Dead-letter round trip: replaying what the consumers dead-lettered publishes, in order and
      byte for byte, the original values that are valid log events: a prefix of them, and
      undisturbed all of them up to the limit. It raises nothing of its own. */
  lemma RoundTrip(validates: string -> bool, dead: seq<Dead>, topic: string, consumer: string, group: string,
                  limit: int, published: seq<string>, consumed: nat, stop: Stop)
    requires forall d :: d in dead ==> Routable(d.m)
    requires Outcome(validates, Records(dead, topic, consumer, group), limit, published, consumed, stop)
    ensures !stop.Unhandled?
    ensures Values(published) <= Originals(validates, dead)
    ensures |published| <= if limit <= 0 then 0 else limit
    ensures Undisturbed(Records(dead, topic, consumer, group), consumed, stop) ==>
      |published| == if limit <= 0 then 0
                     else if limit < |Originals(validates, dead)| then limit
                     else |Originals(validates, dead)|
  {
    var records := Records(dead, topic, consumer, group);
    EnvelopesPublishOriginals(validates, dead, topic, consumer, group);
    PublicationsPrefix(validates, records, consumed);
    if consumed > 0 {
      PublicationsPrefix(validates, records, consumed - 1);
      assert records[..consumed][..consumed - 1] == records[..consumed - 1];
    }
    assert consumed == |records| ==> records[..consumed] == records;
  }

  /** Records that are not JSON, before an envelope. */
  function Garbage(n: nat): seq<Record> {
    seq(n, _ => NotJson)
  }

  lemma {:induction false} GarbagePublishesNothing(validates: string -> bool, n: nat)
    ensures Publications(validates, Garbage(n)) == [] && NoneRaise(validates, Garbage(n))
    decreases n
  {
    if n > 0 {
      assert Garbage(n)[..n - 1] == Garbage(n - 1);
      GarbagePublishesNothing(validates, n - 1);
    }
  }

  /** Garbage is passed over: an envelope behind any amount of it is replayed. */
  lemma GarbagePassedOver(validates: string -> bool, n: nat, d: Dead, topic: string, consumer: string, group: string,
                          limit: int, published: seq<string>, consumed: nat, stop: Stop)
    requires Routable(d.m) && Replayable(validates, d.m) && limit > 0
    requires var records := Garbage(n) + [Document(Envelope(d.m, d.loc, topic, consumer, group))];
      Outcome(validates, records, limit, published, consumed, stop) && Undisturbed(records, consumed, stop)
    ensures published == [d.m.value.value.text] && consumed == n + 1 && !stop.Unhandled?
  {
    var envelope := Document(Envelope(d.m, d.loc, topic, consumer, group));
    var records := Garbage(n) + [envelope];
    GarbagePublishesNothing(validates, n);
    EnvelopeJudged(validates, d, topic, consumer, group);
    assert records[..n] == Garbage(n) && records[..n + 1] == records && records[..n + 1][..n] == Garbage(n);
    var done := if limit == 1 then AtLimit else TimedOut;
    assert NoneRaise(validates, records);
    assert Outcome(validates, records, limit, [d.m.value.value.text], n + 1, done);
    OutcomeDetermined(validates, records, limit, published, consumed, stop, [d.m.value.value.text], n + 1, done);
  }

  /** A replayed message parses to the row of its original, so its insert is idempotent with
      the original's; only the message key is lost on the way. */
  lemma ReplayedParsesAlike(env: Env, validates: string -> bool, m: Message)
    requires Replayable(validates, m)
    ensures Parse(env, Message(None, Some(Utf8(m.value.value.text)))) == Parse(env, m)
  {}
}
