/** Messages, log rows and the two pure translations between them: parsing a
    message into a row, and wrapping a message into a dead-letter envelope. */
module Events {
  import opened Wrappers

  /** Bytes on a topic, split by whether `bytes.decode("utf-8")` succeeds. */
  datatype Payload = NotUtf8(raw: seq<int>) | Utf8(text: string)

  datatype Message = Message(key: Option<Payload>, value: Option<Payload>)

  /** A place in a topic: partition and offset. */
  datatype Loc = Loc(partition: nat, offset: nat)

  datatype Json =
    | Null
    | Bool(b: bool)
    | Number(n: real)
    | Str(s: string)
    | Arr(items: seq<Json>)
    | Obj(fields: map<string, Json>)

  /** Python's truth value of a decoded document. */
  predicate Truthy(j: Json) {
    match j
    case Null => false
    case Bool(b) => b
    case Number(n) => n != 0.0
    case Str(s) => s != ""
    case Arr(items) => items != []
    case Obj(fields) => fields != map[]
  }

  /** `fields.get(name)`. */
  function Get(fields: map<string, Json>, name: string): Json {
    if name in fields then fields[name] else Null
  }

  /** A row's timestamp: an instant, or whatever a non-string field held. */
  datatype Stamp = Instant(at: int) | Other(json: Json)

  datatype Row = Row(id: int, service: Json, level: Json, message: Json,
                     timestamp: Stamp, traceId: Json, metadata: Option<string>)

  /** The primary key (id, timestamp). */
  datatype Key = Key(id: int, timestamp: Stamp)

  function KeyOf(r: Row): Key {
    Key(r.id, r.timestamp)
  }

  /** The instant of a row. The database refuses rows without one, so the
      value chosen for those does not matter. */
  function At(r: Row): int {
    if r.timestamp.Instant? then r.timestamp.at else 0
  }

  /** The libraries and the database, as parameters: JSON, UUID and ISO-8601
      parsing, JSON printing, and which rows PostgreSQL accepts. */
  datatype Env = Env(loads: string -> Option<Json>,
                     dumps: Json -> string,
                     uuid: string -> Option<int>,
                     iso: string -> Option<int>,
                     accepts: Row -> bool)

  /** The row a message describes, or None where the consumer's `try` block raises. */
  function Parse(env: Env, m: Message): Option<Row> {
    match m.value
    case Some(Utf8(text)) =>
      (match env.loads(text)
       case Some(Obj(fields)) => ParseFields(env, fields)
       case _ => None)
    case _ => None
  }

  function ParseFields(env: Env, fields: map<string, Json>): Option<Row> {
    if !({"timestamp", "id", "service", "level", "message"} <= fields.Keys) then None
    else if !fields["id"].Str? then None
    else
      match (ParseStamp(env, fields["timestamp"]), env.uuid(fields["id"].s))
      case (Some(stamp), Some(id)) =>
        var metadata := Get(fields, "metadata");
        Some(Row(id, fields["service"], fields["level"], fields["message"], stamp,
                 Get(fields, "trace_id"),
                 if Truthy(metadata) then Some(env.dumps(metadata)) else None))
      case _ => None
  }

  function ParseStamp(env: Env, j: Json): Option<Stamp> {
    if !j.Str? then Some(Other(j))
    else match env.iso(j.s)
      case Some(t) => Some(Instant(t))
      case None => None
  }

  /** Exactly which documents describe a row, and which field of the row each entry becomes. */
  lemma ParseExactly(env: Env, m: Message, fields: map<string, Json>)
    requires m.value.Some? && m.value.value.Utf8? && env.loads(m.value.value.text) == Some(Obj(fields))
    ensures Parse(env, m).Some? <==>
      && "id" in fields && "service" in fields && "level" in fields && "message" in fields && "timestamp" in fields
      && fields["id"].Str? && env.uuid(fields["id"].s).Some?
      && (fields["timestamp"].Str? ==> env.iso(fields["timestamp"].s).Some?)
    ensures Parse(env, m).Some? ==>
      var row := Parse(env, m).value;
      && env.uuid(fields["id"].s) == Some(row.id)
      && row.service == fields["service"] && row.level == fields["level"] && row.message == fields["message"]
      && (if fields["timestamp"].Str? then row.timestamp.Instant? && env.iso(fields["timestamp"].s) == Some(row.timestamp.at)
          else row.timestamp == Other(fields["timestamp"]))
      && row.traceId == Get(fields, "trace_id")
      && (row.metadata.Some? <==> "metadata" in fields && Truthy(fields["metadata"]))
      && (row.metadata.Some? ==> row.metadata.value == env.dumps(fields["metadata"]))
  {}

  /** Any other value describes none. */
  lemma OnlyObjectsParse(env: Env, m: Message)
    requires Parse(env, m).Some?
    ensures m.value.Some? && m.value.value.Utf8? && env.loads(m.value.value.text).Some?
    ensures env.loads(m.value.value.text).value.Obj?
  {}

  /** A log event as the API accepts it. */
  datatype LogEvent = LogEvent(id: string, service: string, level: string, message: string, timestamp: string,
                               traceId: Option<string>, metadata: Option<map<string, Json>>)

  /** `to_kafka_bytes`, as a document: every field under its name, absent ones null. */
  function Document(e: LogEvent): Json {
    Obj(map["id" := Str(e.id), "service" := Str(e.service), "level" := Str(e.level), "message" := Str(e.message),
            "timestamp" := Str(e.timestamp),
            "trace_id" := if e.traceId.Some? then Str(e.traceId.value) else Null,
            "metadata" := if e.metadata.Some? then Obj(e.metadata.value) else Null])
  }

  /** The message carries the event. */
  predicate Carries(env: Env, m: Message, e: LogEvent) {
    m.value.Some? && m.value.value.Utf8? && env.loads(m.value.value.text) == Some(Document(e))
  }

  /** The row holds the event: all seven fields, empty metadata as if absent. */
  predicate HoldsEvent(env: Env, row: Row, e: LogEvent) {
    && env.uuid(e.id) == Some(row.id)
    && row.service == Str(e.service) && row.level == Str(e.level) && row.message == Str(e.message)
    && row.timestamp.Instant? && env.iso(e.timestamp) == Some(row.timestamp.at)
    && row.traceId == (match e.traceId case Some(id) => Str(id) case None => Null)
    && row.metadata == (match e.metadata
                        case Some(fields) => if |fields| > 0 then Some(env.dumps(Obj(fields))) else None
                        case None => None)
  }

  /** What the API publishes for an event, the writer parses back to the row of that event; it
      fails only on an id or a timestamp that is not one. */
  lemma EventRoundTrip(env: Env, m: Message, e: LogEvent)
    requires Carries(env, m, e)
    ensures Parse(env, m).Some? <==> env.uuid(e.id).Some? && env.iso(e.timestamp).Some?
    ensures Parse(env, m).Some? ==> HoldsEvent(env, Parse(env, m).value, e)
  {
    ParseExactly(env, m, Document(e).fields);
    if e.metadata.Some? {
      assert |e.metadata.value| > 0 <==> e.metadata.value != map[];
    }
  }

  /** One call of `_send_to_dead_letter`, and whether the envelope was delivered. */
  datatype Attempt = Attempt(loc: Loc, delivered: bool)

  /** Absent, or text. */
  predicate Decodable(p: Option<Payload>) {
    p.Some? ==> p.value.Utf8?
  }

  /** Whether an envelope can be built at all: key and value are decoded first. */
  predicate Routable(m: Message) {
    Decodable(m.key) && Decodable(m.value)
  }

  function TextOf(p: Option<Payload>): Json {
    match p
    case Some(Utf8(text)) => if text == "" then Null else Str(text)
    case _ => Null
  }

  /** The dead-letter document for a message. */
  function Envelope(m: Message, loc: Loc, topic: string, consumer: string, group: string): Json
    requires Routable(m)
  {
    Obj(map["original_topic" := Str(topic),
            "original_partition" := Number(loc.partition as real),
            "original_offset" := Number(loc.offset as real),
            "original_key" := TextOf(m.key),
            "original_value" := TextOf(m.value),
            "consumer_class" := Str(consumer),
            "group_id" := Str(group)])
  }

  /** What an operator reads off an envelope: where the message was, who failed on it, and its
      key and value, an empty one as if absent. */
  lemma EnvelopeTells(m: Message, loc: Loc, topic: string, consumer: string, group: string)
    requires Routable(m)
    ensures var e := Envelope(m, loc, topic, consumer, group);
      && e.Obj?
      && Get(e.fields, "original_topic") == Str(topic)
      && Get(e.fields, "original_partition") == Number(loc.partition as real)
      && Get(e.fields, "original_offset") == Number(loc.offset as real)
      && Get(e.fields, "consumer_class") == Str(consumer) && Get(e.fields, "group_id") == Str(group)
      && (forall s :: s != "" ==> (Get(e.fields, "original_key") == Str(s) <==> m.key == Some(Utf8(s))))
      && (forall s :: s != "" ==> (Get(e.fields, "original_value") == Str(s) <==> m.value == Some(Utf8(s))))
      && (Get(e.fields, "original_key") == Null <==> m.key == None || m.key == Some(Utf8("")))
      && (Get(e.fields, "original_value") == Null <==> m.value == None || m.value == Some(Utf8("")))
  {}

  /** So an envelope belongs to one place only. */
  lemma EnvelopesDiffer(m: Message, l: Loc, n: Message, r: Loc, topic: string, consumer: string, group: string)
    requires Routable(m) && Routable(n)
    requires Envelope(m, l, topic, consumer, group) == Envelope(n, r, topic, consumer, group)
    ensures l == r
  {
    EnvelopeTells(m, l, topic, consumer, group);
    EnvelopeTells(n, r, topic, consumer, group);
  }
}
