/** The logs table as PostgreSQL stores it: monthly range partitions and a default one, with
    the calendar arithmetic and maintenance of `manage_partitions.py`. */
module Partitions {
  import opened Wrappers
  import opened Events

  // -------------------------------------------------------------------- calendar

  /** A datetime on the first of a month; years run from 1 to 9999. */
  datatype Month = Month(year: int, month: int)

  predicate Valid(d: Month) {
    1 <= d.year <= 9999 && 1 <= d.month <= 12
  }

  /** Months since year 0. */
  function Index(d: Month): int {
    12 * d.year + d.month - 1
  }

  /** `add_months`, or None where `datetime` raises. */
  function AddMonths(d: Month, n: int): (r: Option<Month>)
    ensures r.Some? ==> Valid(r.value)
  {
    var month := d.month - 1 + n;
    var year := d.year + month / 12;
    if 1 <= year <= 9999 then Some(Month(year, month % 12 + 1)) else None
  }

  /** The result is the month `n` further on, and exists exactly within the calendar. */
  lemma AddMonthsMoves(d: Month, n: int)
    ensures AddMonths(d, n).Some? <==> 12 <= Index(d) + n < 120000
    ensures AddMonths(d, n).Some? ==> Index(AddMonths(d, n).value) == Index(d) + n
  {}

  /** Additivity, for negative numbers of months as well. */
  lemma AddMonthsAdditive(d: Month, a: int, b: int)
    requires AddMonths(d, a).Some?
    ensures AddMonths(AddMonths(d, a).value, b) == AddMonths(d, a + b)
    ensures Valid(d) ==> AddMonths(AddMonths(d, a).value, -a) == Some(d)
  {}

  /** Instants are numbered in order, with room in each month for its longest length in
      microseconds; only their order matters here. */
  const MONTH_SPAN: int := 31 * 86400 * 1000000

  function Start(index: int): int {
    index * MONTH_SPAN
  }

  // ----------------------------------------------------------------------- names

  function Digit(n: int): char
    requires 0 <= n <= 9
  {
    "0123456789"[n]
  }

  predicate IsDigit(c: char) {
    '0' <= c <= '9'
  }

  /** The last `width` decimal digits of n. */
  function Digits(n: nat, width: nat): (s: string)
    ensures |s| == width && forall i :: 0 <= i < |s| ==> IsDigit(s[i])
  {
    if width == 0 then "" else Digits(n / 10, width - 1) + [Digit(n % 10)]
  }

  /** `int(s)` for a string of digits. */
  function ParseInt(s: string): nat
    requires forall i :: 0 <= i < |s| ==> IsDigit(s[i])
  {
    if s == "" then 0
    else
      assert IsDigit(s[|s| - 1]);
      ParseInt(s[..|s| - 1]) * 10 + (s[|s| - 1] as int - '0' as int)
  }

  function Pow10(n: nat): nat {
    if n == 0 then 1 else 10 * Pow10(n - 1)
  }

  lemma {:induction false} DigitsParse(n: nat, width: nat)
    requires n < Pow10(width)
    ensures ParseInt(Digits(n, width)) == n
    decreases width
  {
    if width > 0 {
      DigitsParse(n / 10, width - 1);
      assert Digits(n, width)[..width - 1] == Digits(n / 10, width - 1);
    }
  }

  /** `logs_YYYY_MM`; the C library's %Y does not pad, so it has four digits from year 1000. */
  function Name(d: Month): string
    requires Valid(d) && 1000 <= d.year
  {
    "logs_" + Digits(d.year, 4) + "_" + Digits(d.month, 2)
  }

  /** The regular expression both passes check. */
  predicate IsMonthly(name: string) {
    && |name| == 12 && name[..5] == "logs_" && name[9] == '_'
    && (forall i :: 0 <= i < 4 ==> IsDigit(name[5..9][i]))
    && (forall i :: 0 <= i < 2 ==> IsDigit(name[10..][i]))
  }

  /** The date read back from a partition name, or None where `datetime` raises. */
  function MonthOf(name: string): Option<Month>
    requires IsMonthly(name)
  {
    var d := Month(ParseInt(name[5..9]), ParseInt(name[10..]));
    if Valid(d) then Some(d) else None
  }

  /** Dropping reads back exactly the month that creating wrote. */
  lemma NameRoundTrip(d: Month)
    requires Valid(d) && 1000 <= d.year
    ensures IsMonthly(Name(d)) && MonthOf(Name(d)) == Some(d)
  {
    var name := Name(d);
    assert name[..5] == "logs_" && name[5..9] == Digits(d.year, 4) && name[10..] == Digits(d.month, 2);
    assert Pow10(4) == 10 * (10 * Pow10(2)) && Pow10(2) == 10 * (10 * Pow10(0));
    DigitsParse(d.year, 4);
    DigitsParse(d.month, 2);
  }

  lemma DigitsStep(n: nat, width: nat)
    ensures Digits(n, width + 1) == Digits(n / 10, width) + [Digit(n % 10)]
  {}

  /** Four digits of a year, most significant first. */
  lemma YearDigits(n: nat)
    ensures Digits(n, 4) ==
            [Digit(n / 10 / 10 / 10 % 10)] + [Digit(n / 10 / 10 % 10)] + [Digit(n / 10 % 10)] + [Digit(n % 10)]
  {
    DigitsStep(n, 3);
    DigitsStep(n / 10, 2);
    DigitsStep(n / 10 / 10, 1);
    DigitsStep(n / 10 / 10 / 10, 0);
    assert Digits(n / 10 / 10 / 10 / 10, 0) == "";
  }

  /** A name reads year before month, most significant digits first. */
  lemma NameReads(d: Month)
    requires Valid(d) && 1000 <= d.year
    ensures var name, y := Name(d), d.year;
      && |name| == 12 && name[..5] == "logs_" && name[9] == '_'
      && name[5..9] == [Digit(y / 10 / 10 / 10 % 10)] + [Digit(y / 10 / 10 % 10)] + [Digit(y / 10 % 10)] + [Digit(y % 10)]
      && name[10..] == [Digit(d.month / 10 % 10)] + [Digit(d.month % 10)]
  {
    YearDigits(d.year);
    DigitsStep(d.month, 1);
    DigitsStep(d.month / 10, 0);
    assert Digits(d.month / 10 / 10, 0) == "";
  }

  // ----------------------------------------------------------------------- store

  /** A partition FOR VALUES FROM (lo) TO (hi). */
  datatype Part = Part(lo: int, hi: int, rows: set<Row>) {
    predicate Covers(t: int) {
      lo <= t < hi
    }
  }

  /** The range partitions by table name, and the rows of `logs_default`. */
  datatype Store = Store(parts: map<string, Part>, rest: set<Row>)

  ghost predicate Disjoint(parts: map<string, Part>) {
    forall n, m, t :: n in parts && m in parts && parts[n].Covers(t) && parts[m].Covers(t) ==> n == m
  }

  /** Each row is in the one partition whose range contains its timestamp, else in default. */
  ghost predicate StoreOk(s: Store) {
    && Disjoint(s.parts)
    && (forall n, r :: n in s.parts && r in s.parts[n].rows ==> s.parts[n].Covers(At(r)))
    && (forall n, r :: n in s.parts && r in s.rest ==> !s.parts[n].Covers(At(r)))
  }

  function AllRows(s: Store): set<Row> {
    s.rest + set n, r | n in s.parts && r in s.parts[n].rows :: r
  }

  predicate HasKey(rows: set<Row>, r: Row) {
    exists q :: q in rows && KeyOf(q) == KeyOf(r)
  }

  function InsertInto(rows: set<Row>, r: Row): set<Row> {
    if HasKey(rows, r) then rows else rows + {r}
  }

  /** INSERT ... ON CONFLICT DO NOTHING: routed first, then checked in that partition only. */
  ghost function Insert(s: Store, r: Row): Store {
    if exists n :: n in s.parts && s.parts[n].Covers(At(r)) then
      var n :| n in s.parts && s.parts[n].Covers(At(r));
      s.(parts := s.parts[n := s.parts[n].(rows := InsertInto(s.parts[n].rows, r))])
    else s.(rest := InsertInto(s.rest, r))
  }

  /** CREATE TABLE IF NOT EXISTS ... PARTITION OF; None where PostgreSQL raises because the
      range overlaps another partition's or the default partition holds rows of it. */
  function Create(s: Store, name: string, lo: int, hi: int): Option<Store> {
    if name in s.parts then Some(s)
    else if exists n :: n in s.parts && s.parts[n].lo < hi && lo < s.parts[n].hi then None
    else if exists r :: r in s.rest && lo <= At(r) < hi then None
    else Some(s.(parts := s.parts[name := Part(lo, hi, {})]))
  }

  /** DROP TABLE IF EXISTS */
  function Drop(s: Store, name: string): Store {
    s.(parts := s.parts - {name})
  }

  lemma InsertKeepsStoreOk(s: Store, r: Row)
    requires StoreOk(s)
    ensures StoreOk(Insert(s, r))
  {}

  /** Partitioning is invisible to inserts: checking the key in one partition is checking it
      in the whole table, because equal keys have equal timestamps. */
  lemma InsertRefinesTable(s: Store, r: Row)
    requires StoreOk(s)
    ensures AllRows(Insert(s, r)) == InsertInto(AllRows(s), r)
  {
    forall q | q in AllRows(s) && KeyOf(q) == KeyOf(r)
      ensures At(q) == At(r)
    {}
    if exists n :: n in s.parts && s.parts[n].Covers(At(r)) {
      var t := Insert(s, r);
      var n :| n in s.parts && s.parts[n].Covers(At(r)) && t == s.(parts := s.parts[n := s.parts[n].(rows := InsertInto(s.parts[n].rows, r))]);
      assert HasKey(AllRows(s), r) <==> HasKey(s.parts[n].rows, r);
      forall q
        ensures q in AllRows(t) <==> q in AllRows(s) || (q == r && !HasKey(s.parts[n].rows, r))
      {
        if q in AllRows(s) && q !in s.rest {
          var m :| m in s.parts && q in s.parts[m].rows;
          assert m in t.parts && q in t.parts[m].rows;
        }
        if q in AllRows(t) && q !in t.rest {
          var m :| m in t.parts && q in t.parts[m].rows;
        }
        if q == r { assert n in t.parts; }
      }
    } else {
      assert HasKey(AllRows(s), r) <==> HasKey(s.rest, r);
    }
  }

  lemma CreateKeepsStoreOk(s: Store, name: string, lo: int, hi: int)
    requires StoreOk(s) && lo < hi && Create(s, name, lo, hi).Some?
    ensures StoreOk(Create(s, name, lo, hi).value)
    ensures AllRows(Create(s, name, lo, hi).value) == AllRows(s)
  {
    var t := Create(s, name, lo, hi).value;
    if name !in s.parts {
      assert t.parts.Keys == s.parts.Keys + {name};
      forall n | n in s.parts ensures t.parts[n] == s.parts[n] {}
    }
  }

  /** A drop loses exactly the rows of that partition. */
  lemma DropKeepsStoreOk(s: Store, name: string)
    requires StoreOk(s)
    ensures StoreOk(Drop(s, name))
    ensures AllRows(Drop(s, name)) == AllRows(s) - if name in s.parts then s.parts[name].rows else {}
  {
    var t := Drop(s, name);
    assert name in s.parts ==> forall q :: q in s.parts[name].rows ==> s.parts[name].Covers(At(q));
    forall r | r in AllRows(t)
      ensures r in AllRows(s) && (name in s.parts ==> r !in s.parts[name].rows)
    {
      if r !in t.rest {
        var n :| n in t.parts && r in t.parts[n].rows;
        assert n in s.parts && r in s.parts[n].rows;
      }
    }
    forall r | r in AllRows(s) && (name in s.parts ==> r !in s.parts[name].rows)
      ensures r in AllRows(t)
    {
      if r !in s.rest {
        var n :| n in s.parts && r in s.parts[n].rows;
        assert n in t.parts && r in t.parts[n].rows;
      }
    }
  }

  // --------------------------------------------------------------------- pruning

  predicate InRange(t: int, since: Option<int>, until: Option<int>) {
    (since.Some? ==> since.value <= t) && (until.Some? ==> t < until.value)
  }

  /** The planner keeps a range partition only if it overlaps [since, until). */
  predicate Overlaps(p: Part, since: Option<int>, until: Option<int>) {
    (since.Some? ==> since.value < p.hi) && (until.Some? ==> p.lo < until.value)
  }

  /** The rows found by scanning the default partition and the overlapping ones. */
  function PrunedScan(s: Store, since: Option<int>, until: Option<int>): set<Row> {
    (set r | r in s.rest && InRange(At(r), since, until))
    + set n, r | n in s.parts && Overlaps(s.parts[n], since, until) && r in s.parts[n].rows
                 && InRange(At(r), since, until) :: r
  }

  function FullScan(s: Store, since: Option<int>, until: Option<int>): set<Row> {
    set r | r in AllRows(s) && InRange(At(r), since, until)
  }

  lemma PrunedIsFull(s: Store, since: Option<int>, until: Option<int>)
    requires StoreOk(s)
    ensures PrunedScan(s, since, until) == FullScan(s, since, until)
  {}

  datatype Op = InsertRow(r: Row) | CreatePart(name: string, lo: int, hi: int) | DropPart(name: string)

  /** A statement that raises changes nothing. */
  ghost function Perform(s: Store, op: Op): Store {
    match op
    case InsertRow(r) => Insert(s, r)
    case CreatePart(name, lo, hi) =>
      if lo < hi && Create(s, name, lo, hi).Some? then Create(s, name, lo, hi).value else s
    case DropPart(name) => Drop(s, name)
  }

  ghost function PerformAll(s: Store, ops: seq<Op>): Store
    decreases |ops|
  {
    if ops == [] then s else PerformAll(Perform(s, ops[0]), ops[1..])
  }

  /** Pruned scan equals full scan, after any history of inserts, creations and drops. */
  lemma {:induction false} PruningIsSound(s: Store, ops: seq<Op>, since: Option<int>, until: Option<int>)
    requires StoreOk(s)
    ensures StoreOk(PerformAll(s, ops))
    ensures PrunedScan(PerformAll(s, ops), since, until) == FullScan(PerformAll(s, ops), since, until)
    decreases |ops|
  {
    if ops == [] {
      PrunedIsFull(s, since, until);
    } else {
      match ops[0] {
        case InsertRow(r) => InsertKeepsStoreOk(s, r);
        case CreatePart(name, lo, hi) =>
          if lo < hi && Create(s, name, lo, hi).Some? { CreateKeepsStoreOk(s, name, lo, hi); }
        case DropPart(name) => DropKeepsStoreOk(s, name);
      }
      PruningIsSound(Perform(s, ops[0]), ops[1..], since, until);
    }
  }

  // ----------------------------------------------------------------- maintenance

  /** A CREATE statement's table and range. */
  datatype Slot = Slot(name: string, lo: int, hi: int)

  /** The statement for a month, or None where computing it raises. */
  function MonthSlot(d: Month): Option<Slot>
    requires Valid(d)
  {
    match AddMonths(d, 1)
    case None => None
    case Some(e) => if d.year < 1000 then None else Some(Slot(Name(d), Start(Index(d)), Start(Index(e))))
  }

  /** The statement for the month `i` from now. */
  function SlotOf(now: Month, i: int): Option<Slot> {
    match AddMonths(now, i)
    case None => None
    case Some(d) => MonthSlot(d)
  }

  function Slots(now: Month, n: nat): seq<Option<Slot>> {
    seq(n, (i: nat) => SlotOf(now, i))
  }

  function CreateSlot(s: Store, slot: Option<Slot>): Option<Store> {
    if slot.None? then None else Create(s, slot.value.name, slot.value.lo, slot.value.hi)
  }

  /** What raises, whatever the reason: the connection, the i-th CREATE, listing the tables,
      and the names of the tables that a DROP leaves in place when it raises. */
  datatype Faults = Faults(connects: bool, creates: int -> Fault, lists: bool, stuck: set<string>)

  function CreateFaults(faults: Faults, n: nat): seq<Fault> {
    seq(n, (i: nat) => faults.creates(i))
  }

  /** The creation loop; on an error, what had been created before it. */
  function CreateAll(s: Store, slots: seq<Option<Slot>>, creates: seq<Fault>): (Store, bool)
    requires |creates| == |slots|
    decreases |slots|
  {
    if slots == [] then (s, true)
    else if creates[0].Before? || CreateSlot(s, slots[0]).None? then (s, false)
    else
      var t := CreateSlot(s, slots[0]).value;
      if creates[0].After? then (t, false) else CreateAll(t, slots[1..], creates[1..])
  }

  /** The retention rule for a table name. */
  predicate Expired(name: string, cutoff: int) {
    IsMonthly(name) && MonthOf(name).Some? && Index(MonthOf(name).value) < cutoff
  }

  /** A month's own table expires when the month is before the cutoff; no other table does. */
  lemma ExpiredIs(d: Month, cutoff: int)
    requires Valid(d) && 1000 <= d.year
    ensures Expired(Name(d), cutoff) <==> Index(d) < cutoff
    ensures !Expired("logs_default", cutoff)
  {
    NameRoundTrip(d);
    assert "logs_default"[9] == 'u';
  }

  /** The second pass: a DROP that raises is logged and passed over. */
  function DropExpired(s: Store, cutoff: int, stuck: set<string>): Store {
    s.(parts := map n | n in s.parts && (!Expired(n, cutoff) || n in stuck) :: s.parts[n])
  }

  /** What `manage_partitions` leaves, and whether it returned normally. */
  function Manage(s: Store, now: Month, createMonths: int, retainMonths: int, faults: Faults): (Store, bool) {
    if createMonths < 0 || retainMonths < 0 || !faults.connects then (s, false)
    else
      var (t, ok) := CreateAll(s, Slots(now, createMonths + 1), CreateFaults(faults, createMonths + 1));
      match AddMonths(now, -retainMonths)
      case Some(cutoff) =>
        if ok && faults.lists then (DropExpired(t, Index(cutoff), faults.stuck), true) else (t, false)
      case None => (t, false)
  }

  class Database {
    var store: Store

    constructor (store: Store)
      ensures this.store == store
    {
      this.store := store;
    }

    method CreateFuture(now: Month, n: nat, faults: Faults) returns (ok: bool)
      modifies this
      ensures (store, ok) == CreateAll(old(store), Slots(now, n), CreateFaults(faults, n))
    {
      ghost var slots, creates := Slots(now, n), CreateFaults(faults, n);
      for i := 0 to n
        invariant CreateAll(old(store), slots, creates) == CreateAll(store, slots[i..], creates[i..])
      {
        var slot := SlotOf(now, i);
        assert slots[i..][0] == slot && slots[i..][1..] == slots[i + 1..];
        assert creates[i..][0] == faults.creates(i) && creates[i..][1..] == creates[i + 1..];
        var created := CreateSlot(store, slot);
        if faults.creates(i).Before? || created.None? {
          return false;
        }
        store := created.value;
        if faults.creates(i).After? {
          return false;
        }
      }
      return true;
    }

    /** The child tables may be listed in any order. */
    method DropOld(cutoff: int, stuck: set<string>)
      modifies this
      ensures store == DropExpired(old(store), cutoff, stuck)
    {
      var listed := store.parts.Keys;
      while listed != {}
        invariant listed <= store.parts.Keys <= old(store).parts.Keys && store.rest == old(store).rest
        invariant forall n :: n in store.parts ==> store.parts[n] == old(store).parts[n]
        invariant forall n :: n in old(store).parts && n !in listed ==>
          (n in store.parts <==> !Expired(n, cutoff) || n in stuck)
        decreases listed
      {
        var name :| name in listed;
        listed := listed - {name};
        if IsMonthly(name) {
          var date := MonthOf(name);
          if date.Some? && Index(date.value) < cutoff && name !in stuck {
            store := Drop(store, name);
          }
        }
      }
      assert store.parts == DropExpired(old(store), cutoff, stuck).parts;
    }

    /** `manage_partitions`, with whatever raising. */
    method ManagePartitions(now: Month, createMonths: int, retainMonths: int, faults: Faults) returns (ok: bool)
      modifies this
      ensures (store, ok) == Manage(old(store), now, createMonths, retainMonths, faults)
    {
      ok := false;
      if createMonths < 0 || retainMonths < 0 || !faults.connects { return; }
      ok := CreateFuture(now, createMonths + 1, faults);
      var cutoff := AddMonths(now, -retainMonths);
      ok := ok && cutoff.Some? && faults.lists;
      if ok {
        DropOld(Index(cutoff.value), faults.stuck);
      }
    }
  }

  // ----------------------------------------- creation, for any table of names and ranges

  /** `span` says which range belongs to a name; the store agrees with it. */
  ghost predicate NamesAgree(s: Store, span: string -> Option<(int, int)>) {
    forall n :: n in s.parts && span(n).Some? ==> (s.parts[n].lo, s.parts[n].hi) == span(n).value
  }

  ghost predicate SlotsAgree(slots: seq<Option<Slot>>, span: string -> Option<(int, int)>) {
    forall i :: 0 <= i < |slots| && slots[i].Some? ==>
      var slot := slots[i].value;
      slot.lo < slot.hi && span(slot.name) == Some((slot.lo, slot.hi))
  }

  ghost predicate HasSlot(s: Store, slot: Option<Slot>) {
    && slot.Some? && slot.value.name in s.parts
    && s.parts[slot.value.name].lo == slot.value.lo && s.parts[slot.value.name].hi == slot.value.hi
  }

  ghost predicate HasSlots(s: Store, slots: seq<Option<Slot>>) {
    forall i :: 0 <= i < |slots| ==> HasSlot(s, slots[i])
  }

  ghost predicate Named(slots: seq<Option<Slot>>, n: string) {
    exists i :: 0 <= i < |slots| && slots[i].Some? && slots[i].value.name == n
  }

  /** Everything old is as it was, and what is new is empty and named by a slot. */
  ghost predicate Extends(s: Store, t: Store, slots: seq<Option<Slot>>) {
    && s.rest == t.rest
    && (forall n :: n in s.parts ==> n in t.parts && t.parts[n] == s.parts[n])
    && (forall n :: n in t.parts && n !in s.parts ==> t.parts[n].rows == {} && Named(slots, n))
  }

  lemma CreateSlotAdds(s: Store, slot: Slot, span: string -> Option<(int, int)>, t: Store)
    requires StoreOk(s) && NamesAgree(s, span) && slot.lo < slot.hi && span(slot.name) == Some((slot.lo, slot.hi))
    requires CreateSlot(s, Some(slot)) == Some(t)
    ensures StoreOk(t) && NamesAgree(t, span) && HasSlot(t, Some(slot)) && Extends(s, t, [Some(slot)])
  {
    CreateKeepsStoreOk(s, slot.name, slot.lo, slot.hi);
    assert [Some(slot)][0] == Some(slot);
  }

  lemma ExtendsChain(s: Store, t: Store, u: Store, slots: seq<Option<Slot>>)
    requires slots != [] && Extends(s, t, slots[..1]) && Extends(t, u, slots[1..])
    ensures Extends(s, u, slots)
  {}

  lemma {:induction false} CreateAllAdds(s: Store, slots: seq<Option<Slot>>, creates: seq<Fault>,
                                         span: string -> Option<(int, int)>, t: Store, ok: bool)
    requires StoreOk(s) && NamesAgree(s, span) && SlotsAgree(slots, span)
    requires |creates| == |slots| && CreateAll(s, slots, creates) == (t, ok)
    ensures StoreOk(t) && NamesAgree(t, span) && Extends(s, t, slots)
    ensures ok ==> HasSlots(t, slots)
    decreases |slots|
  {
    if slots != [] && !creates[0].Before? && CreateSlot(s, slots[0]).Some? {
      var u := CreateSlot(s, slots[0]).value;
      CreateSlotAdds(s, slots[0].value, span, u);
      assert slots[..1] == [slots[0]];
      if creates[0].After? {
        assert Extends(u, t, slots[1..]);
      } else {
        assert SlotsAgree(slots[1..], span);
        CreateAllAdds(u, slots[1..], creates[1..], span, t, ok);
        forall i | ok && 0 <= i < |slots|
          ensures HasSlot(t, slots[i])
        {
          if i > 0 { assert slots[1..][i - 1] == slots[i]; }
        }
      }
      ExtendsChain(s, u, t, slots);
    }
  }

  lemma {:induction false} CreateAllIdle(s: Store, slots: seq<Option<Slot>>, creates: seq<Fault>)
    requires HasSlots(s, slots) && |creates| == |slots|
    ensures CreateAll(s, slots, creates).0 == s
    ensures (forall i :: 0 <= i < |creates| ==> creates[i].Fine?) ==> CreateAll(s, slots, creates).1
    decreases |slots|
  {
    if slots != [] {
      assert HasSlot(s, slots[0]);
      assert HasSlots(s, slots[1..]);
      CreateAllIdle(s, slots[1..], creates[1..]);
    }
  }

  // ------------------------------------------------------ creation, with the calendar

  /** The range that belongs to a monthly name. */
  function MonthSpan(name: string): Option<(int, int)> {
    if IsMonthly(name) && MonthOf(name).Some? then
      Some((Start(Index(MonthOf(name).value)), Start(Index(MonthOf(name).value) + 1)))
    else None
  }

  /** The slot of a month is that month: by its range, and by its name read back. */
  ghost predicate IsSlotOf(slot: Slot, index: int) {
    && slot.lo == Start(index) && slot.hi == Start(index + 1) && slot.lo < slot.hi
    && IsMonthly(slot.name) && MonthOf(slot.name).Some? && Index(MonthOf(slot.name).value) == index
  }

  lemma MonthSlotIs(d: Month)
    requires Valid(d) && MonthSlot(d).Some?
    ensures IsSlotOf(MonthSlot(d).value, Index(d))
  {
    AddMonthsMoves(d, 1);
    NameRoundTrip(d);
    assert MonthSlot(d).value == Slot(Name(d), Start(Index(d)), Start(Index(d) + 1));
  }

  lemma SlotIsMonth(now: Month, i: int)
    requires SlotOf(now, i).Some?
    ensures IsSlotOf(SlotOf(now, i).value, Index(now) + i)
  {
    AddMonthsMoves(now, i);
    MonthSlotIs(AddMonths(now, i).value);
  }

  lemma MonthSlotsAgree(now: Month, n: nat)
    ensures SlotsAgree(Slots(now, n), MonthSpan)
  {
    var slots := Slots(now, n);
    forall i | 0 <= i < |slots| && slots[i].Some?
      ensures var slot := slots[i].value;
        slot.lo < slot.hi && MonthSpan(slot.name) == Some((slot.lo, slot.hi))
    {
      SlotIsMonth(now, i);
    }
  }

  /** Every row is where it belongs, and every monthly table holds the month of its name. */
  ghost predicate Healthy(s: Store) {
    StoreOk(s) && NamesAgree(s, MonthSpan)
  }

  lemma DropKeepsHealth(s: Store, cutoff: int, stuck: set<string>)
    requires Healthy(s)
    ensures Healthy(DropExpired(s, cutoff, stuck))
  {}

  /** No created table is older than the cutoff. */
  lemma SlotNotExpired(now: Month, n: nat, name: string, cutoff: int)
    requires Named(Slots(now, n), name) && cutoff <= Index(now)
    ensures !Expired(name, cutoff)
  {
    var i :| 0 <= i < n && Slots(now, n)[i].Some? && Slots(now, n)[i].value.name == name;
    SlotIsMonth(now, i);
  }

  /** So retention keeps every one of them. */
  lemma CreatedNotExpired(s: Store, now: Month, n: nat, cutoff: int, stuck: set<string>)
    requires HasSlots(s, Slots(now, n)) && cutoff <= Index(now)
    ensures HasSlots(DropExpired(s, cutoff, stuck), Slots(now, n))
  {
    var slots := Slots(now, n);
    forall i | 0 <= i < |slots|
      ensures HasSlot(DropExpired(s, cutoff, stuck), slots[i])
    {
      assert HasSlot(s, slots[i]);
      SlotIsMonth(now, i);
    }
  }

  /** A run that returns, taken apart: the cutoff, and the store between the two passes. */
  lemma ManageSteps(s: Store, now: Month, createMonths: int, retainMonths: int, faults: Faults, t: Store)
    returns (u: Store, cutoff: int)
    requires Manage(s, now, createMonths, retainMonths, faults) == (t, true)
    ensures createMonths >= 0 && retainMonths >= 0 && cutoff == Index(now) - retainMonths
    ensures CreateAll(s, Slots(now, createMonths + 1), CreateFaults(faults, createMonths + 1)) == (u, true)
    ensures t == DropExpired(u, cutoff, faults.stuck)
    ensures AddMonths(now, -retainMonths).Some? && Index(AddMonths(now, -retainMonths).value) == cutoff
  {
    AddMonthsMoves(now, -retainMonths);
    u := CreateAll(s, Slots(now, createMonths + 1), CreateFaults(faults, createMonths + 1)).0;
    cutoff := Index(now) - retainMonths;
  }

  /** Partition maintenance: a run that returns has a table for each month from the current one
      on, over exactly that month, and adds only those months; of the old tables it keeps all
      that are not expired, with their rows, and an expired one if and only if its DROP raised;
      the default partition is untouched. */
  lemma ManageResult(s: Store, now: Month, createMonths: int, retainMonths: int, faults: Faults, t: Store)
    requires Healthy(s) && Manage(s, now, createMonths, retainMonths, faults) == (t, true)
    ensures createMonths >= 0 && retainMonths >= 0
    ensures Healthy(t) && t.rest == s.rest && HasSlots(t, Slots(now, createMonths + 1))
    ensures forall n :: n in s.parts ==>
      (n in t.parts <==> !Expired(n, Index(now) - retainMonths) || n in faults.stuck)
    ensures forall n :: n in t.parts && n in s.parts ==> t.parts[n] == s.parts[n]
    ensures forall n :: n in t.parts && n !in s.parts ==>
      t.parts[n].rows == {} && Named(Slots(now, createMonths + 1), n)
  {
    var u, cutoff := ManageSteps(s, now, createMonths, retainMonths, faults, t);
    MonthSlotsAgree(now, createMonths + 1);
    CreateAllAdds(s, Slots(now, createMonths + 1), CreateFaults(faults, createMonths + 1), MonthSpan, u, true);
    CreatedNotExpired(u, now, createMonths + 1, cutoff, faults.stuck);
    DropKeepsHealth(u, cutoff, faults.stuck);
  }

  /** When retention is enforced, exactly: a run that returns leaves no expired table if and
      only if no DROP of one raised. */
  lemma RetentionExactly(s: Store, now: Month, createMonths: int, retainMonths: int, faults: Faults, t: Store)
    requires Healthy(s) && Manage(s, now, createMonths, retainMonths, faults) == (t, true)
    ensures (forall n :: n in t.parts ==> !Expired(n, Index(now) - retainMonths)) <==>
            (forall n :: n in s.parts && n in faults.stuck ==> !Expired(n, Index(now) - retainMonths))
  {
    ManageResult(s, now, createMonths, retainMonths, faults, t);
    forall n | n in t.parts && n !in s.parts
      ensures !Expired(n, Index(now) - retainMonths)
    {
      SlotNotExpired(now, createMonths + 1, n, Index(now) - retainMonths);
    }
  }

  /** A run that raises stops before the second pass, or before the first. */
  lemma ManageStops(s: Store, now: Month, createMonths: nat, retainMonths: int, faults: Faults, t: Store)
    requires Manage(s, now, createMonths, retainMonths, faults) == (t, false)
    ensures t == s || t == CreateAll(s, Slots(now, createMonths + 1), CreateFaults(faults, createMonths + 1)).0
  {}

  lemma SlotsCreated(s: Store, now: Month, n: nat, creates: seq<Fault>)
    requires Healthy(s) && |creates| == n
    ensures Healthy(CreateAll(s, Slots(now, n), creates).0)
    ensures Extends(s, CreateAll(s, Slots(now, n), creates).0, Slots(now, n))
  {
    var (u, ok) := CreateAll(s, Slots(now, n), creates);
    MonthSlotsAgree(now, n);
    CreateAllAdds(s, Slots(now, n), creates, MonthSpan, u, ok);
  }

  /** A run that raises, for whatever reason, has dropped nothing and changed no existing table. */
  lemma ManageFailure(s: Store, now: Month, createMonths: nat, retainMonths: int, faults: Faults, t: Store)
    requires Healthy(s) && Manage(s, now, createMonths, retainMonths, faults) == (t, false)
    ensures Healthy(t) && Extends(s, t, Slots(now, createMonths + 1))
  {
    ManageStops(s, now, createMonths, retainMonths, faults, t);
    SlotsCreated(s, now, createMonths + 1, CreateFaults(faults, createMonths + 1));
  }

  lemma SlotCovers(s: Store, slot: Slot, at: int)
    requires StoreOk(s) && HasSlot(s, Some(slot)) && slot.lo <= at < slot.hi
    ensures s.parts[slot.name].Covers(at)
    ensures forall m :: m in s.parts && s.parts[m].Covers(at) ==> m == slot.name
  {}

  ghost predicate CoveredOnce(s: Store, at: int) {
    exists n :: n in s.parts && s.parts[n].Covers(at) && forall m :: m in s.parts && s.parts[m].Covers(at) ==> m == n
  }

  lemma SlotsCover(s: Store, now: Month, months: nat, at: int, i: int)
    requires StoreOk(s) && HasSlots(s, Slots(now, months)) && 0 <= i < months
    requires Start(Index(now) + i) <= at < Start(Index(now) + i + 1)
    ensures CoveredOnce(s, at)
  {
    var slot := Slots(now, months)[i];
    assert HasSlot(s, slot);
    SlotIsMonth(now, i);
    SlotCovers(s, slot.value, at);
  }

  /** The created ranges leave no gap and no overlap: every instant from the start of the
      current month to the end of the last one lies in exactly one range partition. */
  lemma ManageCovers(s: Store, now: Month, createMonths: nat, retainMonths: int, faults: Faults, t: Store, at: int)
    requires Healthy(s) && Manage(s, now, createMonths, retainMonths, faults) == (t, true)
    requires Start(Index(now)) <= at < Start(Index(now) + createMonths + 1)
    ensures CoveredOnce(t, at)
  {
    ManageLeaves(s, now, createMonths, retainMonths, faults, t);
    var i := MonthOfInstant(at, Index(now), createMonths);
    SlotsCover(t, now, createMonths + 1, at, i);
  }

  lemma ManageLeaves(s: Store, now: Month, createMonths: nat, retainMonths: int, faults: Faults, t: Store)
    requires Healthy(s) && Manage(s, now, createMonths, retainMonths, faults) == (t, true)
    ensures StoreOk(t) && HasSlots(t, Slots(now, createMonths + 1))
  {
    ManageResult(s, now, createMonths, retainMonths, faults, t);
  }

  lemma MonthOfInstant(at: int, first: int, months: int) returns (i: int)
    requires Start(first) <= at < Start(first + months + 1)
    ensures 0 <= i <= months && Start(first + i) <= at < Start(first + i + 1)
  {
    i := at / MONTH_SPAN - first;
  }

  lemma AgainIdle(t: Store, now: Month, createMonths: int, retainMonths: int, again: Faults)
    requires createMonths >= 0 && HasSlots(t, Slots(now, createMonths + 1))
    ensures var (u, ok) := Manage(t, now, createMonths, retainMonths, again);
      u == if ok then DropExpired(t, Index(now) - retainMonths, again.stuck) else t
  {
    AddMonthsMoves(now, -retainMonths);
    CreateAllIdle(t, Slots(now, createMonths + 1), CreateFaults(again, createMonths + 1));
  }

  lemma DropsNothing(t: Store, cutoff: int, stuck: set<string>)
    ensures DropExpired(t, cutoff, stuck) == t <==> forall n :: n in t.parts && Expired(n, cutoff) ==> n in stuck
  {
    var u := DropExpired(t, cutoff, stuck);
    if forall n :: n in t.parts && Expired(n, cutoff) ==> n in stuck {
      assert u.parts == t.parts;
    }
  }

  /** Running it again in the same month, with other faults, at most drops expired tables whose
      DROP had raised; it changes nothing if and only if it raises, or none of them goes now. */
  lemma ManageAgain(s: Store, now: Month, createMonths: int, retainMonths: int, faults: Faults, t: Store,
                    again: Faults, u: Store, ok: bool, cutoff: int)
    requires Healthy(s) && Manage(s, now, createMonths, retainMonths, faults) == (t, true)
    requires Manage(t, now, createMonths, retainMonths, again) == (u, ok) && cutoff == Index(now) - retainMonths
    ensures u == if ok then DropExpired(t, cutoff, again.stuck) else t
    ensures forall n :: n in t.parts && Expired(n, cutoff) <==> n in s.parts && n in faults.stuck && Expired(n, cutoff)
    ensures u == t <==>
      !ok || forall n :: n in s.parts && n in faults.stuck && Expired(n, cutoff) ==> n in again.stuck
  {
    ManageResult(s, now, createMonths, retainMonths, faults, t);
    AgainIdle(t, now, createMonths, retainMonths, again);
    DropsNothing(t, cutoff, again.stuck);
    forall n | n in t.parts && n !in s.parts
      ensures !Expired(n, cutoff)
    {
      SlotNotExpired(now, createMonths + 1, n, cutoff);
    }
  }

  /** Without DROPs that raise, running it again in the same month changes nothing. */
  lemma ManageIdempotent(s: Store, now: Month, createMonths: int, retainMonths: int, faults: Faults, t: Store, again: Faults)
    requires Healthy(s) && Manage(s, now, createMonths, retainMonths, faults) == (t, true)
    requires faults.stuck == {}
    ensures Manage(t, now, createMonths, retainMonths, again).0 == t
  {
    var (u, ok) := Manage(t, now, createMonths, retainMonths, again);
    ManageAgain(s, now, createMonths, retainMonths, faults, t, again, u, ok, Index(now) - retainMonths);
  }

  /** Nothing raises but, perhaps, the DROPs of the given tables. */
  function OnlyDropsRaise(stuck: set<string>): Faults {
    Faults(true, (i: int) => Fine, true, stuck)
  }

  /** Whether a run returns does not depend on the DROPs. */
  lemma DropsDoNotRaise(s: Store, now: Month, createMonths: int, retainMonths: int, stuck: set<string>)
    ensures Manage(s, now, createMonths, retainMonths, OnlyDropsRaise(stuck)).1 ==
            Manage(s, now, createMonths, retainMonths, OnlyDropsRaise({})).1
  {
    if createMonths >= 0 {
      assert CreateFaults(OnlyDropsRaise(stuck), createMonths + 1) == CreateFaults(OnlyDropsRaise({}), createMonths + 1);
    }
  }

  /** A CREATE for this slot goes through: the table exists, or no partition overlaps the range
      and the default partition has no row in it. */
  predicate Fits(s: Store, slot: Slot) {
    || slot.name in s.parts
    || ((forall n :: n in s.parts ==> s.parts[n].hi <= slot.lo || slot.hi <= s.parts[n].lo)
        && forall r :: r in s.rest ==> !(slot.lo <= At(r) < slot.hi))
  }

  /** Slots with different names and ranges in order. */
  ghost predicate Apart(slots: seq<Option<Slot>>) {
    && (forall i :: 0 <= i < |slots| && slots[i].Some? ==> slots[i].value.lo < slots[i].value.hi)
    && forall i, j :: 0 <= i < j < |slots| && slots[i].Some? && slots[j].Some? ==>
         slots[i].value.name != slots[j].value.name && slots[i].value.hi <= slots[j].value.lo
  }

  lemma CreateFits(s: Store, slot: Slot)
    requires slot.lo < slot.hi
    ensures CreateSlot(s, Some(slot)).Some? <==>
      slot.name in s.parts ||
      ((forall n :: n in s.parts ==> !(s.parts[n].lo < slot.hi && slot.lo < s.parts[n].hi))
       && forall r :: r in s.rest ==> !(slot.lo <= At(r) < slot.hi))
  {}

  /** Creating one slot does not get in the way of another. */
  lemma FitsStays(s: Store, first: Slot, slot: Slot, t: Store)
    requires CreateSlot(s, Some(first)) == Some(t) && first.name != slot.name && first.hi <= slot.lo
    ensures Fits(t, slot) <==> Fits(s, slot)
  {
    if first.name !in s.parts {
      forall n | n in s.parts ensures t.parts[n] == s.parts[n] {}
      assert t.parts[first.name].hi <= slot.lo;
    }
  }

  lemma {:induction false} CreateAllReturns(s: Store, slots: seq<Option<Slot>>, creates: seq<Fault>)
    requires |creates| == |slots| && Apart(slots) && forall i :: 0 <= i < |creates| ==> creates[i].Fine?
    ensures CreateAll(s, slots, creates).1 <==>
      forall i :: 0 <= i < |slots| ==> slots[i].Some? && Fits(s, slots[i].value)
    decreases |slots|
  {
    if slots != [] && slots[0].Some? {
      var first := slots[0].value;
      CreateFits(s, first);
      if CreateSlot(s, slots[0]).Some? {
        var t := CreateSlot(s, slots[0]).value;
        assert Apart(slots[1..]);
        CreateAllReturns(t, slots[1..], creates[1..]);
        assert Fits(s, first);
        forall i | 1 <= i < |slots| && slots[i].Some?
          ensures Fits(t, slots[i].value) <==> Fits(s, slots[i].value)
        {
          FitsStays(s, first, slots[i].value, t);
        }
        assert forall i :: 0 <= i < |slots[1..]| ==> slots[1..][i] == slots[i + 1];
        assert forall i :: 1 <= i < |slots| ==> slots[i] == slots[1..][i - 1];
      } else {
        assert !Fits(s, first);
      }
    }
  }

  lemma LaterSlot(a: Slot, i: int, b: Slot, j: int)
    requires IsSlotOf(a, i) && IsSlotOf(b, j) && i < j
    ensures a.name != b.name && a.hi <= b.lo
  {}

  lemma InMonthOrder(slots: seq<Option<Slot>>, base: int)
    requires forall i :: 0 <= i < |slots| && slots[i].Some? ==> IsSlotOf(slots[i].value, base + i)
    ensures Apart(slots)
  {
    forall i, j | 0 <= i < j < |slots| && slots[i].Some? && slots[j].Some?
      ensures slots[i].value.name != slots[j].value.name && slots[i].value.hi <= slots[j].value.lo
    {
      LaterSlot(slots[i].value, base + i, slots[j].value, base + j);
    }
  }

  lemma MonthSlotsApart(now: Month, n: nat)
    ensures Apart(Slots(now, n))
  {
    var slots := Slots(now, n);
    forall i | 0 <= i < |slots| && slots[i].Some?
      ensures IsSlotOf(slots[i].value, Index(now) + i)
    {
      SlotIsMonth(now, i);
    }
    InMonthOrder(slots, Index(now));
  }

  /** A month's statement exists from year 1000 up to November 9999. */
  lemma SlotExists(now: Month, i: int)
    ensures SlotOf(now, i).Some? <==> 12 * 1000 <= Index(now) + i < 12 * 10000 - 1
  {
    AddMonthsMoves(now, i);
    if AddMonths(now, i).Some? { AddMonthsMoves(AddMonths(now, i).value, 1); }
  }

  /** When maintenance returns, exactly, if the database refuses nothing but DROPs: the arguments
      are not negative, the cutoff is in the calendar, and every month from now on fits. */
  lemma ManageReturns(s: Store, now: Month, createMonths: int, retainMonths: int, stuck: set<string>)
    ensures Manage(s, now, createMonths, retainMonths, OnlyDropsRaise(stuck)).1 <==>
      && createMonths >= 0 && retainMonths >= 0
      && 12 <= Index(now) - retainMonths < 120000
      && forall i :: 0 <= i <= createMonths ==> SlotOf(now, i).Some? && Fits(s, SlotOf(now, i).value)
  {
    if createMonths >= 0 && retainMonths >= 0 {
      var slots, creates := Slots(now, createMonths + 1), CreateFaults(OnlyDropsRaise(stuck), createMonths + 1);
      MonthSlotsApart(now, createMonths + 1);
      CreateAllReturns(s, slots, creates);
      AddMonthsMoves(now, -retainMonths);
      assert forall i :: 0 <= i <= createMonths ==> slots[i] == SlotOf(now, i);
    }
  }

  /** Where retention fails: wherever a run returns, it does so too if the DROP of an expired
      table raises; then that table stays, with its rows, and a later run without fault drops it. */
  lemma RaisingDropKeepsExpired(s: Store, now: Month, createMonths: int, retainMonths: int, name: string)
    requires Healthy(s) && name in s.parts && Expired(name, Index(now) - retainMonths)
    requires Manage(s, now, createMonths, retainMonths, OnlyDropsRaise({})).1
    ensures var (t, ok) := Manage(s, now, createMonths, retainMonths, OnlyDropsRaise({name}));
      && ok && name in t.parts && t.parts[name] == s.parts[name]
      && var (u, again) := Manage(t, now, createMonths, retainMonths, OnlyDropsRaise({}));
         again && name !in u.parts
  {
    DropsDoNotRaise(s, now, createMonths, retainMonths, {name});
    var t := Manage(s, now, createMonths, retainMonths, OnlyDropsRaise({name})).0;
    ManageResult(s, now, createMonths, retainMonths, OnlyDropsRaise({name}), t);
    CreateAllIdle(t, Slots(now, createMonths + 1), CreateFaults(OnlyDropsRaise({}), createMonths + 1));
    var u := Manage(t, now, createMonths, retainMonths, OnlyDropsRaise({})).0;
    ManageResult(t, now, createMonths, retainMonths, OnlyDropsRaise({}), u);
  }

  /** A store with one table. */
  function Sole(name: string, part: Part): Store {
    Store(map[name := part], {})
  }

  lemma SoleHealthy(d: Month, part: Part, cutoff: int)
    requires Valid(d) && 1000 <= d.year && Index(d) < cutoff
    requires part.lo == Start(Index(d)) && part.hi == Start(Index(d) + 1)
    requires forall r :: r in part.rows ==> part.Covers(At(r))
    ensures Healthy(Sole(Name(d), part)) && Expired(Name(d), cutoff)
  {
    NameRoundTrip(d);
  }

  /** Such a run: with the table of an old month only, keeping one month. */
  lemma RunReturns(now: Month, d: Month, part: Part)
    requires Valid(now) && Valid(d) && 1000 <= d.year <= now.year < 9999 && Index(d) < Index(now) - 1
    requires part.lo == Start(Index(d)) && part.hi == Start(Index(d) + 1)
    requires forall r :: r in part.rows ==> part.Covers(At(r))
    ensures Healthy(Sole(Name(d), part)) && Expired(Name(d), Index(now) - 1)
    ensures Manage(Sole(Name(d), part), now, 0, 1, OnlyDropsRaise({})).1
  {
    SoleHealthy(d, part, Index(now) - 1);
    var slot := NowFits(now, Name(d), part);
    OneMonthReturns(Sole(Name(d), part), now, slot);
  }

  /** A concrete family of runs that return normally and leave an expired table with its rows. */
  lemma RetentionFails(now: Month, d: Month, part: Part)
    requires Valid(now) && Valid(d) && 1000 <= d.year <= now.year < 9999 && Index(d) < Index(now) - 1
    requires part.lo == Start(Index(d)) && part.hi == Start(Index(d) + 1)
    requires forall r :: r in part.rows ==> part.Covers(At(r))
    ensures Expired(Name(d), Index(now) - 1)
    ensures var (t, ok) := Manage(Sole(Name(d), part), now, 0, 1, OnlyDropsRaise({Name(d)}));
      ok && Name(d) in t.parts && t.parts[Name(d)] == part
  {
    RunReturns(now, d, part);
    RaisingDropKeepsExpired(Sole(Name(d), part), now, 0, 1, Name(d));
  }

  lemma NowFits(now: Month, name: string, part: Part) returns (slot: Slot)
    requires Valid(now) && 1000 <= now.year < 9999 && part.hi <= Start(Index(now))
    ensures SlotOf(now, 0) == Some(slot) && Fits(Sole(name, part), slot)
  {
    SlotExists(now, 0);
    SlotIsMonth(now, 0);
    slot := SlotOf(now, 0).value;
  }

  lemma OneMonthReturns(s: Store, now: Month, slot: Slot)
    requires SlotOf(now, 0) == Some(slot) && Fits(s, slot) && 13 <= Index(now) < 120000
    ensures Manage(s, now, 0, 1, OnlyDropsRaise({})).1
  {
    ManageReturns(s, now, 0, 1, {});
  }
}
