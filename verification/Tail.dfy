/** The polling loop of `logfoundry tail`: each poll asks for entries from a moving cursor
    on, and a bounded dictionary of recently printed ids filters out repetitions. */
module Tail {
  import opened Wrappers

  /** The dictionary is cut to its newest KEEP ids when it has more than CAP. */
  const CAP: nat := 10000
  const KEEP: nat := 5000

  datatype Entry = Entry(id: Option<string>, timestamp: Option<int>)

  /** `entry_id` is present and not empty. */
  predicate Identified(e: Entry) {
    e.id.Some? && e.id.value != ""
  }

  /** A reply of the query endpoint: newest first, nothing before the cursor, at most `limit`
      entries, and an entry's id determines its timestamp. */
  predicate GoodReply(reply: seq<Entry>, since: Option<int>, limit: nat, tsOf: string -> int) {
    && |reply| <= limit
    && (forall i :: 0 <= i < |reply| && Identified(reply[i]) ==>
          && reply[i].timestamp == Some(tsOf(reply[i].id.value))
          && (since.Some? ==> since.value <= tsOf(reply[i].id.value)))
    && (forall i, j :: 0 <= i < j < |reply| && Identified(reply[i]) && Identified(reply[j]) ==>
          tsOf(reply[j].id.value) <= tsOf(reply[i].id.value))
  }

  predicate Distinct(s: seq<string>) {
    forall i, j :: 0 <= i < j < |s| ==> s[i] != s[j]
  }

  /** The ids of a reply that are not in `seen`, each once, in reply order. */
  function Fresh(reply: seq<Entry>, seen: seq<string>): seq<string> {
    if reply == [] then []
    else
      var front := Fresh(reply[..|reply| - 1], seen);
      var e := reply[|reply| - 1];
      if Identified(e) && e.id.value !in seen && e.id.value !in front then front + [e.id.value] else front
  }

  lemma {:induction false} FreshIs(reply: seq<Entry>, seen: seq<string>)
    ensures var f := Fresh(reply, seen);
      && |f| <= |reply| && Distinct(f)
      && forall id :: id in f <==> id !in seen && InReply(reply, id)
    decreases |reply|
  {
    if reply != [] {
      var n := |reply| - 1;
      FreshIs(reply[..n], seen);
      assert reply == reply[..n] + [reply[n]];
    }
  }

  lemma {:induction false} FreshSorted(reply: seq<Entry>, seen: seq<string>, since: Option<int>, limit: nat, tsOf: string -> int)
    requires GoodReply(reply, since, limit, tsOf)
    ensures var f := Fresh(reply, seen);
      && (forall i, j :: 0 <= i < j < |f| ==> tsOf(f[j]) <= tsOf(f[i]))
      && (forall i :: 0 <= i < |f| && since.Some? ==> since.value <= tsOf(f[i]))
    decreases |reply|
  {
    if reply != [] {
      var n := |reply| - 1;
      var front := reply[..n];
      assert forall i :: 0 <= i < n ==> front[i] == reply[i];
      FreshSorted(front, seen, since, limit, tsOf);
      FreshIs(front, seen);
      var f := Fresh(front, seen);
      forall i | 0 <= i < |f| && Identified(reply[n])
        ensures tsOf(reply[n].id.value) <= tsOf(f[i])
      {
        assert f[i] in f;
      }
    }
  }

  function Reverse(s: seq<string>): seq<string> {
    if s == [] then [] else Reverse(s[1..]) + [s[0]]
  }

  lemma {:induction false} ReverseIs(s: seq<string>)
    ensures |Reverse(s)| == |s|
    ensures forall id :: id in Reverse(s) <==> id in s
    ensures Distinct(s) ==> Distinct(Reverse(s))
    decreases |s|
  {
    if s != [] {
      ReverseIs(s[1..]);
      assert s == [s[0]] + s[1..];
      assert Distinct(s) ==> s[0] !in s[1..];
    }
  }

  lemma {:induction false} ReverseAt(s: seq<string>, k: nat)
    requires k < |s|
    ensures |Reverse(s)| == |s| && Reverse(s)[k] == s[|s| - 1 - k]
    decreases |s|
  {
    ReverseIs(s);
    ReverseIs(s[1..]);
    if k < |s| - 1 {
      ReverseAt(s[1..], k);
    }
  }

  /** Printed in the order of their timestamps. */
  ghost predicate Ascending(printed: seq<string>, tsOf: string -> int) {
    forall i, j :: 0 <= i < j < |printed| ==> tsOf(printed[i]) <= tsOf(printed[j])
  }

  lemma ReverseAscends(f: seq<string>, tsOf: string -> int)
    requires forall i, j :: 0 <= i < j < |f| ==> tsOf(f[j]) <= tsOf(f[i])
    ensures Ascending(Reverse(f), tsOf)
  {
    ReverseIs(f);
    var r := Reverse(f);
    forall i, j | 0 <= i < j < |r|
      ensures tsOf(r[i]) <= tsOf(r[j])
    {
      ReverseAt(f, i);
      ReverseAt(f, j);
    }
  }

  lemma AscendingJoin(a: seq<string>, b: seq<string>, tsOf: string -> int)
    requires Ascending(a, tsOf) && Ascending(b, tsOf)
    requires forall x, y :: x in a && y in b ==> tsOf(x) <= tsOf(y)
    ensures Ascending(a + b, tsOf)
  {
    var all := a + b;
    forall i, j | 0 <= i < j < |all|
      ensures tsOf(all[i]) <= tsOf(all[j])
    {
      assert i < |a| ==> all[i] in a;
      assert |a| <= j ==> all[j] in b;
    }
  }

  // ---------------------------------------------------------- what eviction keeps

  ghost predicate InStretch(seen: seq<string>, start: nat, id: string) {
    exists i :: start <= i < |seen| && seen[i] == id
  }

  /** The cursor is the newest timestamp printed. */
  ghost predicate Cursor(printed: seq<string>, since: Option<int>, tsOf: string -> int) {
    && since.Some?
    && (forall id :: id in printed ==> tsOf(id) <= since.value)
    && (exists id :: id in printed && tsOf(id) == since.value)
  }

  /** The key invariant: the cursor is the newest timestamp printed, and every id printed at
      that timestamp is in a recent stretch of `seen`, made of at most `limit` ids of one
      poll followed by ids of exactly that timestamp. */
  ghost predicate Recent(seen: seq<string>, printed: seq<string>, since: Option<int>, start: nat, base: nat,
                         limit: nat, tsOf: string -> int) {
    && Distinct(seen)
    && (forall id :: id in seen ==> id in printed)
    && (printed != [] ==>
          && Cursor(printed, since, tsOf)
          && base <= limit && start + base <= |seen|
          && (forall id :: id in printed && tsOf(id) == since.value ==> InStretch(seen, start, id))
          && (forall i :: start + base <= i < |seen| ==> tsOf(seen[i]) == since.value))
  }

  /** Ids the server knows with a given timestamp. */
  function SameTime(ids: set<string>, tsOf: string -> int, t: int): set<string> {
    set id | id in ids && tsOf(id) == t
  }

  lemma {:induction false} DistinctCount(s: seq<string>, ids: set<string>)
    requires Distinct(s) && forall i :: 0 <= i < |s| ==> s[i] in ids
    ensures |s| <= |ids|
    decreases |s|
  {
    if s != [] {
      var n := |s| - 1;
      DistinctCount(s[..n], ids - {s[n]});
    }
  }

  /** The stretch is short, so cutting `seen` to its newest KEEP ids keeps it. */
  lemma EvictionKeepsRecent(seen: seq<string>, printed: seq<string>, since: Option<int>, start: nat, base: nat,
                            limit: nat, k: nat, ids: set<string>, tsOf: string -> int) returns (start': nat)
    requires Recent(seen, printed, since, start, base, limit, tsOf) && |seen| > CAP
    requires forall id :: id in printed ==> id in ids
    requires forall t :: |SameTime(ids, tsOf, t)| <= k
    requires limit + k <= KEEP
    ensures Recent(seen[|seen| - KEEP..], printed, since, start', base, limit, tsOf)
  {
    var cut := |seen| - KEEP;
    assert seen[0] in printed;
    var stretch := seen[start + base..];
    forall i | 0 <= i < |stretch|
      ensures stretch[i] in SameTime(ids, tsOf, since.value)
    {
      assert stretch[i] == seen[start + base + i] && seen[start + base + i] in printed;
    }
    DistinctCount(stretch, SameTime(ids, tsOf, since.value));
    start' := start - cut;
    var kept := seen[cut..];
    forall id | id in printed && tsOf(id) == since.value
      ensures InStretch(kept, start', id)
    {
      var i :| start <= i < |seen| && seen[i] == id;
      assert kept[i - cut] == id;
    }
  }

  lemma DistinctJoin(a: seq<string>, b: seq<string>)
    requires Distinct(a) && Distinct(b) && forall id :: id in b ==> id !in a
    ensures Distinct(a + b)
  {
    forall i, j | 0 <= i < j < |a + b|
      ensures (a + b)[i] != (a + b)[j]
    {
      if i < |a| <= j { assert b[j - |a|] in b && a[i] in a; }
    }
  }

  /** What is fresh was never printed before, evicted or not. */
  lemma FreshNotPrinted(reply: seq<Entry>, seen: seq<string>, printed: seq<string>, since: Option<int>, start: nat, base: nat,
                        limit: nat, tsOf: string -> int)
    requires GoodReply(reply, since, limit, tsOf)
    requires Recent(seen, printed, since, start, base, limit, tsOf)
    ensures forall id :: id in Fresh(reply, seen) ==> id !in printed
  {}

  /** Newer ids move the cursor to the first of them, and only they are that new. */
  lemma CursorMoves(f: seq<string>, printed: seq<string>, since: Option<int>, tsOf: string -> int)
    requires f != [] && (printed != [] ==> Cursor(printed, since, tsOf) && since.value < tsOf(f[0]))
    requires forall i, j :: 0 <= i < j < |f| ==> tsOf(f[j]) <= tsOf(f[i])
    ensures Cursor(printed + Reverse(f), Some(tsOf(f[0])), tsOf)
    ensures forall id :: id in printed + Reverse(f) && tsOf(id) == tsOf(f[0]) ==> id in f
  {
    ReverseIs(f);
    assert f[0] in printed + Reverse(f);
    forall id | id in printed + Reverse(f)
      ensures tsOf(id) <= tsOf(f[0]) && (tsOf(id) == tsOf(f[0]) ==> id in f)
    {
      assert id in printed || id in f;
    }
  }

  /** A poll that moves the cursor starts a new stretch. */
  lemma NewStretch(f: seq<string>, seen: seq<string>, printed: seq<string>, since: Option<int>, start: nat, base: nat,
                   limit: nat, tsOf: string -> int)
    requires Recent(seen, printed, since, start, base, limit, tsOf)
    requires f != [] && |f| <= limit && Distinct(seen + f)
    requires forall i, j :: 0 <= i < j < |f| ==> tsOf(f[j]) <= tsOf(f[i])
    requires printed == [] || since.value < tsOf(f[0])
    ensures Recent(seen + f, printed + Reverse(f), Some(tsOf(f[0])), |seen|, |f|, limit, tsOf)
  {
    ReverseIs(f);
    CursorMoves(f, printed, since, tsOf);
    forall id | id in f
      ensures InStretch(seen + f, |seen|, id)
    {
      var i :| 0 <= i < |f| && f[i] == id;
      assert (seen + f)[|seen| + i] == id;
    }
  }

  /** A poll that does not move it adds ids of that very timestamp to the stretch. */
  lemma SameStretch(f: seq<string>, seen: seq<string>, printed: seq<string>, since: Option<int>, start: nat, base: nat,
                    limit: nat, tsOf: string -> int)
    requires Recent(seen, printed, since, start, base, limit, tsOf)
    requires printed != [] && f != [] && Distinct(seen + f) && since == Some(tsOf(f[0]))
    requires forall i :: 0 <= i < |f| ==> tsOf(f[i]) == since.value
    ensures Recent(seen + f, printed + Reverse(f), since, start, base, limit, tsOf)
  {
    ReverseIs(f);
    assert f[0] in printed + Reverse(f);
    forall id | id in printed + Reverse(f) && tsOf(id) == since.value
      ensures InStretch(seen + f, start, id)
    {
      if id in f {
        var i :| 0 <= i < |f| && f[i] == id;
        assert (seen + f)[|seen| + i] == id;
      } else {
        var i :| start <= i < |seen| && seen[i] == id;
        assert (seen + f)[i] == id;
      }
    }
  }

  /** One poll keeps the invariant. */
  lemma PollKeepsRecent(reply: seq<Entry>, seen: seq<string>, printed: seq<string>, since: Option<int>, start: nat, base: nat,
                        limit: nat, tsOf: string -> int) returns (start': nat, base': nat)
    requires GoodReply(reply, since, limit, tsOf)
    requires Recent(seen, printed, since, start, base, limit, tsOf)
    ensures var f := Fresh(reply, seen);
      && (forall id :: id in f ==> id !in printed)
      && Recent(seen + f, printed + Reverse(f), if f == [] then since else Some(tsOf(f[0])), start', base', limit, tsOf)
  {
    var f := Fresh(reply, seen);
    FreshIs(reply, seen);
    FreshSorted(reply, seen, since, limit, tsOf);
    FreshNotPrinted(reply, seen, printed, since, start, base, limit, tsOf);
    DistinctJoin(seen, f);
    start', base' := start, base;
    if f == [] {
      assert seen + f == seen && printed + Reverse(f) == printed;
    } else if printed == [] || since.value < tsOf(f[0]) {
      start', base' := |seen|, |f|;
      NewStretch(f, seen, printed, since, start, base, limit, tsOf);
    } else {
      SameStretch(f, seen, printed, since, start, base, limit, tsOf);
    }
  }

  // --------------------------------------------------------------------- the loop

  /** Every id some poll returned; `asked[n]` is the cursor of poll n. */
  ghost predicate Returned(answer: (nat, Option<int>) -> seq<Entry>, asked: seq<Option<int>>, id: string) {
    exists n: nat :: n < |asked| && InReply(answer(n, asked[n]), id)
  }

  predicate InReply(reply: seq<Entry>, id: string) {
    exists i :: 0 <= i < |reply| && Identified(reply[i]) && reply[i].id.value == id
  }

  /** The first loop over a reply: what has not been seen is remembered and collected. */
  method FilterNew(reply: seq<Entry>, seen0: seq<string>) returns (seen: seq<string>, newEntries: seq<Entry>)
    ensures seen == seen0 + Fresh(reply, seen0)
    ensures IdsOf(newEntries) == Fresh(reply, seen0)
    ensures forall e :: e in newEntries ==> e in reply && Identified(e)
  {
    seen, newEntries := seen0, [];
    for i := 0 to |reply|
      invariant seen == seen0 + Fresh(reply[..i], seen0)
      invariant IdsOf(newEntries) == Fresh(reply[..i], seen0)
      invariant forall e :: e in newEntries ==> e in reply && Identified(e)
    {
      assert reply[..i + 1][..i] == reply[..i];
      var e := reply[i];
      if Identified(e) && e.id.value !in seen {
        seen := seen + [e.id.value];
        assert (newEntries + [e])[..|newEntries|] == newEntries;
        newEntries := newEntries + [e];
      }
    }
    assert reply[..|reply|] == reply;
  }

  function IdsOf(entries: seq<Entry>): (ids: seq<string>)
    ensures |ids| == |entries|
  {
    if entries == [] then []
    else
      var last := entries[|entries| - 1];
      IdsOf(entries[..|entries| - 1]) + [if last.id.Some? then last.id.value else ""]
  }

  lemma {:induction false} IdsAt(entries: seq<Entry>, i: nat)
    requires i < |entries| && entries[i].id.Some?
    ensures IdsOf(entries)[i] == entries[i].id.value
    decreases |entries|
  {
    if i < |entries| - 1 {
      IdsAt(entries[..|entries| - 1], i);
    }
  }

  /** The second loop: oldest first, leaving the cursor at the newest printed timestamp. */
  method PrintAll(newEntries: seq<Entry>, printed0: seq<string>, since0: Option<int>, ghost tsOf: string -> int)
    returns (printed: seq<string>, since: Option<int>)
    requires forall e :: e in newEntries ==> Identified(e) && e.timestamp == Some(tsOf(e.id.value))
    ensures printed == printed0 + Reverse(IdsOf(newEntries))
    ensures |printed| == |printed0| + |newEntries| && printed0 <= printed
    ensures forall p :: |printed0| <= p < |printed| ==> newEntries[|printed| - 1 - p].id == Some(printed[p])
    ensures since == if newEntries == [] then since0 else Some(tsOf(IdsOf(newEntries)[0]))
  {
    printed, since := printed0, since0;
    ghost var f := IdsOf(newEntries);
    var j := |newEntries|;
    while j > 0
      invariant 0 <= j <= |newEntries|
      invariant printed == printed0 + Reverse(f[j..])
      invariant since == if j == |newEntries| then since0 else Some(tsOf(f[j]))
    {
      j := j - 1;
      var e := newEntries[j];
      assert e in newEntries && f[j..][1..] == f[j + 1..];
      IdsAt(newEntries, j);
      printed := printed + [e.id.value];
      if e.timestamp.Some? {
        since := e.timestamp;
      }
    }
    assert f[0..] == f;
    PrintedBackwards(newEntries, printed0);
  }

  /** Appending the reversed ids, position p holds the entry as far from the end. */
  lemma PrintedBackwards(newEntries: seq<Entry>, printed0: seq<string>)
    requires forall e :: e in newEntries ==> e.id.Some?
    ensures var printed := printed0 + Reverse(IdsOf(newEntries));
      && |printed| == |printed0| + |newEntries|
      && forall p :: |printed0| <= p < |printed| ==> newEntries[|printed| - 1 - p].id == Some(printed[p])
  {
    var f := IdsOf(newEntries);
    ReverseIs(f);
    var printed := printed0 + Reverse(f);
    forall p | |printed0| <= p < |printed|
      ensures newEntries[|printed| - 1 - p].id == Some(printed[p])
    {
      ReverseAt(f, p - |printed0|);
      assert newEntries[|printed| - 1 - p] in newEntries;
      IdsAt(newEntries, |printed| - 1 - p);
    }
  }

  /** `tail`, interrupted after `polls` polls. `answer(n, since)` is the server's n-th reply.
      No id is ever printed twice, every id returned is printed, in the order of timestamps over
      all polls, and each poll asks from the newest timestamp printed so far; the dictionary
      stays within its bound. */
  method Tail(answer: (nat, Option<int>) -> seq<Entry>, since0: Option<int>, limit: nat, follow: bool, polls: nat,
              ghost k: nat, ghost ids: set<string>, ghost tsOf: string -> int)
    returns (printed: seq<string>, since: Option<int>, seen: seq<string>, ghost asked: seq<Option<int>>)
    requires forall n, since :: GoodReply(answer(n, since), since, limit, tsOf)
    requires forall n, since, id :: InReply(answer(n, since), id) ==> id in ids
    requires forall t :: |SameTime(ids, tsOf, t)| <= k
    requires limit + k <= KEEP
    ensures Distinct(printed) && Ascending(printed, tsOf)
    ensures follow ==> |seen| <= CAP
    ensures |asked| == (if follow || polls == 0 then polls else 1)
    ensures forall id :: id in printed <==> Returned(answer, asked, id)
    ensures Cursors(answer, asked, since0, tsOf) && Newest(answer, asked, since0, since, tsOf)
  {
    since := since0;
    seen, printed, asked := [], [], [];
    ghost var start, base: nat := 0, 0;
    for n := 0 to polls
      invariant |asked| == n && (n > 0 ==> follow) && |seen| <= CAP
      invariant Recent(seen, printed, since, start, base, limit, tsOf)
      invariant Told(answer, asked, printed, since0, since, ids, tsOf)
    {
      var reply := answer(n, since);
      assert GoodReply(reply, since, limit, tsOf);
      ghost var start', base' := PollKeepsRecent(reply, seen, printed, since, start, base, limit, tsOf);
      PollKeepsTold(answer, asked, seen, printed, since0, since, ids, limit, tsOf);
      asked := asked + [since];
      var newEntries;
      seen, newEntries := FilterNew(reply, seen);
      printed, since := PrintAll(newEntries, printed, since, tsOf);
      start, base := start', base';
      if !follow { break; }
      if |seen| > CAP {
        start := EvictionKeepsRecent(seen, printed, since, start, base, limit, k, ids, tsOf);
        seen := seen[|seen| - KEEP..];
      }
    }
    NewestPrinted(answer, asked, since0, since, printed, tsOf);
  }

  /** What has been printed and asked so far, whatever is still remembered. */
  ghost predicate Told(answer: (nat, Option<int>) -> seq<Entry>, asked: seq<Option<int>>, printed: seq<string>,
                       since0: Option<int>, since: Option<int>, ids: set<string>, tsOf: string -> int) {
    && Distinct(printed) && Ascending(printed, tsOf)
    && (forall id :: id in printed ==> id in ids)
    && (forall id :: id in printed <==> Returned(answer, asked, id))
    && (printed == [] ==> since == since0)
    && (printed != [] ==> Cursor(printed, since, tsOf))
    && Cursors(answer, asked, since0, tsOf)
  }

  lemma PollKeepsTold(answer: (nat, Option<int>) -> seq<Entry>, asked: seq<Option<int>>, seen: seq<string>,
                      printed: seq<string>, since0: Option<int>, since: Option<int>, ids: set<string>, limit: nat,
                      tsOf: string -> int)
    requires GoodReply(answer(|asked|, since), since, limit, tsOf)
    requires Told(answer, asked, printed, since0, since, ids, tsOf)
    requires forall id :: id in seen ==> id in printed
    requires forall id :: InReply(answer(|asked|, since), id) ==> id in ids
    requires var f := Fresh(answer(|asked|, since), seen);
      && (forall id :: id in f ==> id !in printed)
      && (f != [] ==> Cursor(printed + Reverse(f), Some(tsOf(f[0])), tsOf))
    ensures var f := Fresh(answer(|asked|, since), seen);
      Told(answer, asked + [since], printed + Reverse(f), since0, if f == [] then since else Some(tsOf(f[0])), ids, tsOf)
  {
    var reply := answer(|asked|, since);
    var f := Fresh(reply, seen);
    FreshIs(reply, seen);
    ReverseIs(f);
    NewestPrinted(answer, asked, since0, since, printed, tsOf);
    CursorsNext(answer, asked, since0, since, tsOf);
    AllPrinted(answer, asked, since, seen, printed);
    DistinctJoin(printed, Reverse(f));
    FreshSorted(reply, seen, since, limit, tsOf);
    ReverseAscends(f, tsOf);
    forall x, y | x in printed && y in Reverse(f)
      ensures tsOf(x) <= tsOf(y)
    {
      assert y in f;
    }
    AscendingJoin(printed, Reverse(f), tsOf);
    assert f == [] ==> printed + Reverse(f) == printed;
  }

  /** The cursor is the newest timestamp returned, or where it started if nothing was. */
  ghost predicate Newest(answer: (nat, Option<int>) -> seq<Entry>, asked: seq<Option<int>>, since0: Option<int>,
                         since: Option<int>, tsOf: string -> int) {
    if exists id :: Returned(answer, asked, id) then
      && since.Some?
      && (forall id :: Returned(answer, asked, id) ==> tsOf(id) <= since.value)
      && exists id :: Returned(answer, asked, id) && tsOf(id) == since.value
    else since == since0
  }

  /** Every poll asked from the cursor that the polls before it had left. */
  ghost predicate Cursors(answer: (nat, Option<int>) -> seq<Entry>, asked: seq<Option<int>>, since0: Option<int>,
                          tsOf: string -> int) {
    forall n :: 0 <= n < |asked| ==> Newest(answer, asked[..n], since0, asked[n], tsOf)
  }

  lemma NewestPrinted(answer: (nat, Option<int>) -> seq<Entry>, asked: seq<Option<int>>, since0: Option<int>,
                      since: Option<int>, printed: seq<string>, tsOf: string -> int)
    requires forall id :: id in printed <==> Returned(answer, asked, id)
    requires printed == [] ==> since == since0
    requires printed != [] ==> Cursor(printed, since, tsOf)
    ensures Newest(answer, asked, since0, since, tsOf)
  {
    if printed != [] {
      assert Returned(answer, asked, printed[0]);
    }
  }

  lemma CursorsNext(answer: (nat, Option<int>) -> seq<Entry>, asked: seq<Option<int>>, since0: Option<int>,
                    since: Option<int>, tsOf: string -> int)
    requires Cursors(answer, asked, since0, tsOf) && Newest(answer, asked, since0, since, tsOf)
    ensures Cursors(answer, asked + [since], since0, tsOf)
  {
    var more := asked + [since];
    forall n | 0 <= n < |more|
      ensures Newest(answer, more[..n], since0, more[n], tsOf)
    {
      if n < |asked| {
        assert more[..n] == asked[..n];
      } else {
        assert more[..n] == asked;
      }
    }
  }

  /** Printing the fresh ids of one more poll prints exactly what that poll returned. */
  lemma AllPrinted(answer: (nat, Option<int>) -> seq<Entry>, asked: seq<Option<int>>, since: Option<int>,
                   seen: seq<string>, printed: seq<string>)
    requires forall id :: id in printed <==> Returned(answer, asked, id)
    requires forall id :: id in seen ==> id in printed
    ensures var f := Fresh(answer(|asked|, since), seen);
      forall id :: id in printed + Reverse(f) <==> Returned(answer, asked + [since], id)
  {
    var reply := answer(|asked|, since);
    FreshIs(reply, seen);
    ReverseIs(Fresh(reply, seen));
    forall id
      ensures id in printed + Reverse(Fresh(reply, seen)) <==> Returned(answer, asked + [since], id)
    {
      ReturnedNext(answer, asked, since, id);
    }
  }

  lemma ReturnedNext(answer: (nat, Option<int>) -> seq<Entry>, asked: seq<Option<int>>, since: Option<int>, id: string)
    ensures Returned(answer, asked + [since], id) <==>
            Returned(answer, asked, id) || InReply(answer(|asked|, since), id)
  {
    var more := asked + [since];
    if Returned(answer, more, id) {
      var n: nat :| n < |more| && InReply(answer(n, more[n]), id);
    }
    if Returned(answer, asked, id) {
      var n: nat :| n < |asked| && InReply(answer(n, asked[n]), id);
      assert more[n] == asked[n];
    }
    if InReply(answer(|asked|, since), id) {
      assert more[|asked|] == since;
    }
  }
}
