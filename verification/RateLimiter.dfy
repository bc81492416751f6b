/** The sliding-window rate limiter over one Redis sorted set. Scripts run atomically at a
    server time; `now` is the caller's clock, read before the script runs. */
module RateLimiter {
  import opened Wrappers

  /** `{now_ms}:{uuid}`, stored with score `now_ms`. */
  datatype Member = Member(ts: int, suffix: int)

  /** The sorted set of one key and the time at which Redis will drop the key. */
  datatype Key = Key(zset: map<Member, int>, expireAt: int)

  /** Redis drops a key whose time has come, and a key without members does not exist. */
  function Live(key: Key, serverTime: int): map<Member, int> {
    if serverTime >= key.expireAt then map[] else key.zset
  }

  /** ZREMRANGEBYSCORE key 0 windowStart */
  function Prune(zset: map<Member, int>, windowStart: int): map<Member, int> {
    map m | m in zset && !(0 <= zset[m] <= windowStart) :: zset[m]
  }

  class RateLimiter {
    const limit: int
    const windowSeconds: int
    const windowMs: int := windowSeconds * 1000
    var key: Key

    constructor (limit: int, windowSeconds: int)
      ensures this.limit == limit && this.windowSeconds == windowSeconds
      ensures key == Key(map[], 0)
    {
      this.limit, this.windowSeconds := limit, windowSeconds;
      key := Key(map[], 0);
    }

    /** `check`: `now` is the caller's clock, `serverTime` Redis's when the script runs. */
    method Check(now: int, suffix: int, serverTime: int) returns (allowed: bool)
      modifies this`key
      ensures (key, allowed) == CheckScript(limit, windowMs, old(key), now, suffix, serverTime)
    {
      var windowStart := now - windowMs;
      var zset := Prune(Live(key, serverTime), windowStart);
      key := key.(zset := zset);
      if |zset| >= limit {
        return false;
      }
      zset := zset[Member(now, suffix) := now];
      key := Key(zset, serverTime + windowMs);
      return true;
    }

    /** `get_remaining`, which prunes as well. */
    method GetRemaining(now: int, serverTime: int) returns (remaining: int)
      modifies this`key
      ensures key == ReadScript(windowMs, old(key), now, serverTime)
      ensures remaining == QuotaLeft(limit, |key.zset|) && remaining >= 0
    {
      var zset := Prune(Live(key, serverTime), now - windowMs);
      key := key.(zset := zset);
      remaining := if limit - |zset| > 0 then limit - |zset| else 0;
    }
  }

  /** `max(0, limit - current)` */
  function QuotaLeft(limit: int, current: int): int {
    if limit - current > 0 then limit - current else 0
  }

  function ReadScript(w: int, key: Key, now: int, serverTime: int): Key {
    key.(zset := Prune(Live(key, serverTime), now - w))
  }

  function CheckScript(limit: int, w: int, key: Key, now: int, suffix: int, serverTime: int): (Key, bool) {
    var read := ReadScript(w, key, now, serverTime);
    if |read.zset| >= limit then (read, false)
    else (Key(read.zset[Member(now, suffix) := now], serverTime + w), true)
  }

  // -------------------------------------------------------------------- histories

  /** One script, with the caller's clock and Redis's clock at that moment. */
  datatype Event =
    | Check(now: int, suffix: int, serverTime: int)
    | Remaining(now: int, serverTime: int)

  /** `admitted` is the full history: every admission ever, never pruned. */
  datatype State = State(key: Key, admitted: set<Member>, clock: int)

  const INITIAL: State := State(Key(map[], 0), {}, 0)

  /** Clocks: Redis's does not go back, the caller's lags it by at most `d` and is not
      before the epoch; suffixes are fresh. */
  predicate Enabled(s: State, e: Event, d: nat) {
    && s.clock <= e.serverTime
    && e.serverTime - d <= e.now <= e.serverTime && 0 <= e.now
    && (e.Check? ==> Member(e.now, e.suffix) !in s.admitted)
  }

  function Apply(limit: int, w: int, s: State, e: Event): State {
    match e
    case Check(now, suffix, r) =>
      var (key, allowed) := CheckScript(limit, w, s.key, now, suffix, r);
      State(key, if allowed then s.admitted + {Member(now, suffix)} else s.admitted, r)
    case Remaining(now, r) => State(ReadScript(w, s.key, now, r), s.admitted, r)
  }

  ghost predicate Run(limit: int, w: int, d: nat, s: State, es: seq<Event>)
    decreases |es|
  {
    es != [] ==> Enabled(s, es[0], d) && Run(limit, w, d, Apply(limit, w, s, es[0]), es[1..])
  }

  ghost function Exec(limit: int, w: int, s: State, es: seq<Event>): State
    decreases |es|
  {
    if es == [] then s else Exec(limit, w, Apply(limit, w, s, es[0]), es[1..])
  }

  /** The admissions with a timestamp in (lo, hi]. */
  function Window(admitted: set<Member>, lo: int, hi: int): set<Member> {
    set m | m in admitted && lo < m.ts <= hi
  }

  /** The sorted set only holds admissions, under their timestamps, and still holds every
      admission that some future window of length w - d could contain. */
  ghost predicate Inv(w: int, s: State) {
    && 0 <= s.clock && s.key.expireAt <= s.clock + w
    && (forall m :: m in s.key.zset ==> m in s.admitted && s.key.zset[m] == m.ts)
    && (forall m :: m in s.admitted ==> 0 <= m.ts <= s.clock && m.ts + w <= s.key.expireAt)
    && (forall m :: m in s.admitted && m.ts > s.clock - w ==> m in s.key.zset)
  }

  lemma StepKeepsInv(limit: int, w: int, d: nat, s: State, e: Event)
    requires 0 <= w && Inv(w, s) && Enabled(s, e, d)
    ensures Inv(w, Apply(limit, w, s, e))
  {}

  lemma StepKeepsBound(limit: nat, w: int, d: nat, s: State, e: Event, lo: int, hi: int)
    requires 0 <= w && Inv(w, s) && Enabled(s, e, d) && hi - lo <= w - d
    requires |Window(s.admitted, lo, hi)| <= limit
    ensures |Window(Apply(limit, w, s, e).admitted, lo, hi)| <= limit
  {
    var t := Apply(limit, w, s, e);
    if t.admitted != s.admitted {
      var x := Member(e.now, e.suffix);
      var before := Window(s.admitted, lo, hi);
      if lo < x.ts <= hi {
        // x was admitted with fewer than `limit` members left, and none of `before` was gone
        assert Window(t.admitted, lo, hi) == before + {x};
        SubsetCard(before, ReadScript(w, s.key, e.now, e.serverTime).zset.Keys);
      } else {
        assert Window(t.admitted, lo, hi) == before;
      }
    }
  }

  lemma {:induction false} RunKeepsBound(limit: nat, w: int, d: nat, s: State, es: seq<Event>, lo: int, hi: int)
    requires 0 <= w && Inv(w, s) && Run(limit, w, d, s, es) && hi - lo <= w - d
    requires |Window(s.admitted, lo, hi)| <= limit
    ensures |Window(Exec(limit, w, s, es).admitted, lo, hi)| <= limit
    decreases |es|
  {
    if es != [] {
      StepKeepsInv(limit, w, d, s, es[0]);
      StepKeepsBound(limit, w, d, s, es[0], lo, hi);
      RunKeepsBound(limit, w, d, Apply(limit, w, s, es[0]), es[1..], lo, hi);
    }
  }

  /** The rate bound under clock skew, for the state `t` after any history of checks, quota
      reads and key expiry: no interval (lo, hi] of length at most window - d holds the
      timestamps of more than `limit` admissions. With d = 0 that is the full window. */
  lemma RateBound(limit: nat, w: nat, d: nat, es: seq<Event>, t: State, lo: int, hi: int)
    requires Run(limit, w, d, INITIAL, es) && t == Exec(limit, w, INITIAL, es)
    requires hi - lo <= w - d
    ensures |Window(t.admitted, lo, hi)| <= limit
  {
    assert Window({}, lo, hi) == {};
    RunKeepsBound(limit, w, d, INITIAL, es, lo, hi);
  }

  lemma Cons(limit: int, w: int, d: nat, s: State, e: Event, es: seq<Event>)
    requires Enabled(s, e, d) && Run(limit, w, d, Apply(limit, w, s, e), es)
    ensures Run(limit, w, d, s, [e] + es)
    ensures Exec(limit, w, s, [e] + es) == Exec(limit, w, Apply(limit, w, s, e), es)
  {}

  lemma {:induction false} RunConcat(limit: int, w: int, d: nat, s: State, a: seq<Event>, b: seq<Event>)
    requires Run(limit, w, d, s, a) && Run(limit, w, d, Exec(limit, w, s, a), b)
    ensures Run(limit, w, d, s, a + b)
    ensures Exec(limit, w, s, a + b) == Exec(limit, w, Exec(limit, w, s, a), b)
    decreases |a|
  {
    if a == [] {
      assert a + b == b;
    } else {
      assert (a + b)[1..] == a[1..] + b;
      RunConcat(limit, w, d, Apply(limit, w, s, a[0]), a[1..], b);
    }
  }

  /** `n` checks at one moment. */
  function Burst(now: int, serverTime: int, suffix: int, n: nat): seq<Event>
    decreases n
  {
    if n == 0 then [] else [Check(now, suffix, serverTime)] + Burst(now, serverTime, suffix + 1, n - 1)
  }

  /** While the sorted set has room, a check with a fresh suffix is admitted. */
  lemma RoomAdmits(limit: int, w: int, d: nat, s: State, now: int, r: int, suffix: int)
    requires |s.key.zset| < limit && s.clock <= r && r - d <= now <= r && 0 <= now
    requires forall m :: m in s.admitted ==> m.suffix < suffix
    ensures Enabled(s, Check(now, suffix, r), d)
    ensures var t := Apply(limit, w, s, Check(now, suffix, r));
      && t.admitted == s.admitted + {Member(now, suffix)} && t.clock == r
      && |t.key.zset| <= |s.key.zset| + 1
  {
    var zset := ReadScript(w, s.key, now, r).zset;
    SubsetCard(zset.Keys, s.key.zset.Keys);
    assert |zset| == |zset.Keys| && |s.key.zset| == |s.key.zset.Keys|;
    var after := zset[Member(now, suffix) := now];
    assert after.Keys == zset.Keys + {Member(now, suffix)};
    assert |after| == |after.Keys|;
  }

  lemma {:induction false} BurstAdmits(limit: int, w: int, d: nat, s: State, now: int, r: int, suffix: int, n: nat)
    requires |s.key.zset| + n <= limit && s.clock <= r && r - d <= now <= r && 0 <= now
    requires forall m :: m in s.admitted ==> m.suffix < suffix
    ensures Run(limit, w, d, s, Burst(now, r, suffix, n))
    ensures var t := Exec(limit, w, s, Burst(now, r, suffix, n));
      && |t.admitted| == |s.admitted| + n && t.clock <= r
      && forall m :: m in t.admitted ==> m.suffix < suffix + n && (m in s.admitted || m.ts == now)
    decreases n
  {
    if n > 0 {
      RoomAdmits(limit, w, d, s, now, r, suffix);
      var t := Apply(limit, w, s, Check(now, suffix, r));
      BurstAdmits(limit, w, d, t, now, r, suffix + 1, n - 1);
      Cons(limit, w, d, s, Check(now, suffix, r), Burst(now, r, suffix + 1, n - 1));
    }
  }

  /** A quota read one window after the only admissions prunes them all. */
  lemma ReadEmpties(limit: int, w: nat, d: nat, s: State, late: int)
    requires Inv(w, s) && s.clock <= 1 && late == 1 + w && forall m :: m in s.admitted ==> m.ts == 1
    ensures Run(limit, w, d, s, [Remaining(late, late)])
    ensures var t := Exec(limit, w, s, [Remaining(late, late)]);
      |t.key.zset| == 0 && t.admitted == s.admitted && t.clock == late
  {
    assert [Remaining(late, late)][1..] == [];
    assert Prune(Live(s.key, late), late - w) == map[];
  }

  /** After it a second burst fits in, with clocks that lag by up to `d`. */
  lemma ReadThenBurst(limit: nat, w: nat, d: nat, s: State, late: int, lag: int) returns (es: seq<Event>)
    requires Inv(w, s) && s.clock <= 1 && late == 1 + w && late - d <= lag <= late && 1 <= lag
    requires |s.admitted| == limit && forall m :: m in s.admitted ==> m.ts == 1 && m.suffix < limit
    ensures Run(limit, w, d, s, es)
    ensures |Exec(limit, w, s, es).admitted| == 2 * limit
    ensures forall m :: m in Exec(limit, w, s, es).admitted ==> m.ts == 1 || m.ts == lag
  {
    ReadEmpties(limit, w, d, s, late);
    var t := Exec(limit, w, s, [Remaining(late, late)]);
    BurstAdmits(limit, w, d, t, lag, late, limit, limit);
    RunConcat(limit, w, d, s, [Remaining(late, late)], Burst(lag, late, limit, limit));
    es := [Remaining(late, late)] + Burst(lag, late, limit, limit);
  }

  lemma FirstBurst(limit: nat, w: nat, d: nat) returns (s: State)
    ensures Run(limit, w, d, INITIAL, Burst(1, 1, 0, limit)) && s == Exec(limit, w, INITIAL, Burst(1, 1, 0, limit))
    ensures Inv(w, s) && s.clock <= 1
    ensures |s.admitted| == limit && forall m :: m in s.admitted ==> m.ts == 1 && m.suffix < limit
  {
    BurstAdmits(limit, w, d, INITIAL, 1, 1, 0, limit);
    RunKeepsInv(limit, w, d, INITIAL, Burst(1, 1, 0, limit));
    s := Exec(limit, w, INITIAL, Burst(1, 1, 0, limit));
  }

  /** Two such bursts: twice the limit, within one millisecond more than window - d. */
  lemma TwoBursts(limit: nat, w: nat, d: nat, lag: int) returns (es: seq<Event>)
    requires lag == 1 + if d <= w then w - d else 0
    ensures Run(limit, w, d, INITIAL, es)
    ensures |Window(Exec(limit, w, INITIAL, es).admitted, 0, lag)| == 2 * limit
  {
    var s := FirstBurst(limit, w, d);
    var rest := ReadThenBurst(limit, w, d, s, 1 + w, lag);
    RunConcat(limit, w, d, INITIAL, Burst(1, 1, 0, limit), rest);
    es := Burst(1, 1, 0, limit) + rest;
    var all := Exec(limit, w, s, rest).admitted;
    assert Window(all, 0, lag) == all;
  }

  /** No history puts more than `limit` admissions into an interval of at most this length. */
  ghost predicate Bounds(limit: nat, w: nat, d: nat, length: int) {
    forall es, lo, hi :: Run(limit, w, d, INITIAL, es) && hi - lo <= length ==>
      |Window(Exec(limit, w, INITIAL, es).admitted, lo, hi)| <= limit
  }

  /** The rate bound, exactly: the lag has to be taken off the window, and no more. A full
      window is bounded if and only if no clock lags; with any lag it can hold twice the limit. */
  lemma RateBoundExactly(limit: nat, w: nat, d: nat, length: int)
    requires limit > 0
    ensures Bounds(limit, w, d, length) <==> length <= (if d <= w then w - d else 0)
  {
    if length <= (if d <= w then w - d else 0) {
      forall es, lo, hi | Run(limit, w, d, INITIAL, es) && hi - lo <= length
        ensures |Window(Exec(limit, w, INITIAL, es).admitted, lo, hi)| <= limit
      {
        if d <= w {
          RateBound(limit, w, d, es, Exec(limit, w, INITIAL, es), lo, hi);
        } else {
          assert Window(Exec(limit, w, INITIAL, es).admitted, lo, hi) == {};
        }
      }
    } else {
      var es := TwoBursts(limit, w, d, 1 + if d <= w then w - d else 0);
    }
  }

  // ------------------------------------------------------------ exact refinement

  /** With one monotone clock, what pruning and expiry leave is exactly the last window. */
  lemma PrunedIsWindow(w: int, s: State, start: int, now: int)
    requires 0 <= w && Inv(w, s) && s.clock <= now && start == now - w
    ensures var zset := ReadScript(w, s.key, now, now).zset;
      zset.Keys == Window(s.admitted, start, now) && |zset| == |Window(s.admitted, start, now)|
  {}

  lemma {:induction false} RunKeepsInv(limit: int, w: int, d: nat, s: State, es: seq<Event>)
    requires 0 <= w && Inv(w, s) && Run(limit, w, d, s, es)
    ensures Inv(w, Exec(limit, w, s, es))
    decreases |es|
  {
    if es != [] {
      StepKeepsInv(limit, w, d, s, es[0]);
      RunKeepsInv(limit, w, d, Apply(limit, w, s, es[0]), es[1..]);
    }
  }

  /** Exact refinement: after any run on a monotone clock shared with Redis, `check` admits
      exactly when fewer than `limit` of all admissions ever made lie in (now - window, now]. */
  lemma CheckExact(limit: int, w: nat, es: seq<Event>, t: State, start: int, now: int, suffix: int)
    requires Run(limit, w, 0, INITIAL, es) && t == Exec(limit, w, INITIAL, es)
    requires Enabled(t, Check(now, suffix, now), 0) && start == now - w
    ensures CheckScript(limit, w, t.key, now, suffix, now).1 <==> |Window(t.admitted, start, now)| < limit
  {
    RunKeepsInv(limit, w, 0, INITIAL, es);
    PrunedIsWindow(w, t, start, now);
  }

  /** `get_remaining` then returns the limit minus that count; it never has to cut at zero. */
  lemma RemainingExact(limit: nat, w: nat, es: seq<Event>, t: State, start: int, now: int, current: int)
    requires Run(limit, w, 0, INITIAL, es) && t == Exec(limit, w, INITIAL, es)
    requires t.clock <= now && start == now - w && current == |ReadScript(w, t.key, now, now).zset|
    ensures QuotaLeft(limit, current) == limit - |Window(t.admitted, start, now)|
  {
    RunKeepsInv(limit, w, 0, INITIAL, es);
    PrunedIsWindow(w, t, start, now);
    RateBound(limit, w, 0, es, t, start, now);
  }

  /** The pruned set under lag: all admissions of the last window on Redis's clock, and none
      before the window on the caller's. */
  lemma PrunedBetween(w: int, s: State, start: int, now: int, r: int)
    requires 0 <= w && Inv(w, s) && s.clock <= r && now <= r && start == now - w
    ensures var count := |ReadScript(w, s.key, now, r).zset|;
      |Window(s.admitted, r - w, r)| <= count <= |Window(s.admitted, start, r)|
  {
    var zset := ReadScript(w, s.key, now, r).zset;
    assert |zset| == |zset.Keys|;
    SubsetCard(Window(s.admitted, r - w, r), zset.Keys);
    SubsetCard(zset.Keys, Window(s.admitted, start, r));
  }

  /** Verdicts under lag: whatever the lag and after any run, an admitted check found fewer than
      `limit` admissions in the last window on Redis's clock, and a refused one at least `limit`
      since the start of the window on the caller's. */
  lemma CheckUnderLag(limit: int, w: nat, d: nat, es: seq<Event>, t: State, start: int, now: int, suffix: int, r: int)
    requires Run(limit, w, d, INITIAL, es) && t == Exec(limit, w, INITIAL, es)
    requires Enabled(t, Check(now, suffix, r), d) && start == now - w
    ensures CheckScript(limit, w, t.key, now, suffix, r).1 ==> |Window(t.admitted, r - w, r)| < limit
    ensures !CheckScript(limit, w, t.key, now, suffix, r).1 ==> |Window(t.admitted, start, r)| >= limit
  {
    RunKeepsInv(limit, w, d, INITIAL, es);
    PrunedBetween(w, t, start, now, r);
  }

  /** The quota read under lag lies between the limit less these two counts. */
  lemma RemainingUnderLag(limit: int, w: nat, d: nat, es: seq<Event>, t: State, start: int, now: int, r: int, current: int)
    requires Run(limit, w, d, INITIAL, es) && t == Exec(limit, w, INITIAL, es)
    requires Enabled(t, Remaining(now, r), d) && start == now - w && current == |ReadScript(w, t.key, now, r).zset|
    ensures QuotaLeft(limit, |Window(t.admitted, start, r)|) <= QuotaLeft(limit, current) <=
            QuotaLeft(limit, |Window(t.admitted, r - w, r)|)
  {
    RunKeepsInv(limit, w, d, INITIAL, es);
    PrunedBetween(w, t, start, now, r);
  }

  /** A key without requests for a window is gone. */
  lemma IdleKeyExpires(limit: int, w: nat, d: nat, es: seq<Event>, t: State, r: int)
    requires Run(limit, w, d, INITIAL, es) && t == Exec(limit, w, INITIAL, es) && r >= t.clock + w
    ensures Live(t.key, r) == map[]
  {
    RunKeepsInv(limit, w, d, INITIAL, es);
  }

  /** The checks of a run, without its quota reads. */
  function Checks(es: seq<Event>): seq<Event> {
    if es == [] then [] else (if es[0].Check? then [es[0]] else []) + Checks(es[1..])
  }

  /** Two limiters that agree on the history agree on the next verdict, whatever each
      has pruned or let expire. */
  lemma SameVerdict(limit: int, w: int, s: State, t: State, e: Event)
    requires 0 <= w && Inv(w, s) && Inv(w, t) && e.Check? && Enabled(s, e, 0)
    requires s.admitted == t.admitted && t.clock <= s.clock
    ensures Enabled(t, e, 0)
    ensures Apply(limit, w, s, e).admitted == Apply(limit, w, t, e).admitted
    ensures Apply(limit, w, s, e).clock == Apply(limit, w, t, e).clock
  {
    PrunedIsWindow(w, s, e.now - w, e.now);
    PrunedIsWindow(w, t, e.now - w, e.now);
  }

  /** Quota reads change no verdict: leaving them out of a run leaves the same admissions. */
  lemma {:induction false} ReadsChangeNoVerdict(limit: int, w: int, s: State, t: State, es: seq<Event>)
    requires 0 <= w && Inv(w, s) && Inv(w, t) && Run(limit, w, 0, s, es)
    requires s.admitted == t.admitted && t.clock <= s.clock
    ensures Run(limit, w, 0, t, Checks(es))
    ensures Exec(limit, w, t, Checks(es)).admitted == Exec(limit, w, s, es).admitted
    decreases |es|
  {
    if es != [] {
      var e := es[0];
      StepKeepsInv(limit, w, 0, s, e);
      if e.Check? {
        SameVerdict(limit, w, s, t, e);
        StepKeepsInv(limit, w, 0, t, e);
        ReadsChangeNoVerdict(limit, w, Apply(limit, w, s, e), Apply(limit, w, t, e), es[1..]);
        Cons(limit, w, 0, t, e, Checks(es[1..]));
      } else {
        ReadsChangeNoVerdict(limit, w, Apply(limit, w, s, e), t, es[1..]);
        assert Checks(es) == Checks(es[1..]);
      }
    }
  }
}
