/** The per-IP fixed-window limiter of backend/internal/middleware/ratelimit.go. */
module RateLimit {
  import opened Common

  type Ip = nat

  datatype Bucket = Bucket(count: nat, windowStart: int)

  /** One call of `allow`: its IP and its clock readings, before the map lookup, at the window
      check and (when the window has passed) at the reset. */
  datatype Call = Call(ip: Ip, t0: int, t1: int, t2: int)

  // ---------------------------------------------------------------- one bucket

  function Touch(b: Bucket, window: nat, e: Call): Bucket {
    if e.t1 - b.windowStart > window then Bucket(1, e.t2) else b.(count := b.count + 1)
  }

  /** The answers a lone bucket gives to a list of calls. */
  function Answers(b: Bucket, limit: nat, window: nat, es: seq<Call>): seq<bool>
    decreases |es|
  {
    if es == [] then []
    else
      var c := Touch(b, window, es[0]);
      [c.count <= limit] + Answers(c, limit, window, es[1..])
  }

  // ---------------------------------------------------------------- the limiter

  function BucketOf(buckets: map<Ip, Bucket>, e: Call): Bucket {
    if e.ip in buckets then buckets[e.ip] else Bucket(0, e.t0)
  }

  function AllowStep(buckets: map<Ip, Bucket>, limit: nat, window: nat, e: Call): (map<Ip, Bucket>, bool) {
    var c := Touch(BucketOf(buckets, e), window, e);
    (buckets[e.ip := c], c.count <= limit)
  }

  class RateLimiter {
    var buckets: map<Ip, Bucket>
    const limit: nat
    const window: nat

    constructor (limit: nat, window: nat)
      ensures this.limit == limit && this.window == window && buckets == map[]
    {
      this.limit, this.window := limit, window;
      buckets := map[];
    }

    method Allow(e: Call) returns (ok: bool)
      modifies this
      ensures (buckets, ok) == AllowStep(old(buckets), limit, window, e)
    {
      if e.ip !in buckets {
        buckets := buckets[e.ip := Bucket(0, e.t0)];
      }
      var bucket := buckets[e.ip];
      if e.t1 - bucket.windowStart > window {
        bucket := bucket.(count := 0, windowStart := e.t2);
      }
      bucket := bucket.(count := bucket.count + 1);
      buckets := buckets[e.ip := bucket];
      assert buckets == old(buckets)[e.ip := bucket];
      ok := bucket.count <= limit;
    }
  }

  /** The limiter's answers to a run of calls from all IPs. */
  function Run(buckets: map<Ip, Bucket>, limit: nat, window: nat, es: seq<Call>): (oks: seq<bool>)
    ensures |oks| == |es|
    decreases |es|
  {
    if es == [] then []
    else
      var (next, ok) := AllowStep(buckets, limit, window, es[0]);
      [ok] + Run(next, limit, window, es[1..])
  }

  // ---------------------------------------------------------------- isolation

  /** The calls of one IP, in order. */
  function Calls(es: seq<Call>, ip: Ip): seq<Call> {
    if es == [] then []
    else (if es[0].ip == ip then [es[0]] else []) + Calls(es[1..], ip)
  }

  /** The answers given to one IP, in order. */
  function AnswersTo(es: seq<Call>, oks: seq<bool>, ip: Ip): seq<bool>
    requires |oks| == |es|
  {
    if es == [] then []
    else (if es[0].ip == ip then [oks[0]] else []) + AnswersTo(es[1..], oks[1..], ip)
  }

  /** The bucket an IP's first call will use. */
  function Start(buckets: map<Ip, Bucket>, mine: seq<Call>, ip: Ip): Bucket {
    if ip in buckets then buckets[ip] else if mine == [] then Bucket(0, 0) else Bucket(0, mine[0].t0)
  }

  /** Whatever the other IPs do, an IP's answers are those of a lone bucket run on its own calls. */
  lemma {:induction false} Isolation(buckets: map<Ip, Bucket>, limit: nat, window: nat, es: seq<Call>, ip: Ip)
    ensures AnswersTo(es, Run(buckets, limit, window, es), ip)
         == Answers(Start(buckets, Calls(es, ip), ip), limit, window, Calls(es, ip))
    decreases |es|
  {
    if es != [] {
      var (next, ok) := AllowStep(buckets, limit, window, es[0]);
      var oks := Run(buckets, limit, window, es);
      Isolation(next, limit, window, es[1..], ip);
      assert oks[1..] == Run(next, limit, window, es[1..]);
      if es[0].ip == ip {
        assert Calls(es, ip)[1..] == Calls(es[1..], ip);
      } else {
        assert Calls(es, ip) == Calls(es[1..], ip);
      }
    }
  }

  // ---------------------------------------------------------------- the bound

  /** Clock readings of one IP's calls never go backwards, as its bucket's lock serialises them. */
  predicate Ordered(es: seq<Call>) {
    && (forall i | 0 <= i < |es| :: es[i].t0 <= es[i].t1 <= es[i].t2)
    && (forall i, j | 0 <= i < j < |es| :: es[i].t2 <= es[j].t1)
  }

  /** How many of the calls checked within `lo..hi` were allowed. */
  function AllowedWithin(es: seq<Call>, oks: seq<bool>, lo: int, hi: int): nat
    requires |oks| == |es|
  {
    if es == [] then 0
    else (if oks[0] && lo <= es[0].t1 <= hi then 1 else 0) + AllowedWithin(es[1..], oks[1..], lo, hi)
  }

  /** Room left in the current window. */
  function Left(b: Bucket, limit: nat): nat {
    if b.count <= limit then limit - b.count else 0
  }

  lemma OrderedTail(es: seq<Call>)
    requires Ordered(es) && es != []
    ensures Ordered(es[1..])
  {
  }

  /** When `hi` lies within k + 1 window lengths of the window's start, at most k resets can still
      happen by then: what is left of this window plus k full ones bounds the calls allowed. */
  lemma {:induction false} AllowedByResets(b: Bucket, limit: nat, window: nat, es: seq<Call>, lo: int, hi: int, k: nat)
    requires Ordered(es) && hi <= b.windowStart + (k + 1) * window
    requires forall i | 0 <= i < |es| :: b.windowStart <= es[i].t1
    ensures |Answers(b, limit, window, es)| == |es|
    ensures AllowedWithin(es, Answers(b, limit, window, es), lo, hi) <= Left(b, limit) + limit * k
    decreases |es|
  {
    if es != [] {
      var e := es[0];
      var c := Touch(b, window, e);
      OrderedTail(es);
      if e.t1 > hi {
        NoneAfter(c, limit, window, es[1..], lo, hi);
      } else if e.t1 - b.windowStart > window {
        assert k == 0 ==> (k + 1) * window == window;
        assert (k + 1) * window == window + k * window;
        AllowedByResets(c, limit, window, es[1..], lo, hi, k - 1);
        assert limit * k == limit + limit * (k - 1);
      } else {
        AllowedByResets(c, limit, window, es[1..], lo, hi, k);
      }
      assert Answers(b, limit, window, es)[1..] == Answers(c, limit, window, es[1..]);
    }
  }

  lemma {:induction false} NoneAfter(b: Bucket, limit: nat, window: nat, es: seq<Call>, lo: int, hi: int)
    requires forall i | 0 <= i < |es| :: es[i].t1 > hi
    ensures |Answers(b, limit, window, es)| == |es|
    ensures AllowedWithin(es, Answers(b, limit, window, es), lo, hi) == 0
    decreases |es|
  {
    if es != [] {
      var c := Touch(b, window, es[0]);
      NoneAfter(c, limit, window, es[1..], lo, hi);
      assert Answers(b, limit, window, es)[1..] == Answers(c, limit, window, es[1..]);
    }
  }

  /** Once all calls fall at or after `lo`: the old window's rest, then the windows begun since. */
  lemma {:induction false} AllowedSince(b: Bucket, limit: nat, window: nat, es: seq<Call>, lo: int, hi: int, k: nat)
    requires Ordered(es) && hi <= lo + (k + 1) * window
    requires forall i | 0 <= i < |es| :: lo <= es[i].t1
    ensures |Answers(b, limit, window, es)| == |es|
    ensures AllowedWithin(es, Answers(b, limit, window, es), lo, hi) <= Left(b, limit) + limit * (k + 1)
    decreases |es|
  {
    if es != [] {
      var e := es[0];
      var c := Touch(b, window, e);
      OrderedTail(es);
      if e.t1 - b.windowStart > window {
        AllowedByResets(c, limit, window, es[1..], lo, hi, k);
        assert limit * (k + 1) == limit + limit * k;
      } else {
        AllowedSince(c, limit, window, es[1..], lo, hi, k);
      }
      assert Answers(b, limit, window, es)[1..] == Answers(c, limit, window, es[1..]);
    }
  }

  lemma {:induction false} AllowedInInterval(b: Bucket, limit: nat, window: nat, es: seq<Call>,
                                             lo: int, hi: int, k: nat)
    requires Ordered(es) && hi <= lo + (k + 1) * window
    ensures |Answers(b, limit, window, es)| == |es|
    ensures AllowedWithin(es, Answers(b, limit, window, es), lo, hi) <= limit + limit * (k + 1)
    decreases |es|
  {
    if es != [] {
      if es[0].t1 >= lo {
        AllowedSince(b, limit, window, es, lo, hi, k);
      } else {
        var c := Touch(b, window, es[0]);
        OrderedTail(es);
        AllowedInInterval(c, limit, window, es[1..], lo, hi, k);
        assert Answers(b, limit, window, es)[1..] == Answers(c, limit, window, es[1..]);
      }
    }
  }

  function Ceil(d: nat, window: nat): nat
    requires window > 0
  {
    (d + window - 1) / window
  }

  lemma CeilCovers(d: nat, window: nat)
    requires window > 0
    ensures d <= Ceil(d, window) * window
  {
    var x := d + window - 1;
    assert x == (x / window) * window + x % window;
  }

  /** In any closed interval of length d > 0, one IP is allowed at most limit * (ceil(d / window) + 1)
      times, whatever else runs through the limiter. */
  lemma IntervalBound(limit: nat, window: nat, es: seq<Call>, ip: Ip, lo: int, d: nat)
    requires window > 0 && d > 0 && Ordered(Calls(es, ip))
    ensures var oks := AnswersTo(es, Run(map[], limit, window, es), ip);
            && |oks| == |Calls(es, ip)|
            && AllowedWithin(Calls(es, ip), oks, lo, lo + d) <= limit * (Ceil(d, window) + 1)
  {
    var mine := Calls(es, ip);
    Isolation(map[], limit, window, es, ip);
    CeilCovers(d, window);
    var n := Ceil(d, window);
    assert n == 0 ==> n * window == 0;
    AllowedInInterval(Start(map[], mine, ip), limit, window, mine, lo, lo + d, n - 1);
    assert limit * (n + 1) == limit + limit * n;
  }

  /** So one window length admits at most twice the limit. */
  lemma WindowBound(limit: nat, window: nat, es: seq<Call>, ip: Ip, lo: int)
    requires window > 0 && Ordered(Calls(es, ip))
    ensures var oks := AnswersTo(es, Run(map[], limit, window, es), ip);
            && |oks| == |Calls(es, ip)|
            && AllowedWithin(Calls(es, ip), oks, lo, lo + window) <= 2 * limit
  {
    IntervalBound(limit, window, es, ip, lo, window);
    assert Ceil(window, window) == 1 by { CeilOfOne(window); }
  }

  lemma CeilOfOne(window: nat)
    requires window > 0
    ensures Ceil(window, window) == 1
  {
    var x := window + window - 1;
    assert x == (x / window) * window + x % window;
    var q := x / window;
    assert q >= 2 ==> q * window >= 2 * window;
    assert q == 0 ==> q * window == 0;
  }

  // ---------------------------------------------------------------- who is let through

  function Since(from: int): Call -> bool {
    (e: Call) => e.t2 >= from
  }

  /** How many of the calls ended at or after `from`. */
  function Recent(es: seq<Call>, from: int): nat {
    CountIf(es, Since(from))
  }

  lemma {:induction false} RecentGrows(es: seq<Call>, from: int, later: int)
    requires from <= later
    ensures Recent(es, later) <= Recent(es, from)
    decreases |es|
  {
    if es != [] { RecentGrows(es[..|es| - 1], from, later); }
  }

  /** A bucket that has counted no more than the calls seen since its window began refuses none that has few
      behind it. */
  lemma {:induction false} QuietIsAllowed(b: Bucket, limit: nat, window: nat, seen: seq<Call>, es: seq<Call>, i: nat)
    requires limit > 0 && Ordered(es) && i < |es| && b.count <= Recent(seen, b.windowStart)
    requires forall j | 0 <= j < |es| :: b.windowStart <= es[j].t1
    requires Recent(seen + es[..i + 1], es[i].t1 - window) <= limit
    ensures |Answers(b, limit, window, es)| == |es| && Answers(b, limit, window, es)[i]
    decreases |es|
  {
    var e := es[0];
    var c := Touch(b, window, e);
    AnswersLength(b, limit, window, es);
    CountAppend(seen, Since(c.windowStart), e);
    RecentGrows(seen, b.windowStart, c.windowStart);
    if i == 0 {
      assert es[..1] == [e];
      if e.t1 - window <= c.windowStart { RecentGrows(seen + [e], e.t1 - window, c.windowStart); }
    } else {
      OrderedTail(es);
      assert seen + es[..i + 1] == (seen + [e]) + es[1..][..i];
      QuietIsAllowed(c, limit, window, seen + [e], es[1..], i - 1);
      assert Answers(b, limit, window, es)[1..] == Answers(c, limit, window, es[1..]);
    }
  }

  /** A call is refused only when its IP is busy: with a positive limit it is allowed whenever at most `limit`
      of the IP's calls, itself included, lie within the last window, whatever else runs through
      the limiter. */
  lemma RefusedOnlyWhenBusy(limit: nat, window: nat, es: seq<Call>, ip: Ip, i: nat)
    requires limit > 0 && Ordered(Calls(es, ip)) && i < |Calls(es, ip)|
    requires Recent(Calls(es, ip)[..i + 1], Calls(es, ip)[i].t1 - window) <= limit
    ensures var oks := AnswersTo(es, Run(map[], limit, window, es), ip);
            |oks| == |Calls(es, ip)| && oks[i]
  {
    var mine := Calls(es, ip);
    Isolation(map[], limit, window, es, ip);
    assert [] + mine[..i + 1] == mine[..i + 1];
    QuietIsAllowed(Start(map[], mine, ip), limit, window, [], mine, i);
  }

  /** So a client that has paused for longer than the window is always let in again. */
  lemma PauseLetsIn(limit: nat, window: nat, es: seq<Call>, ip: Ip, i: nat)
    requires limit > 0 && Ordered(Calls(es, ip)) && i < |Calls(es, ip)|
    requires i > 0 ==> Calls(es, ip)[i].t1 - Calls(es, ip)[i - 1].t2 > window
    ensures var oks := AnswersTo(es, Run(map[], limit, window, es), ip);
            |oks| == |Calls(es, ip)| && oks[i]
  {
    var mine := Calls(es, ip);
    var p := Since(mine[i].t1 - window);
    forall j | 0 <= j < i ensures !p(mine[..i][j]) {
      assert j < i - 1 ==> mine[j].t2 <= mine[i - 1].t1 <= mine[i - 1].t2;
    }
    CountZero(mine[..i], p);
    CountAppend(mine[..i], p, mine[i]);
    assert mine[..i + 1] == mine[..i] + [mine[i]];
    RefusedOnlyWhenBusy(limit, window, es, ip, i);
  }

  // ---------------------------------------------------------------- the bound is attained

  function Burst(n: nat, e: Call): (es: seq<Call>)
    ensures |es| == n && forall i | 0 <= i < n :: es[i] == e
  {
    if n == 0 then [] else [e] + Burst(n - 1, e)
  }

  lemma {:induction false} BurstIsAllowed(b: Bucket, limit: nat, window: nat, n: nat, e: Call, es: seq<Call>,
                                          lo: int, hi: int)
    requires b.count + n <= limit && e.t1 - b.windowStart <= window && lo <= e.t1 <= hi
    ensures var c := b.(count := b.count + n);
            && |Answers(b, limit, window, Burst(n, e) + es)| == n + |es|
            && |Answers(c, limit, window, es)| == |es|
            && AllowedWithin(Burst(n, e) + es, Answers(b, limit, window, Burst(n, e) + es), lo, hi)
               == n + AllowedWithin(es, Answers(c, limit, window, es), lo, hi)
    decreases n
  {
    AnswersLength(b, limit, window, Burst(n, e) + es);
    AnswersLength(b.(count := b.count + n), limit, window, es);
    if n == 0 {
      assert Burst(n, e) + es == es;
    } else {
      var c := Touch(b, window, e);
      assert (Burst(n, e) + es)[1..] == Burst(n - 1, e) + es;
      BurstIsAllowed(c, limit, window, n - 1, e, es, lo, hi);
      assert Answers(b, limit, window, Burst(n, e) + es)[1..] == Answers(c, limit, window, Burst(n - 1, e) + es);
    }
  }

  lemma {:induction false} AnswersLength(b: Bucket, limit: nat, window: nat, es: seq<Call>)
    ensures |Answers(b, limit, window, es)| == |es|
    decreases |es|
  {
    if es != [] { AnswersLength(Touch(b, window, es[0]), limit, window, es[1..]); }
  }

  /** A burst at the very end of one window and another just after it are both allowed in full, so
      `WindowBound` cannot be improved. */
  lemma WindowBoundIsTight(limit: nat, window: nat, ip: Ip)
    requires limit > 0 && window > 0
    ensures var es := Burst(limit, Call(ip, 0, window, window)) + Burst(limit, Call(ip, 0, window + 1, window + 1));
            var oks := Answers(Bucket(0, 0), limit, window, es);
            && Ordered(es) && |oks| == |es|
            && AllowedWithin(es, oks, window, 2 * window) == 2 * limit
  {
    var first := Call(ip, 0, window, window);
    var second := Call(ip, 0, window + 1, window + 1);
    var tail := Burst(limit, second);
    BurstIsAllowed(Bucket(0, 0), limit, window, limit, first, tail, window, 2 * window);
    var full := Bucket(limit, 0);
    assert tail[1..] == Burst(limit - 1, second) + [];
    BurstIsAllowed(Bucket(1, window + 1), limit, window, limit - 1, second, [], window, 2 * window);
    AnswersLength(full, limit, window, tail);
    assert Answers(full, limit, window, tail)[1..] == Answers(Bucket(1, window + 1), limit, window, tail[1..]);
  }
}
