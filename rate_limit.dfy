/**
 * The relay's in-memory, fixed-window, per-address rate limiter. Windows are
 * aligned to the epoch, a bucket is reset only once the clock is strictly
 * past its window end, and a rejected request leaves the buckets untouched.
 */
module RateLimit {

  datatype Bucket = Bucket(count: int, resetAt: int)

  datatype Decision = Decision(allowed: bool, remaining: int, resetAt: int)

  /**
   * The end of the window holding `now` (milliseconds): the smallest multiple
   * of the window length strictly greater than `now`.
   */
  function WindowEnd(now: int, windowSec: int): (e: int)
    requires windowSec > 0
    ensures e > now
    ensures e % (windowSec * 1000) == 0
    ensures e - windowSec * 1000 <= now
  {
    var w := windowSec * 1000;
    assert now == (now / w) * w + now % w;
    MultipleMod(now / w + 1, w);
    (now / w) * w + w
  }

  lemma MultipleMod(q: int, w: int)
    requires w > 0
    ensures (q * w) % w == 0
  {
    var x := q * w;
    var k := q - x / w;
    assert x == (x / w) * w + x % w;
    assert k * w == x % w;
    MulSign(k, w);
  }

  lemma MulSign(k: int, w: int)
    requires w > 0
    ensures k >= 1 ==> k * w >= w
    ensures k <= -1 ==> k * w <= -w
  {
  }

  /** The admission decision and the buckets after it, for one request at time `now`. */
  function Admit(buckets: map<string, Bucket>, ip: string, windowSec: int, maxPerIp: int, now: int)
    : (r: (Decision, map<string, Bucket>))
    requires windowSec > 0
    ensures r.0.allowed <==> ip !in buckets || now > buckets[ip].resetAt || buckets[ip].count < maxPerIp
    ensures !r.0.allowed ==> r.1 == buckets && r.0.remaining == 0
    ensures r.0.allowed ==> ip in r.1 && r.0.remaining == maxPerIp - r.1[ip].count && r.0.resetAt == r.1[ip].resetAt
    ensures r.1.Keys == buckets.Keys + {ip} || r.1 == buckets
  {
    if ip !in buckets || now > buckets[ip].resetAt then
      var e := WindowEnd(now, windowSec);
      (Decision(true, maxPerIp - 1, e), buckets[ip := Bucket(1, e)])
    else if buckets[ip].count >= maxPerIp then
      (Decision(false, 0, buckets[ip].resetAt), buckets)
    else
      var b := buckets[ip];
      (Decision(true, maxPerIp - (b.count + 1), b.resetAt), buckets[ip := Bucket(b.count + 1, b.resetAt)])
  }

  /** No bucket holds more requests than the limit, and every bucket has seen one. */
  ghost predicate Bounded(buckets: map<string, Bucket>, maxPerIp: int) {
    forall k :: k in buckets ==> 1 <= buckets[k].count <= maxPerIp
  }

  /** Every window end is a multiple of the window length. */
  ghost predicate Aligned(buckets: map<string, Bucket>, windowSec: int)
    requires windowSec > 0
  {
    forall k :: k in buckets ==> buckets[k].resetAt % (windowSec * 1000) == 0
  }

  /**
   * One admission: it is allowed exactly when there is no live bucket or the
   * bucket is under the limit; a rejection changes nothing and reports no
   * remaining budget and the existing window end; an admission reports the
   * budget left in the stored bucket; only the requester's bucket changes;
   * the bound and the alignment of the buckets are kept.
   */
  lemma AdmitProperties(buckets: map<string, Bucket>, ip: string, windowSec: int, maxPerIp: int, now: int)
    requires windowSec > 0
    ensures var (d, m) := Admit(buckets, ip, windowSec, maxPerIp, now);
      && (d.allowed <==> ip !in buckets || now > buckets[ip].resetAt || buckets[ip].count < maxPerIp)
      && (!d.allowed ==> m == buckets && d.remaining == 0 && d.resetAt == buckets[ip].resetAt)
      && (d.allowed ==> ip in m && d.remaining == maxPerIp - m[ip].count && d.resetAt == m[ip].resetAt)
      && d.resetAt >= now
      && (forall k :: k != ip ==> (k in m <==> k in buckets) && (k in m ==> m[k] == buckets[k]))
      && (maxPerIp >= 1 && Bounded(buckets, maxPerIp) ==> Bounded(m, maxPerIp) && d.remaining >= 0)
      && (Aligned(buckets, windowSec) ==> Aligned(m, windowSec))
  {
  }

  /** A run of requests from one address, at the given times, in order. */
  function AdmitAll(buckets: map<string, Bucket>, ip: string, windowSec: int, maxPerIp: int, times: seq<int>)
    : (r: (seq<Decision>, map<string, Bucket>))
    requires windowSec > 0
    ensures |r.0| == |times|
    decreases |times|
  {
    if times == [] then ([], buckets)
    else
      var (d, m) := Admit(buckets, ip, windowSec, maxPerIp, times[0]);
      var (ds, m') := AdmitAll(m, ip, windowSec, maxPerIp, times[1..]);
      ([d] + ds, m')
  }

  /**
   * Requests that all come no later than the window end of a live bucket
   * holding `c` requests: the i-th is admitted exactly when `c + i` is under
   * the limit, with the budget counting down to zero, every answer carries
   * the same window end, and rejections never move the counter.
   */
  lemma {:induction false} BurstWithinWindow(
    buckets: map<string, Bucket>, ip: string, windowSec: int, maxPerIp: int, times: seq<int>, c: int, resetAt: int)
    requires windowSec > 0
    requires ip in buckets && buckets[ip] == Bucket(c, resetAt)
    requires forall i :: 0 <= i < |times| ==> times[i] <= resetAt
    ensures var (ds, m) := AdmitAll(buckets, ip, windowSec, maxPerIp, times);
      && ip in m && m[ip].resetAt == resetAt
      && m[ip].count == (if c >= maxPerIp then c else if c + |times| <= maxPerIp then c + |times| else maxPerIp)
      && forall i :: 0 <= i < |ds| ==>
           && ds[i].resetAt == resetAt
           && (ds[i].allowed <==> c + i < maxPerIp)
           && ds[i].remaining == (if c + i < maxPerIp then maxPerIp - (c + i + 1) else 0)
    decreases |times|
  {
    if times != [] {
      var (d, m) := Admit(buckets, ip, windowSec, maxPerIp, times[0]);
      var c1 := if c < maxPerIp then c + 1 else c;
      assert m[ip] == Bucket(c1, resetAt);
      BurstWithinWindow(m, ip, windowSec, maxPerIp, times[1..], c1, resetAt);
      var (ds, m') := AdmitAll(m, ip, windowSec, maxPerIp, times[1..]);
      assert AdmitAll(buckets, ip, windowSec, maxPerIp, times).0 == [d] + ds;
      forall i | 1 <= i < |times|
        ensures ([d] + ds)[i].allowed <==> c + i < maxPerIp
      {
        assert ([d] + ds)[i] == ds[i - 1];
      }
    }
  }

  /**
   * A fresh window: when the first request finds no live bucket and the
   * others come no later than the end of its window, the first is always
   * admitted, the i-th is admitted exactly when `i` is under the limit, with
   * `max - 1 - i` left, and all answers carry that window's end.
   */
  lemma FreshWindowAdmitsUpToMax(
    buckets: map<string, Bucket>, ip: string, windowSec: int, maxPerIp: int, times: seq<int>)
    requires windowSec > 0 && |times| >= 1
    requires ip !in buckets || times[0] > buckets[ip].resetAt
    requires forall i :: 0 <= i < |times| ==> times[i] <= WindowEnd(times[0], windowSec)
    ensures var ds := AdmitAll(buckets, ip, windowSec, maxPerIp, times).0;
      forall i :: 0 <= i < |ds| ==>
        && ds[i].resetAt == WindowEnd(times[0], windowSec)
        && (ds[i].allowed <==> i == 0 || i < maxPerIp)
        && ds[i].remaining == (if i == 0 || i < maxPerIp then maxPerIp - 1 - i else 0)
  {
    var e := WindowEnd(times[0], windowSec);
    var (d, m) := Admit(buckets, ip, windowSec, maxPerIp, times[0]);
    BurstWithinWindow(m, ip, windowSec, maxPerIp, times[1..], 1, e);
    var ds := AdmitAll(m, ip, windowSec, maxPerIp, times[1..]).0;
    assert AdmitAll(buckets, ip, windowSec, maxPerIp, times).0 == [d] + ds;
    forall i | 1 <= i < |times|
      ensures ([d] + ds)[i] == ds[i - 1]
    {
    }
  }

  /** Ten per minute: eleven requests inside one minute, the eleventh is refused with nothing left. */
  lemma EleventhRequestRejected(buckets: map<string, Bucket>, ip: string, times: seq<int>)
    requires |times| == 11
    requires ip !in buckets || times[0] > buckets[ip].resetAt
    requires forall i :: 0 <= i < 11 ==> times[i] <= WindowEnd(times[0], 60)
    ensures var ds := AdmitAll(buckets, ip, 60, 10, times).0;
      && (forall i :: 0 <= i < 10 ==> ds[i].allowed)
      && !ds[10].allowed && ds[10].remaining == 0 && ds[10].resetAt == WindowEnd(times[0], 60)
  {
    FreshWindowAdmitsUpToMax(buckets, ip, 60, 10, times);
  }

  /**
   * The per-address buckets (the module-level map of the endpoint), owned by
   * one limiter object.
   */
  class RateLimiter {
    var buckets: map<string, Bucket>

    constructor ()
      ensures buckets == map[]
    {
      buckets := map[];
    }

    /** `takeToken`: admit or reject one request from `ip` at time `now`. */
    method TakeToken(ip: string, windowSec: int, maxPerIp: int, now: int) returns (d: Decision)
      requires windowSec > 0
      modifies this
      ensures (d, buckets) == Admit(old(buckets), ip, windowSec, maxPerIp, now)
      ensures ip !in old(buckets) || now > old(buckets)[ip].resetAt ==>
        && d == Decision(true, maxPerIp - 1, WindowEnd(now, windowSec))
        && buckets == old(buckets)[ip := Bucket(1, WindowEnd(now, windowSec))]
      ensures ip in old(buckets) && now <= old(buckets)[ip].resetAt && old(buckets)[ip].count >= maxPerIp ==>
        && d == Decision(false, 0, old(buckets)[ip].resetAt)
        && buckets == old(buckets)
      ensures ip in old(buckets) && now <= old(buckets)[ip].resetAt && old(buckets)[ip].count < maxPerIp ==>
        var b := old(buckets)[ip];
        && d == Decision(true, maxPerIp - (b.count + 1), b.resetAt)
        && buckets == old(buckets)[ip := Bucket(b.count + 1, b.resetAt)]
    {
      var windowEnd := WindowEnd(now, windowSec);
      if ip !in buckets || now > buckets[ip].resetAt {
        buckets := buckets[ip := Bucket(1, windowEnd)];
        return Decision(true, maxPerIp - 1, windowEnd);
      }
      var b := buckets[ip];
      if b.count >= maxPerIp {
        return Decision(false, 0, b.resetAt);
      }
      buckets := buckets[ip := Bucket(b.count + 1, b.resetAt)];
      d := Decision(true, maxPerIp - (b.count + 1), b.resetAt);
    }
  }
}
