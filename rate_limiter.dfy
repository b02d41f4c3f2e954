/** The per-proxy request limiter (be/src/services/rateLimiter.ts). */
module RateLimiting {
  import opened RedisStore
  import opened Constants

  class RateLimiter {
    const redis: RedisService

    constructor(redis: RedisService)
      ensures this.redis == redis
    {
      this.redis := redis;
    }

    /**
     * Increments the proxy's counter, then admits the request iff the new count
     * is at most the ceiling.  Rejected calls are counted too.
     */
    method CanMakeRequest(proxyIPId: ProxyId) returns (allowed: bool)
      modifies redis`rate
      ensures allowed <==> CountOf(old(redis.rate), proxyIPId) + 1 <= RequestsPerMinute
      ensures redis.rate == Incremented(old(redis.rate), proxyIPId)
    {
      var count := redis.IncrementRequestCount(proxyIPId);
      allowed := count <= RequestsPerMinute;
    }
  }

  /**
   * The answers of successive `canMakeRequest(p)` calls, the i-th made
   * `gaps[i]` seconds after the one before it (after the start for i = 0).
   */
  function Verdicts(rate: map<ProxyId, Counter>, p: ProxyId, gaps: seq<nat>): (v: seq<bool>)
    ensures |v| == |gaps|
    decreases |gaps|
  {
    if gaps == [] then []
    else
      var aged := RateAfter(rate, gaps[0]);
      [CountOf(aged, p) + 1 <= RequestsPerMinute] + Verdicts(Incremented(aged, p), p, gaps[1..])
  }

  /**
   * The calls `Verdicts` stands for: for each gap, `gaps[i]` seconds pass and
   * then `canMakeRequest(p)` is asked; the answers are the verdicts of the
   * starting counters.
   */
  method SuccessiveRequests(limiter: RateLimiter, p: ProxyId, gaps: seq<nat>) returns (v: seq<bool>)
    modifies limiter.redis`rate, limiter.redis`locks
    ensures v == Verdicts(old(limiter.redis.rate), p, gaps)
  {
    v := [];
    var i := 0;
    while i < |gaps|
      invariant 0 <= i <= |gaps|
      invariant v + Verdicts(limiter.redis.rate, p, gaps[i..]) == Verdicts(old(limiter.redis.rate), p, gaps)
    {
      limiter.redis.Tick(gaps[i]);
      var allowed := limiter.CanMakeRequest(p);
      assert gaps[i..][1..] == gaps[i + 1..];
      v := v + [allowed];
      i := i + 1;
    }
  }

  /**
   * While calls arrive less than a window apart the counter is never reset,
   * because every increment restarts its time to live: the i-th call is
   * admitted iff the starting count plus i + 1 is within the ceiling.
   */
  lemma {:induction false} CallsWithinWindowKeepCounting(rate: map<ProxyId, Counter>, p: ProxyId, gaps: seq<nat>)
    requires p in rate ==> rate[p].ttl == RateWindow
    requires forall i :: 0 <= i < |gaps| ==> gaps[i] < RateWindow
    ensures forall i :: 0 <= i < |gaps| ==>
      Verdicts(rate, p, gaps)[i] == (CountOf(rate, p) + i + 1 <= RequestsPerMinute)
    decreases |gaps|
  {
    if gaps != [] {
      var aged := RateAfter(rate, gaps[0]);
      assert CountOf(aged, p) == CountOf(rate, p);
      var next := Incremented(aged, p);
      CallsWithinWindowKeepCounting(next, p, gaps[1..]);
      var v := Verdicts(rate, p, gaps);
      var w := Verdicts(next, p, gaps[1..]);
      assert v == [CountOf(rate, p) + 1 <= RequestsPerMinute] + w;
      forall i | 0 < i < |gaps|
        ensures v[i] == (CountOf(rate, p) + i + 1 <= RequestsPerMinute)
      {
        assert v[i] == w[i - 1];
      }
    }
  }

  /**
   * From an absent counter, with calls less than a window apart, the first 60
   * calls are admitted and every later one is refused.
   */
  lemma FirstSixtyAdmitted(rate: map<ProxyId, Counter>, p: ProxyId, gaps: seq<nat>)
    requires p !in rate
    requires forall i :: 0 <= i < |gaps| ==> gaps[i] < RateWindow
    ensures forall i :: 0 <= i < |gaps| ==> Verdicts(rate, p, gaps)[i] == (i < 60)
  {
    CallsWithinWindowKeepCounting(rate, p, gaps);
  }

  /** Once a full window passes without a call, the counter is gone and the next call is admitted. */
  lemma IdleWindowResets(rate: map<ProxyId, Counter>, p: ProxyId, dt: nat)
    requires p in rate ==> rate[p].ttl <= dt
    ensures CountOf(RateAfter(rate, dt), p) == 0
    ensures Verdicts(rate, p, [dt]) == [true]
  {
  }

  /** The answers for one proxy depend only on that proxy's own key. */
  lemma {:induction false} VerdictsDependOnlyOnOwnKey(rate1: map<ProxyId, Counter>, rate2: map<ProxyId, Counter>, p: ProxyId, gaps: seq<nat>)
    requires p in rate1 <==> p in rate2
    requires p in rate1 ==> rate1[p] == rate2[p]
    ensures Verdicts(rate1, p, gaps) == Verdicts(rate2, p, gaps)
    decreases |gaps|
  {
    if gaps != [] {
      var aged1, aged2 := RateAfter(rate1, gaps[0]), RateAfter(rate2, gaps[0]);
      assert CountOf(aged1, p) == CountOf(aged2, p);
      VerdictsDependOnlyOnOwnKey(Incremented(aged1, p), Incremented(aged2, p), p, gaps[1..]);
    }
  }

  /** A call for one proxy never changes what later calls for another proxy answer. */
  lemma OtherProxyUnaffected(rate: map<ProxyId, Counter>, p: ProxyId, q: ProxyId, gaps: seq<nat>)
    requires p != q
    ensures Verdicts(Incremented(rate, p), q, gaps) == Verdicts(rate, q, gaps)
  {
    VerdictsDependOnlyOnOwnKey(Incremented(rate, p), rate, q, gaps);
  }
}
