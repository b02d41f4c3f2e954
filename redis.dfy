/**
 * The coordination store (be/src/services/redis.ts) with Redis replaced by
 * in-memory state: the `task_queue` sorted set, the `rate:{id}` counters, the
 * `proxy_health` hash and the lock keys.  Time to live is kept as a number of
 * seconds beside each expiring key, and the passage of time is the explicit
 * operation `Tick`.
 */
module RedisStore {
  import opened Wrappers

  type TaskId = string
  type ProxyId = string

  /** Seconds a rate counter lives after an increment (the `expire(key, 60)` call). */
  const RateWindow: nat := 60

  /** A `rate:{id}` key: the request count and its remaining time to live. */
  datatype Counter = Counter(count: nat, ttl: nat)

  // ---------------------------------------------------------------------------
  // Order of the sorted set
  // ---------------------------------------------------------------------------

  /**
   * The order Redis uses between members of equal score: byte-wise comparison,
   * a proper prefix first.  On UTF-8 strings byte order is code-point order.
   */
  predicate MemberLess(a: string, b: string)
    decreases |a|
  {
    |b| > 0 && (|a| == 0 || a[0] < b[0] || (a[0] == b[0] && MemberLess(a[1..], b[1..])))
  }

  lemma {:induction false} MemberLessIrreflexive(a: string)
    ensures !MemberLess(a, a)
    decreases |a|
  {
    if |a| > 0 {
      MemberLessIrreflexive(a[1..]);
    }
  }

  lemma {:induction false} MemberLessTransitive(a: string, b: string, c: string)
    requires MemberLess(a, b) && MemberLess(b, c)
    ensures MemberLess(a, c)
    decreases |a|
  {
    if |a| > 0 && a[0] == b[0] && b[0] == c[0] {
      MemberLessTransitive(a[1..], b[1..], c[1..]);
    }
  }

  lemma {:induction false} MemberLessTotal(a: string, b: string)
    requires a != b
    ensures MemberLess(a, b) || MemberLess(b, a)
    decreases |a|
  {
    if |a| > 0 && |b| > 0 && a[0] == b[0] {
      assert a == [a[0]] + a[1..] && b == [b[0]] + b[1..];
      MemberLessTotal(a[1..], b[1..]);
    }
  }

  /** Whether member `a` of the queue is served before member `b`: lower score first, then member order. */
  predicate Precedes(q: map<TaskId, int>, a: TaskId, b: TaskId)
    requires a in q && b in q
  {
    q[a] < q[b] || (q[a] == q[b] && MemberLess(a, b))
  }

  lemma PrecedesTransitive(q: map<TaskId, int>, a: TaskId, b: TaskId, c: TaskId)
    requires a in q && b in q && c in q
    requires Precedes(q, a, b) && Precedes(q, b, c)
    ensures Precedes(q, a, c)
  {
    if q[a] == q[b] == q[c] {
      MemberLessTransitive(a, b, c);
    }
  }

  lemma PrecedesAsymmetric(q: map<TaskId, int>, a: TaskId, b: TaskId)
    requires a in q && b in q && Precedes(q, a, b)
    ensures !Precedes(q, b, a)
  {
    if q[a] == q[b] && MemberLess(b, a) {
      MemberLessTransitive(a, b, a);
      MemberLessIrreflexive(a);
    }
  }

  lemma PrecedesTotal(q: map<TaskId, int>, a: TaskId, b: TaskId)
    requires a in q && b in q && a != b
    ensures Precedes(q, a, b) || Precedes(q, b, a)
  {
    MemberLessTotal(a, b);
  }

  /** `m` is the member `ZRANGE task_queue 0 0` returns: it precedes every other member. */
  ghost predicate IsHead(q: map<TaskId, int>, m: TaskId)
  {
    m in q && forall k :: k in q && k != m ==> Precedes(q, m, k)
  }

  /** Every non-empty queue has a head. */
  lemma {:induction false} HeadExists(q: map<TaskId, int>)
    requires q != map[]
    ensures exists m :: IsHead(q, m)
    decreases q.Keys
  {
    var k :| k in q;
    var rest := q - {k};
    if rest == map[] {
      assert forall j :: j in q && j != k ==> j in rest;
      assert IsHead(q, k);
    } else {
      assert rest.Keys < q.Keys;
      HeadExists(rest);
      var m :| IsHead(rest, m);
      if Precedes(q, k, m) {
        forall j | j in q && j != k
          ensures Precedes(q, k, j)
        {
          if j != m {
            assert Precedes(rest, m, j);
            PrecedesTransitive(q, k, m, j);
          }
        }
        assert IsHead(q, k);
      } else {
        PrecedesTotal(q, k, m);
        forall j | j in q && j != m
          ensures Precedes(q, m, j)
        {
          if j != k {
            assert Precedes(rest, m, j);
          }
        }
        assert IsHead(q, m);
      }
    }
  }

  /** The head is unique. */
  lemma HeadUnique(q: map<TaskId, int>, a: TaskId, b: TaskId)
    requires IsHead(q, a) && IsHead(q, b)
    ensures a == b
  {
    if a != b {
      PrecedesAsymmetric(q, a, b);
    }
  }

  /** The head of a non-empty queue. */
  ghost function Head(q: map<TaskId, int>): (m: TaskId)
    requires q != map[]
    ensures IsHead(q, m)
  {
    HeadExists(q);
    var m :| IsHead(q, m);
    m
  }

  /**
   * What `getNextTask` answers: the head, except that an empty queue, and an
   * empty-string member at the head (falsy in `result[0] || null`), read as null.
   */
  ghost function Peek(q: map<TaskId, int>): Option<TaskId>
  {
    if q == map[] || Head(q) == "" then None else Some(Head(q))
  }

  /** The peeked member is queued and no queued member has a lower score. */
  lemma PeekHasLowestScore(q: map<TaskId, int>)
    ensures Peek(q).Some? ==> Peek(q).value in q && forall k :: k in q ==> q[Peek(q).value] <= q[k]
    ensures Peek(q).None? <==> q == map[] || IsHead(q, "")
  {
    if q != map[] && IsHead(q, "") {
      HeadUnique(q, "", Head(q));
    }
  }

  /** For queues of non-empty ids, `getNextTask` is null exactly when the queue is empty. */
  lemma PeekNoneIffEmpty(q: map<TaskId, int>)
    requires "" !in q
    ensures Peek(q).None? <==> q == map[]
  {
  }

  /** The order in which repeatedly taking and removing the head empties the queue. */
  ghost function DrainOrder(q: map<TaskId, int>): seq<TaskId>
    decreases q.Keys
  {
    if q == map[] then []
    else
      var m := Head(q);
      assert (q - {m}).Keys < q.Keys;
      [m] + DrainOrder(q - {m})
  }

  /** One step of draining: the head, then the drain of what remains. */
  lemma DrainStep(q: map<TaskId, int>)
    requires q != map[]
    ensures (q - {Head(q)}).Keys < q.Keys
    ensures |q - {Head(q)}| == |q| - 1
    ensures forall k :: k in q - {Head(q)} <==> k in q && k != Head(q)
    ensures DrainOrder(q) == [Head(q)] + DrainOrder(q - {Head(q)})
  {
    var rest := q - {Head(q)};
    assert rest.Keys == q.Keys - {Head(q)};
  }

  /** Draining the queue visits every member exactly once. */
  lemma {:induction false} DrainVisitsEveryMember(q: map<TaskId, int>)
    ensures |DrainOrder(q)| == |q|
    ensures forall k :: k in DrainOrder(q) <==> k in q
    decreases q.Keys
  {
    if q != map[] {
      DrainStep(q);
      DrainVisitsEveryMember(q - {Head(q)});
    }
  }

  /** Draining the queue yields members in order of non-decreasing score. */
  lemma {:induction false} DrainScoresNonDecreasing(q: map<TaskId, int>)
    ensures forall i, j :: 0 <= i < j < |DrainOrder(q)| ==>
      DrainOrder(q)[i] in q && DrainOrder(q)[j] in q && q[DrainOrder(q)[i]] <= q[DrainOrder(q)[j]]
    decreases q.Keys
  {
    if q != map[] {
      var m := Head(q);
      var rest := q - {m};
      DrainStep(q);
      DrainVisitsEveryMember(rest);
      DrainScoresNonDecreasing(rest);
      var tail := DrainOrder(rest);
      var d := DrainOrder(q);
      forall i, j | 0 <= i < j < |d|
        ensures d[i] in q && d[j] in q && q[d[i]] <= q[d[j]]
      {
        assert d[j] == tail[j - 1] && tail[j - 1] in rest;
        if i == 0 {
          assert d[i] == m && d[j] != m;
          assert Precedes(q, m, d[j]);
        } else {
          assert d[i] == tail[i - 1];
          assert rest[tail[i - 1]] <= rest[tail[j - 1]];
        }
      }
    } else {
      assert DrainOrder(q) == [];
    }
  }

  // ---------------------------------------------------------------------------
  // Rate counters, health entries and lock keys
  // ---------------------------------------------------------------------------

  /** The value of `rate:{p}`, zero when the key is absent. */
  function CountOf(rate: map<ProxyId, Counter>, p: ProxyId): nat
  {
    if p in rate then rate[p].count else 0
  }

  /** The counters after `INCR rate:{p}` followed by `EXPIRE rate:{p} 60`. */
  function Incremented(rate: map<ProxyId, Counter>, p: ProxyId): (r: map<ProxyId, Counter>)
    ensures CountOf(r, p) == CountOf(rate, p) + 1
    ensures p in r && r[p].ttl == RateWindow
    ensures forall q :: q != p ==> (q in r <==> q in rate) && (q in rate ==> r[q] == rate[q])
  {
    rate[p := Counter(CountOf(rate, p) + 1, RateWindow)]
  }

  /** The counters once `dt` seconds have passed: expired keys are gone, the others have less time left. */
  function RateAfter(rate: map<ProxyId, Counter>, dt: nat): map<ProxyId, Counter>
  {
    map p | p in rate && rate[p].ttl > dt :: Counter(rate[p].count, rate[p].ttl - dt)
  }

  /** The lock keys once `dt` seconds have passed. */
  function LocksAfter(locks: map<string, nat>, dt: nat): map<string, nat>
  {
    map k | k in locks && locks[k] > dt :: locks[k] - dt
  }

  /** What `getProxyHealth` reads: the stored flag is '1'; an absent entry reads as false. */
  predicate Healthy(health: map<ProxyId, bool>, p: ProxyId)
  {
    p in health && health[p]
  }

  /** A health read returns the last value written for that proxy and ignores writes for others. */
  lemma HealthReadsLastWrite(health: map<ProxyId, bool>, p: ProxyId, b: bool, q: ProxyId)
    ensures Healthy(health[p := b], q) == if q == p then b else Healthy(health, q)
  {
  }

  class RedisService {
    /** The `task_queue` sorted set: member to score. */
    var queue: map<TaskId, int>
    /** The `rate:{id}` keys. */
    var rate: map<ProxyId, Counter>
    /** The `proxy_health` hash. */
    var health: map<ProxyId, bool>
    /** Lock keys present in the store, with their remaining time to live. */
    var locks: map<string, nat>

    constructor()
      ensures queue == map[] && rate == map[] && health == map[] && locks == map[]
    {
      queue := map[];
      rate := map[];
      health := map[];
      locks := map[];
    }

    /** INCR then EXPIRE: the count goes up by one and its time to live is reset to 60 on every call. */
    method IncrementRequestCount(proxyId: ProxyId) returns (count: nat)
      modifies this`rate
      ensures count == CountOf(old(rate), proxyId) + 1
      ensures rate == Incremented(old(rate), proxyId)
    {
      count := CountOf(rate, proxyId) + 1;
      rate := rate[proxyId := Counter(count, RateWindow)];
    }

    /** ZADD: the member gets exactly this score, whether or not it was queued. */
    method PushTask(taskId: TaskId, priority: int)
      modifies this`queue
      ensures queue == old(queue)[taskId := priority]
    {
      queue := queue[taskId := priority];
    }

    /** ZREM on `task_queue`: removes the member if present. */
    method RemoveTask(member: TaskId)
      modifies this`queue
      ensures queue == old(queue) - {member}
    {
      queue := queue - {member};
    }

    /** ZRANGE task_queue 0 0, then `result[0] || null`. */
    method GetNextTask() returns (r: Option<TaskId>)
      ensures r == Peek(queue)
    {
      if queue == map[] {
        return None;
      }
      var best :| best in queue;
      var rest := queue.Keys - {best};
      while rest != {}
        invariant rest <= queue.Keys && best in queue && best !in rest
        invariant forall k :: k in queue && k !in rest && k != best ==> Precedes(queue, best, k)
        decreases rest
      {
        var k :| k in rest;
        if Precedes(queue, k, best) {
          forall j | j in queue && j !in rest - {k} && j != k
            ensures Precedes(queue, k, j)
          {
            if j != best {
              PrecedesTransitive(queue, k, best, j);
            }
          }
          best := k;
        } else {
          PrecedesTotal(queue, best, k);
        }
        rest := rest - {k};
      }
      HeadUnique(queue, best, Head(queue));
      r := if best == "" then None else Some(best);
    }

    /** HSET proxy_health. */
    method SetProxyHealth(proxyId: ProxyId, isHealthy: bool)
      modifies this`health
      ensures health == old(health)[proxyId := isHealthy]
    {
      health := health[proxyId := isHealthy];
    }

    /** HGET proxy_health, compared with '1'. */
    method GetProxyHealth(proxyId: ProxyId) returns (isHealthy: bool)
      ensures isHealthy <==> proxyId in health && health[proxyId]
    {
      isHealthy := proxyId in health && health[proxyId];
    }

    /** SET key 1 EX ttl NX: succeeds exactly when the key is absent; the key is present afterwards. */
    method AcquireLock(key: string, ttl: nat) returns (acquired: bool)
      requires ttl > 0
      modifies this`locks
      ensures acquired <==> key !in old(locks)
      ensures key in locks
      ensures locks == if acquired then old(locks)[key := ttl] else old(locks)
    {
      acquired := key !in locks;
      if acquired {
        locks := locks[key := ttl];
      }
    }

    /** DEL key. */
    method ReleaseLock(key: string)
      modifies this`locks
      ensures key !in locks
      ensures locks == old(locks) - {key}
    {
      locks := locks - {key};
    }

    /** The passage of `dt` seconds: keys whose time to live runs out disappear. */
    method Tick(dt: nat)
      modifies this`rate, this`locks
      ensures rate == RateAfter(old(rate), dt)
      ensures locks == LocksAfter(old(locks), dt)
    {
      rate := RateAfter(rate, dt);
      locks := LocksAfter(locks, dt);
    }
  }

  /** Two acquisitions of one key with no release between: at most one succeeds, and the second never does. */
  method AcquireTwice(store: RedisService, key: string, ttl: nat) returns (first: bool, second: bool)
    requires ttl > 0
    modifies store`locks
    ensures first <==> key !in old(store.locks)
    ensures !second
  {
    first := store.AcquireLock(key, ttl);
    second := store.AcquireLock(key, ttl);
  }

  /** A lock that is never released can be acquired again once its time to live has passed. */
  method AcquireAfterExpiry(store: RedisService, key: string, ttl: nat) returns (first: bool, second: bool)
    requires ttl > 0
    modifies store`locks, store`rate
    ensures first <==> key !in old(store.locks)
    ensures first ==> second
  {
    first := store.AcquireLock(key, ttl);
    store.Tick(ttl);
    second := store.AcquireLock(key, ttl);
  }

  /** After a release the next acquisition of the same key succeeds. */
  method AcquireAfterRelease(store: RedisService, key: string, ttl: nat) returns (acquired: bool)
    requires ttl > 0
    modifies store`locks
    ensures acquired
  {
    store.ReleaseLock(key);
    acquired := store.AcquireLock(key, ttl);
  }
}
