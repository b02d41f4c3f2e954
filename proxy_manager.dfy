/** Proxy selection and liveness updates (be/src/services/proxyManager.ts). */
module ProxyManagement {
  import opened Wrappers
  import opened RedisStore
  import opened Records

  /** A proxy `getAvailableProxy` may return: its durable flag is active and its health entry is true. */
  predicate Eligible(proxy: Proxy, health: map<ProxyId, bool>)
  {
    proxy.isActive && Healthy(health, proxy.id)
  }

  /** The position of the first eligible proxy in listing order; `|proxies|` when none is. */
  function FirstEligible(proxies: seq<Proxy>, health: map<ProxyId, bool>): (i: nat)
    ensures i <= |proxies|
    ensures i < |proxies| ==> Eligible(proxies[i], health)
    ensures forall j :: 0 <= j < i ==> !Eligible(proxies[j], health)
    decreases |proxies|
  {
    if proxies == [] then 0
    else if Eligible(proxies[0], health) then 0
    else 1 + FirstEligible(proxies[1..], health)
  }

  /** The proxy that `getAvailableProxy` returns. */
  function SelectProxy(proxies: seq<Proxy>, health: map<ProxyId, bool>): Option<Proxy>
  {
    var i := FirstEligible(proxies, health);
    if i < |proxies| then Some(proxies[i]) else None
  }

  /**
   * Selection is first-match: the result is the earliest listed proxy that is
   * active and healthy; there is none exactly when no listed proxy is both.
   * A proxy without a health entry is never selected.
   */
  lemma SelectProxyIsFirstMatch(proxies: seq<Proxy>, health: map<ProxyId, bool>)
    ensures SelectProxy(proxies, health).None? <==> forall i :: 0 <= i < |proxies| ==> !Eligible(proxies[i], health)
    ensures SelectProxy(proxies, health).Some? ==>
      var p := SelectProxy(proxies, health).value;
      p.isActive && p.id in health && health[p.id] &&
      exists i :: 0 <= i < |proxies| && proxies[i] == p && forall j :: 0 <= j < i ==> !Eligible(proxies[j], health)
  {
    var i := FirstEligible(proxies, health);
    if i < |proxies| {
      assert proxies[i] == SelectProxy(proxies, health).value;
    }
  }

  /** The proxies `findMany({ where: { isActive: true } })` lists, in listing order. */
  function Active(proxies: seq<Proxy>): (active: seq<Proxy>)
    ensures |active| <= |proxies|
    decreases |proxies|
  {
    if proxies == [] then []
    else (if proxies[0].isActive then [proxies[0]] else []) + Active(proxies[1..])
  }

  lemma SelectSkipsIneligible(proxies: seq<Proxy>, health: map<ProxyId, bool>)
    requires proxies != [] && !Eligible(proxies[0], health)
    ensures SelectProxy(proxies, health) == SelectProxy(proxies[1..], health)
  {
  }

  /** Scanning the active proxies in order and stopping at the first healthy one selects `SelectProxy`. */
  lemma {:induction false} ScanFinds(proxies: seq<Proxy>, health: map<ProxyId, bool>, i: nat)
    requires i < |Active(proxies)| && Healthy(health, Active(proxies)[i].id)
    requires forall j :: 0 <= j < i ==> !Healthy(health, Active(proxies)[j].id)
    ensures SelectProxy(proxies, health) == Some(Active(proxies)[i])
    decreases |proxies|
  {
    var rest := proxies[1..];
    if proxies[0].isActive {
      assert Active(proxies) == [proxies[0]] + Active(rest);
      if i > 0 {
        assert !Healthy(health, Active(proxies)[0].id);
        forall j | 0 <= j < i - 1
          ensures !Healthy(health, Active(rest)[j].id)
        {
          assert Active(rest)[j] == Active(proxies)[j + 1];
        }
        ScanFinds(rest, health, i - 1);
        SelectSkipsIneligible(proxies, health);
      }
    } else {
      assert Active(proxies) == Active(rest);
      ScanFinds(rest, health, i);
      SelectSkipsIneligible(proxies, health);
    }
  }

  /** When no active proxy is healthy nothing is selected. */
  lemma {:induction false} ScanExhausts(proxies: seq<Proxy>, health: map<ProxyId, bool>)
    requires forall j :: 0 <= j < |Active(proxies)| ==> !Healthy(health, Active(proxies)[j].id)
    ensures SelectProxy(proxies, health) == None
    decreases |proxies|
  {
    if proxies != [] {
      var rest := proxies[1..];
      if proxies[0].isActive {
        assert Active(proxies) == [proxies[0]] + Active(rest);
        assert !Healthy(health, Active(proxies)[0].id);
        forall j | 0 <= j < |Active(rest)|
          ensures !Healthy(health, Active(rest)[j].id)
        {
          assert Active(rest)[j] == Active(proxies)[j + 1];
        }
      } else {
        assert Active(proxies) == Active(rest);
      }
      ScanExhausts(rest, health);
      SelectSkipsIneligible(proxies, health);
    }
  }

  /** Selection ignores who owns a proxy: changing owners changes nothing about which position is chosen. */
  lemma {:induction false} SelectionIgnoresOwner(proxies: seq<Proxy>, owned: seq<Proxy>, health: map<ProxyId, bool>)
    requires |owned| == |proxies|
    requires forall i :: 0 <= i < |proxies| ==> owned[i] == proxies[i].(userId := owned[i].userId)
    ensures FirstEligible(owned, health) == FirstEligible(proxies, health)
    decreases |proxies|
  {
    if proxies != [] {
      assert Eligible(owned[0], health) == Eligible(proxies[0], health);
      SelectionIgnoresOwner(proxies[1..], owned[1..], health);
    }
  }

  /** The durable proxy list after `prisma.proxyIP.update` sets `isActive` and `lastVerified` of one id. */
  function MarkProxy(proxies: seq<Proxy>, proxyId: ProxyId, isActive: bool, now: Timestamp): seq<Proxy>
  {
    seq(|proxies|, i requires 0 <= i < |proxies| =>
      if proxies[i].id == proxyId then proxies[i].(isActive := isActive, lastVerified := now) else proxies[i])
  }

  /** Marking a proxy keeps the listing and its ids, and changes only the entries with that id. */
  lemma MarkProxyChangesOnlyThatProxy(proxies: seq<Proxy>, proxyId: ProxyId, isActive: bool, now: Timestamp)
    ensures |MarkProxy(proxies, proxyId, isActive, now)| == |proxies|
    ensures ProxyIds(MarkProxy(proxies, proxyId, isActive, now)) == ProxyIds(proxies)
    ensures forall i :: 0 <= i < |proxies| ==>
      var m := MarkProxy(proxies, proxyId, isActive, now)[i];
      m.id == proxies[i].id && m.ipAddress == proxies[i].ipAddress && m.userId == proxies[i].userId &&
      (proxies[i].id == proxyId ==> m.isActive == isActive && m.lastVerified == now) &&
      (proxies[i].id != proxyId ==> m == proxies[i])
  {
    var marked := MarkProxy(proxies, proxyId, isActive, now);
    forall id | id in ProxyIds(proxies)
      ensures id in ProxyIds(marked)
    {
      var i :| 0 <= i < |proxies| && proxies[i].id == id;
      assert marked[i].id == id;
    }
  }

  /** Once a proxy is marked unhealthy, selection cannot return it. */
  lemma MarkedDownNeverSelected(proxies: seq<Proxy>, health: map<ProxyId, bool>, proxyId: ProxyId, now: Timestamp)
    ensures var s := SelectProxy(MarkProxy(proxies, proxyId, false, now), health[proxyId := false]);
      s.Some? ==> s.value.id != proxyId
  {
  }

  class ProxyManager {
    const db: Database
    const redis: RedisService

    constructor(db: Database, redis: RedisService)
      ensures this.db == db && this.redis == redis
    {
      this.db := db;
      this.redis := redis;
    }

    /** Lists the active proxies and returns the first whose health entry is true. */
    method GetAvailableProxy() returns (proxy: Option<Proxy>)
      ensures proxy == SelectProxy(db.proxies, redis.health)
    {
      var proxies := Active(db.proxies);
      var i := 0;
      while i < |proxies|
        invariant 0 <= i <= |proxies|
        invariant forall j :: 0 <= j < i ==> !Healthy(redis.health, proxies[j].id)
      {
        var isHealthy := redis.GetProxyHealth(proxies[i].id);
        if isHealthy {
          ScanFinds(db.proxies, redis.health, i);
          return Some(proxies[i]);
        }
        i := i + 1;
      }
      ScanExhausts(db.proxies, redis.health);
      return None;
    }

    /**
     * Writes the health entry, then the durable `isActive` flag and
     * `lastVerified` time; the second write fails on an unknown id after the
     * first has landed.
     */
    method UpdateProxyHealth(proxyId: ProxyId, isHealthy: bool, now: Timestamp) returns (outcome: Outcome<Error>)
      modifies redis`health, db`proxies
      ensures redis.health == old(redis.health)[proxyId := isHealthy]
      ensures outcome == if proxyId in ProxyIds(old(db.proxies)) then Pass else Fail(RecordNotFound)
      ensures db.proxies == if outcome.Pass? then MarkProxy(old(db.proxies), proxyId, isHealthy, now) else old(db.proxies)
      ensures UniqueIds(old(db.proxies)) ==> UniqueIds(db.proxies)
    {
      redis.SetProxyHealth(proxyId, isHealthy);
      if proxyId !in ProxyIds(db.proxies) {
        return Fail(RecordNotFound);
      }
      MarkProxyChangesOnlyThatProxy(db.proxies, proxyId, isHealthy, now);
      db.proxies := MarkProxy(db.proxies, proxyId, isHealthy, now);
      outcome := Pass;
    }
  }
}
