/**
 * Client scenarios: what a caller can conclude about whole lifecycles from
 * the contracts of the services alone.
 */
module Scenarios {
  import opened Wrappers
  import opened Constants
  import opened RedisStore
  import opened Records
  import opened TaskScheduling
  import opened TaskDistribution

  /** A HIGH task created before a NORMAL one for the same user is the next task taken. */
  method HighPriorityServedFirst(proxy: Proxy, high: TaskId, normal: TaskId)
    requires proxy.isActive
    requires high != normal && high != "" && normal != ""
  {
    var db := new Database([proxy]);
    var redis := new RedisService();
    var service := new TaskDistributionService(db, redis);
    var first := service.CreateTask(high, 0, "http://a.example", proxy.userId, High);
    var second := service.CreateTask(normal, 1, "http://b.example", proxy.userId);
    assert first.Success? && second.Success?;
    assert redis.queue == map[high := 1, normal := 2];
    PeekHasLowestScore(redis.queue);
    PeekNoneIffEmpty(redis.queue);
    assert Peek(redis.queue).value in redis.queue && redis.queue[Peek(redis.queue).value] <= redis.queue[high];
    assert Peek(redis.queue) == Some(high);
    var next := service.taskScheduler.GetNextTask();
    assert next == Some(first.value);
  }

  /**
   * Executing a task whose target cannot be reached leaves it FAILED, the
   * proxy unhealthy and inactive, and the task back in the queue with score 1.
   */
  method UnreachableTarget(proxy: Proxy, taskId: TaskId)
    requires proxy.isActive && taskId != ""
  {
    var db := new Database([proxy]);
    var redis := new RedisService();
    redis.SetProxyHealth(proxy.id, true);
    var service := new TaskDistributionService(db, redis);
    var created := service.CreateTask(taskId, 0, "http://unreachable.example", proxy.userId);
    assert created.Success?;
    var result := service.ExecuteScraping(taskId, (url, address) => FetchFailed("ECONNREFUSED"), 1);
    assert result == Failure(UpstreamFetchError("ECONNREFUSED"));
    assert db.tasks[taskId].status == Failed && db.tasks[taskId].retryCount == 0;
    assert !Healthy(redis.health, proxy.id) && !db.proxies[0].isActive;
    assert redis.queue[taskId] == 1;
  }

  /** Reported failures never use up a task's retries: after any number of them it is still queued with score 1. */
  method RepeatedFailureReports(proxy: Proxy, taskId: TaskId, failures: nat)
    requires proxy.isActive && taskId != ""
  {
    var db := new Database([proxy]);
    var redis := new RedisService();
    var service := new TaskDistributionService(db, redis);
    var created := service.CreateTask(taskId, 0, "http://a.example", proxy.userId);
    assert created.Success?;
    var k := 0;
    while k < failures
      invariant db.Valid() && service.Valid()
      invariant service.db == db && service.redis == redis
      invariant taskId in db.tasks && db.tasks[taskId].retryCount == 0
      invariant db.tasks[taskId].proxyIPId == proxy.id && proxy.id in ProxyIds(db.proxies)
      invariant k > 0 ==> db.tasks[taskId].status == Failed && taskId in redis.queue && redis.queue[taskId] == 1
    {
      ProxyManagement.MarkProxyChangesOnlyThatProxy(db.proxies, proxy.id, false, k);
      var outcome := service.HandleTaskCompletion(taskId, false, None, k);
      assert outcome == Pass;
      k := k + 1;
    }
  }
}
