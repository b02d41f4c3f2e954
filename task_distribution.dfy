/**
 * The task lifecycle: creation, distribution, execution and completion
 * (be/src/services/taskDistribution.ts).  The outbound HTTP fetch is the
 * parameter `fetch`, from the target URL and the proxy's address to an outcome.
 */
module TaskDistribution {
  import opened Wrappers
  import opened Constants
  import opened RedisStore
  import opened Records
  import opened ProxyManagement
  import opened TaskScheduling

  /** What the outbound fetch through a proxy yields: a 2xx body with its measured bandwidth, or an error. */
  datatype FetchOutcome = Fetched(data: Payload, bandwidthUsed: real) | FetchFailed(reason: string)

  /** What `distributeTask` returns. */
  datatype Assignment = Assignment(taskId: TaskId, proxyIPId: ProxyId, targetUrl: string)

  /** What `executeScraping` returns on success. */
  datatype ScrapeReport = ScrapeReport(success: bool, data: Payload, bandwidthUsed: real, proxyUserId: UserId)

  /** Whether a proxy is active and owned by the user. */
  predicate OwnedActive(proxy: Proxy, userId: UserId)
  {
    proxy.userId == userId && proxy.isActive
  }

  /** The position of the user's first active proxy in listing order; `|proxies|` when there is none. */
  function FirstOwnedActive(proxies: seq<Proxy>, userId: UserId): (i: nat)
    ensures i <= |proxies|
    ensures i < |proxies| ==> OwnedActive(proxies[i], userId)
    ensures forall j :: 0 <= j < i ==> !OwnedActive(proxies[j], userId)
    decreases |proxies|
  {
    if proxies == [] then 0
    else if OwnedActive(proxies[0], userId) then 0
    else 1 + FirstOwnedActive(proxies[1..], userId)
  }

  /** The proxy `findFirst({ where: { userId, isActive: true } })` returns. */
  function OwnedActiveProxy(proxies: seq<Proxy>, userId: UserId): Option<Proxy>
  {
    var i := FirstOwnedActive(proxies, userId);
    if i < |proxies| then Some(proxies[i]) else None
  }

  /** The queue after a failed attempt: the id is pushed back with score `retryCount + 1` while retries remain. */
  function RequeueOnFailure(queue: map<TaskId, int>, taskId: TaskId, retryCount: nat): map<TaskId, int>
  {
    if retryCount < MaxRetries then queue[taskId := retryCount + 1] else queue
  }

  /** The record `executeScraping` writes on failure: FAILED with null content; `retryCount` is left as it was. */
  function FailedAttempt(task: Task): Task
  {
    task.(status := Failed, data := Content(None))
  }

  /** The record `handleTaskCompletion` writes: the final status and the given data, or null. */
  function Completion(task: Task, success: bool, data: Option<Payload>): Task
  {
    task.(status := if success then Completed else Failed,
          data := if data.Some? then Given(data.value) else NoData)
  }

  /** The record after `k` failed attempts of `executeScraping`. */
  function FailedAttempts(task: Task, k: nat): Task
  {
    if k == 0 then task else FailedAttempt(FailedAttempts(task, k - 1))
  }

  /**
   * Failures never advance `retryCount`: however many attempts fail, a task
   * whose count is below the maximum is pushed back after each of them with
   * the same score, so retries are unbounded.
   */
  lemma {:induction false} RetriesNeverRunOut(task: Task, k: nat, queue: map<TaskId, int>)
    requires task.retryCount < MaxRetries
    ensures FailedAttempts(task, k).retryCount == task.retryCount
    ensures FailedAttempts(task, k).status == (if k == 0 then task.status else Failed)
    ensures RequeueOnFailure(queue, task.id, FailedAttempts(task, k).retryCount) == queue[task.id := task.retryCount + 1]
  {
    if k > 0 {
      RetriesNeverRunOut(task, k - 1, queue);
    }
  }

  /** A task failing for the first time re-enters the queue with the score of a HIGH priority task. */
  lemma FirstRetryRanksAsHigh(queue: map<TaskId, int>, task: Task)
    requires task.retryCount == 0
    ensures RequeueOnFailure(queue, task.id, task.retryCount)[task.id] == PriorityScore(High)
  {
  }

  /**
   * Of two tasks queued with different priorities, the less urgent one is
   * never the next task, whatever else is queued.
   */
  lemma MoreUrgentServedFirst(queue: map<TaskId, int>, a: TaskId, pa: Priority, b: TaskId, pb: Priority)
    requires a != b && Urgency(pa) > Urgency(pb)
    ensures Peek(queue[a := PriorityScore(pa)][b := PriorityScore(pb)]) != Some(b)
  {
    var q := queue[a := PriorityScore(pa)][b := PriorityScore(pb)];
    PeekHasLowestScore(q);
    MoreUrgentScoresLower(pa, pb);
    assert q[a] < q[b];
  }

  /** A selected proxy is one of the listed proxies, so its durable record can be updated. */
  lemma SelectedProxyIsListed(proxies: seq<Proxy>, health: map<ProxyId, bool>)
    requires SelectProxy(proxies, health).Some?
    ensures SelectProxy(proxies, health).value.id in ProxyIds(proxies)
  {
    var i := FirstEligible(proxies, health);
    assert proxies[i].id in ProxyIds(proxies);
  }

  class TaskDistributionService {
    const db: Database
    const redis: RedisService
    const proxyManager: ProxyManager
    const taskScheduler: TaskScheduler

    /** All components share one relational store and one coordination store. */
    ghost predicate Valid()
    {
      && proxyManager.db == db && proxyManager.redis == redis
      && taskScheduler.db == db && taskScheduler.redis == redis
      && taskScheduler.Valid()
    }

    constructor(db: Database, redis: RedisService)
      ensures this.db == db && this.redis == redis && Valid()
    {
      this.db := db;
      this.redis := redis;
      this.proxyManager := new ProxyManager(db, redis);
      this.taskScheduler := new TaskScheduler(db, redis);
    }

    /**
     * Takes the next task, the first available proxy and a rate-limit slot,
     * and assigns the task; "nothing to do" is a null result, while a lock
     * conflict is an error.
     */
    method DistributeTask() returns (result: Result<Option<Assignment>, Error>)
      requires Valid() && db.Valid()
      modifies redis`rate, redis`locks, redis`queue, db`tasks
      ensures db.Valid()
      ensures redis.locks == old(redis.locks)
      ensures NextTask(old(redis.queue), old(db.tasks)).None? || SelectProxy(db.proxies, redis.health).None? ==>
        && result == Success(None)
        && redis.rate == old(redis.rate) && db.tasks == old(db.tasks) && redis.queue == old(redis.queue)
      ensures NextTask(old(redis.queue), old(db.tasks)).Some? && SelectProxy(db.proxies, redis.health).Some? ==>
        var task, proxy := NextTask(old(redis.queue), old(db.tasks)).value, SelectProxy(db.proxies, redis.health).value;
        && redis.rate == Incremented(old(redis.rate), proxy.id)
        && (CountOf(old(redis.rate), proxy.id) + 1 > RequestsPerMinute ==>
              result == Success(None) && db.tasks == old(db.tasks) && redis.queue == old(redis.queue))
        && (CountOf(old(redis.rate), proxy.id) + 1 <= RequestsPerMinute && LockKey(task.id) in old(redis.locks) ==>
              result == Failure(TaskAlreadyBeingAssigned) && db.tasks == old(db.tasks) && redis.queue == old(redis.queue))
        && (CountOf(old(redis.rate), proxy.id) + 1 <= RequestsPerMinute && LockKey(task.id) !in old(redis.locks) ==>
              && result == Success(Some(Assignment(task.id, proxy.id, task.targetUrl)))
              && db.tasks == old(db.tasks)[task.id := Assigned(task, proxy.id)]
              && redis.queue == old(redis.queue) - {task.id})
    {
      var task := taskScheduler.GetNextTask();
      if task.None? {
        return Success(None);
      }
      var proxy := proxyManager.GetAvailableProxy();
      if proxy.None? {
        return Success(None);
      }
      var canMakeRequest := taskScheduler.CheckProxyAvailability(proxy.value.id);
      if !canMakeRequest {
        return Success(None);
      }
      var assignedTask := taskScheduler.AssignTask(task.value.id, proxy.value.id);
      if assignedTask.Failure? {
        return Failure(assignedTask.error);
      }
      return Success(Some(Assignment(assignedTask.value.id, proxy.value.id, assignedTask.value.targetUrl)));
    }

    /**
     * Records the outcome of an externally executed task: health of the task's
     * own proxy, final status and data, and a re-enqueue on failure while
     * retries remain.
     */
    method HandleTaskCompletion(taskId: TaskId, success: bool, data: Option<Payload>, now: Timestamp) returns (outcome: Outcome<Error>)
      requires Valid() && db.Valid()
      modifies redis`health, redis`queue, db`proxies, db`tasks
      ensures db.Valid()
      ensures db.tasks.Keys == old(db.tasks).Keys
      ensures taskId in old(db.tasks) ==> db.tasks[taskId].retryCount == old(db.tasks)[taskId].retryCount
      ensures taskId !in old(db.tasks) ==>
        && outcome == Fail(TaskNotFound)
        && redis.health == old(redis.health) && redis.queue == old(redis.queue)
        && db.proxies == old(db.proxies) && db.tasks == old(db.tasks)
      ensures taskId in old(db.tasks) ==>
        var task := old(db.tasks)[taskId];
        && redis.health == old(redis.health)[task.proxyIPId := success]
        && (task.proxyIPId !in ProxyIds(old(db.proxies)) ==>
              && outcome == Fail(RecordNotFound)
              && db.proxies == old(db.proxies) && db.tasks == old(db.tasks) && redis.queue == old(redis.queue))
        && (task.proxyIPId in ProxyIds(old(db.proxies)) ==>
              && outcome == Pass
              && db.proxies == MarkProxy(old(db.proxies), task.proxyIPId, success, now)
              && db.tasks == old(db.tasks)[taskId := Completion(task, success, data)]
              && redis.queue == if success then old(redis.queue) else RequeueOnFailure(old(redis.queue), taskId, task.retryCount))
    {
      if taskId !in db.tasks {
        return Fail(TaskNotFound);
      }
      var task := db.tasks[taskId];
      outcome := proxyManager.UpdateProxyHealth(task.proxyIPId, success, now);
      if outcome.Fail? {
        return;
      }
      db.tasks := db.tasks[taskId := Completion(db.tasks[taskId], success, data)];
      if !success {
        if task.retryCount < MaxRetries {
          redis.PushTask(taskId, task.retryCount + 1);
        }
      }
    }

    /**
     * Creates a PENDING task on the user's first active proxy and queues it
     * with the score of its priority.  `newId` and `now` stand for the id and
     * time the store assigns to the new row.
     */
    method CreateTask(newId: TaskId, now: Timestamp, targetUrl: string, userId: UserId, priority: Priority := Normal)
      returns (result: Result<Task, Error>)
      requires db.Valid() && newId !in db.tasks
      modifies db`tasks, redis`queue
      ensures db.Valid()
      ensures OwnedActiveProxy(db.proxies, userId).None? ==>
        result == Failure(NoActiveProxyForUser) && db.tasks == old(db.tasks) && redis.queue == old(redis.queue)
      ensures OwnedActiveProxy(db.proxies, userId).Some? ==>
        && result.Success?
        && result.value.id == newId && result.value.targetUrl == targetUrl
        && result.value.status == Pending && result.value.retryCount == 0 && result.value.bandwidthUsed == 0.0
        && result.value.proxyIPId == OwnedActiveProxy(db.proxies, userId).value.id
        && result.value.assignedToId == userId
        && result.value.data == NoData && result.value.createdAt == now
        && db.tasks == old(db.tasks)[newId := result.value]
        && redis.queue == old(redis.queue)[newId := PriorityScore(priority)]
    {
      var proxy := OwnedActiveProxy(db.proxies, userId);
      if proxy.None? {
        return Failure(NoActiveProxyForUser);
      }
      var task := Task(newId, targetUrl, Pending, 0, proxy.value.id, userId, 0.0, NoData, now);
      db.tasks := db.tasks[newId := task];
      redis.PushTask(newId, PriorityScore(priority));
      result := Success(task);
    }

    /** The stored record of a task, or null. */
    method GetTaskStatus(taskId: TaskId) returns (task: Option<Task>)
      requires db.Valid()
      ensures task.Some? <==> taskId in db.tasks
      ensures task.Some? ==> task.value == db.tasks[taskId] && task.value.id == taskId
    {
      task := if taskId in db.tasks then Some(db.tasks[taskId]) else None;
    }

    /**
     * Runs one task through an available proxy.  Every failure after the task
     * is loaded marks the task FAILED, marks the chosen proxy (if any)
     * unhealthy, re-enqueues the task while retries remain, and is returned as
     * the error.  Success never removes the task from the queue.
     */
    method ExecuteScraping(taskId: TaskId, fetch: (string, string) -> FetchOutcome, now: Timestamp)
      returns (result: Result<ScrapeReport, Error>)
      requires Valid() && db.Valid()
      modifies redis`rate, redis`health, redis`queue, db`proxies, db`tasks
      ensures db.Valid()
      ensures db.tasks.Keys == old(db.tasks).Keys
      ensures taskId in old(db.tasks) ==> db.tasks[taskId].retryCount == old(db.tasks)[taskId].retryCount
      ensures taskId !in old(db.tasks) ==>
        && result == Failure(TaskNotFound)
        && redis.rate == old(redis.rate) && redis.health == old(redis.health) && redis.queue == old(redis.queue)
        && db.proxies == old(db.proxies) && db.tasks == old(db.tasks)
      ensures taskId in old(db.tasks) && SelectProxy(old(db.proxies), old(redis.health)).None? ==>
        var task := old(db.tasks)[taskId];
        && result == Failure(NoAvailableProxy)
        && redis.rate == old(redis.rate) && redis.health == old(redis.health) && db.proxies == old(db.proxies)
        && db.tasks == old(db.tasks)[taskId := FailedAttempt(task)]
        && redis.queue == RequeueOnFailure(old(redis.queue), taskId, task.retryCount)
      ensures taskId in old(db.tasks) && SelectProxy(old(db.proxies), old(redis.health)).Some? ==>
        var task, proxy := old(db.tasks)[taskId], SelectProxy(old(db.proxies), old(redis.health)).value;
        var admitted := CountOf(old(redis.rate), proxy.id) + 1 <= RequestsPerMinute;
        var response := fetch(task.targetUrl, proxy.ipAddress);
        && redis.rate == Incremented(old(redis.rate), proxy.id)
        && (!admitted ==>
              && result == Failure(RateLimitExceeded)
              && redis.health == old(redis.health)[proxy.id := false]
              && db.proxies == MarkProxy(old(db.proxies), proxy.id, false, now)
              && db.tasks == old(db.tasks)[taskId := FailedAttempt(task)]
              && redis.queue == RequeueOnFailure(old(redis.queue), taskId, task.retryCount))
        && (admitted && response.FetchFailed? ==>
              && result == Failure(UpstreamFetchError(response.reason))
              && redis.health == old(redis.health)[proxy.id := false]
              && db.proxies == MarkProxy(old(db.proxies), proxy.id, false, now)
              && db.tasks == old(db.tasks)[taskId := FailedAttempt(task.(proxyIPId := proxy.id))]
              && redis.queue == RequeueOnFailure(old(redis.queue), taskId, task.retryCount))
        && (admitted && response.Fetched? ==>
              && result == Success(ScrapeReport(true, response.data, response.bandwidthUsed, proxy.userId))
              && redis.health == old(redis.health)[proxy.id := true]
              && db.proxies == MarkProxy(old(db.proxies), proxy.id, true, now)
              && db.tasks == old(db.tasks)[taskId := task.(proxyIPId := proxy.id, status := Completed,
                                                        data := Content(Some(response.data)),
                                                        bandwidthUsed := response.bandwidthUsed)]
              && redis.queue == old(redis.queue))
    {
      if taskId !in db.tasks {
        return Failure(TaskNotFound);
      }
      var task := db.tasks[taskId];
      var error: Error;
      var proxy := proxyManager.GetAvailableProxy();
      if proxy.None? {
        error := NoAvailableProxy;
      } else {
        SelectedProxyIsListed(db.proxies, redis.health);
        var canMakeRequest := taskScheduler.CheckProxyAvailability(proxy.value.id);
        if !canMakeRequest {
          error := RateLimitExceeded;
        } else {
          db.tasks := db.tasks[taskId := db.tasks[taskId].(proxyIPId := proxy.value.id, status := InProgress)];
          var response := fetch(task.targetUrl, proxy.value.ipAddress);
          if response.FetchFailed? {
            error := UpstreamFetchError(response.reason);
          } else {
            var marked := proxyManager.UpdateProxyHealth(proxy.value.id, true, now);
            assert marked.Pass?;
            db.tasks := db.tasks[taskId := db.tasks[taskId].(status := Completed, data := Content(Some(response.data)),
                                                              bandwidthUsed := response.bandwidthUsed)];
            return Success(ScrapeReport(true, response.data, response.bandwidthUsed, proxy.value.userId));
          }
        }
      }
      var proxyId := if proxy.Some? then Some(proxy.value.id) else None;
      result := RecordFailedAttempt(taskId, task.retryCount, proxyId, error, now);
    }

    /**
     * The catch block of `executeScraping`: marks the chosen proxy (if any) unhealthy, records the
     * attempt as FAILED with null content and re-queues the task while retries remain.
     */
    method RecordFailedAttempt(taskId: TaskId, retryCount: nat, proxyId: Option<ProxyId>, error: Error, now: Timestamp)
      returns (result: Result<ScrapeReport, Error>)
      requires Valid() && db.Valid() && taskId in db.tasks
      requires proxyId.Some? ==> proxyId.value in ProxyIds(db.proxies)
      modifies redis`health, redis`queue, db`proxies, db`tasks
      ensures db.Valid()
      ensures result == Failure(error)
      ensures redis.health == if proxyId.Some? then old(redis.health)[proxyId.value := false] else old(redis.health)
      ensures db.proxies == if proxyId.Some? then MarkProxy(old(db.proxies), proxyId.value, false, now) else old(db.proxies)
      ensures db.tasks == old(db.tasks)[taskId := FailedAttempt(old(db.tasks)[taskId])]
      ensures redis.queue == RequeueOnFailure(old(redis.queue), taskId, retryCount)
    {
      if proxyId.Some? {
        var marked := proxyManager.UpdateProxyHealth(proxyId.value, false, now);
        assert marked.Pass?;
      }
      db.tasks := db.tasks[taskId := FailedAttempt(db.tasks[taskId])];
      if retryCount < MaxRetries {
        redis.PushTask(taskId, retryCount + 1);
      }
      return Failure(error);
    }
  }
}
