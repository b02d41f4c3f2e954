/** Taking the next task off the queue and assigning it under a lock (be/src/services/taskScheduler.ts). */
module TaskScheduling {
  import opened Wrappers
  import opened Constants
  import opened RedisStore
  import opened Records
  import opened RateLimiting

  /** The lock key guarding the assignment of one task. */
  function LockKey(taskId: TaskId): string
  {
    "task:" + taskId + ":lock"
  }

  /** Distinct tasks are guarded by distinct lock keys. */
  lemma LockKeyInjective(a: TaskId, b: TaskId)
    requires LockKey(a) == LockKey(b)
    ensures a == b
  {
    var ka, kb := LockKey(a), LockKey(b);
    assert a == ka[5..|ka| - 5];
    assert b == kb[5..|kb| - 5];
  }

  /**
   * The lock is taken with `PROXY_TIMEOUT` (30000, meant as milliseconds) as
   * its `EX` argument, which Redis reads as seconds: in any lock map in which
   * `TakeAssignmentLock` has just taken the lock, a lock its holder never
   * releases still blocks the task after 30 seconds, and lapses only after
   * 30000 seconds.
   */
  lemma AbandonedLockOutlivesTimeout(locks: map<string, nat>, taskId: TaskId, dt: nat)
    requires LockKey(taskId) in locks && locks[LockKey(taskId)] == ProxyTimeout
    ensures LockKey(taskId) in LocksAfter(locks, dt) <==> dt < ProxyTimeout
    ensures LockKey(taskId) in LocksAfter(locks, ProxyTimeout / 1000)
  {
  }

  /** The task record `getNextTask` loads: the record of the queue's head, if both exist. */
  ghost function NextTask(queue: map<TaskId, int>, tasks: map<TaskId, Task>): Option<Task>
  {
    match Peek(queue)
    case None => None
    case Some(id) => if id in tasks then Some(tasks[id]) else None
  }

  /** The record `assignTask` writes. */
  function Assigned(task: Task, proxyIPId: ProxyId): Task
  {
    task.(status := InProgress, proxyIPId := proxyIPId)
  }

  class TaskScheduler {
    const db: Database
    const redis: RedisService
    const rateLimiter: RateLimiter

    /** The scheduler's limiter works on the scheduler's store. */
    ghost predicate Valid()
    {
      rateLimiter.redis == redis
    }

    constructor(db: Database, redis: RedisService)
      ensures this.db == db && this.redis == redis && Valid()
    {
      this.db := db;
      this.redis := redis;
      this.rateLimiter := new RateLimiter(redis);
    }

    /** The record of the lowest-scored queued task, null when the queue is empty or the id has no record. */
    method GetNextTask() returns (task: Option<Task>)
      ensures task == NextTask(redis.queue, db.tasks)
    {
      var taskId := redis.GetNextTask();
      if taskId.None? {
        return None;
      }
      task := if taskId.value in db.tasks then Some(db.tasks[taskId.value]) else None;
    }

    /**
     * Takes the task's lock, marks it IN_PROGRESS on the given proxy, removes it
     * from the queue, and releases the lock whether or not the update succeeded.
     */
    method AssignTask(taskId: TaskId, proxyIPId: ProxyId) returns (result: Result<Task, Error>)
      requires db.Valid()
      modifies redis`locks, redis`queue, db`tasks
      ensures db.Valid()
      ensures LockKey(taskId) !in redis.locks || LockKey(taskId) in old(redis.locks)
      ensures redis.locks == old(redis.locks)
      ensures LockKey(taskId) in old(redis.locks) ==>
        result == Failure(TaskAlreadyBeingAssigned) && db.tasks == old(db.tasks) && redis.queue == old(redis.queue)
      ensures LockKey(taskId) !in old(redis.locks) && taskId !in old(db.tasks) ==>
        result == Failure(RecordNotFound) && db.tasks == old(db.tasks) && redis.queue == old(redis.queue)
      ensures LockKey(taskId) !in old(redis.locks) && taskId in old(db.tasks) ==>
        && result == Success(Assigned(old(db.tasks)[taskId], proxyIPId))
        && db.tasks == old(db.tasks)[taskId := result.value]
        && redis.queue == old(redis.queue) - {taskId}
    {
      var lockKey := LockKey(taskId);
      var hasLock := TakeAssignmentLock(taskId);
      if !hasLock {
        return Failure(TaskAlreadyBeingAssigned);
      }
      if taskId !in db.tasks {
        result := Failure(RecordNotFound);
      } else {
        var task := Assigned(db.tasks[taskId], proxyIPId);
        db.tasks := db.tasks[taskId := task];
        redis.RemoveTask(taskId);
        result := Success(task);
      }
      redis.ReleaseLock(lockKey);
    }

    /**
     * The first step of `assignTask`: `SET task:{id}:lock 1 EX 30000 NX`, so
     * the lock is taken iff it is not held, and lives 30000 seconds.
     */
    method TakeAssignmentLock(taskId: TaskId) returns (hasLock: bool)
      modifies redis`locks
      ensures hasLock <==> LockKey(taskId) !in old(redis.locks)
      ensures LockKey(taskId) in redis.locks
      ensures hasLock ==> redis.locks[LockKey(taskId)] == ProxyTimeout
      ensures redis.locks == if hasLock then old(redis.locks)[LockKey(taskId) := ProxyTimeout] else old(redis.locks)
    {
      hasLock := redis.AcquireLock(LockKey(taskId), ProxyTimeout);
    }

    /** Exactly the rate limiter's answer, counter increment included. */
    method CheckProxyAvailability(proxyId: ProxyId) returns (allowed: bool)
      requires Valid()
      modifies redis`rate
      ensures allowed <==> CountOf(old(redis.rate), proxyId) + 1 <= RequestsPerMinute
      ensures redis.rate == Incremented(old(redis.rate), proxyId)
    {
      allowed := rateLimiter.CanMakeRequest(proxyId);
    }
  }

  /**
   * A holder that takes the assignment lock and never releases it: a second
   * attempt `dt` seconds later is refused unless the 30000-second lifetime has
   * passed, so after the intended 30 seconds the task is still blocked.
   */
  method AbandonedAssignment(scheduler: TaskScheduler, taskId: TaskId, dt: nat) returns (first: bool, second: bool)
    modifies scheduler.redis`locks, scheduler.redis`rate
    ensures first <==> LockKey(taskId) !in old(scheduler.redis.locks)
    ensures first ==> (second <==> dt >= ProxyTimeout)
    ensures first && dt == ProxyTimeout / 1000 ==> !second
  {
    first := scheduler.TakeAssignmentLock(taskId);
    if first {
      AbandonedLockOutlivesTimeout(scheduler.redis.locks, taskId, dt);
      AbandonedLockOutlivesTimeout(scheduler.redis.locks, taskId, ProxyTimeout / 1000);
    }
    scheduler.redis.Tick(dt);
    second := scheduler.TakeAssignmentLock(taskId);
  }
}
