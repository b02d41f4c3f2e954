# Task distribution and scheduling, modelled in Dafny

This project models the task distribution and scheduling core of the DSH
backend (`be/src/services/*` and `be/src/config/constants.ts`): a Redis-backed
coordination store, a per-proxy rate limiter, a proxy manager that picks a live
proxy, a scheduler that assigns the next task under a lock, and the service that
creates, distributes, executes and completes tasks.

Each source file is one module, and each source class is a Dafny class with the
same methods:

| module | source | form |
|---|---|---|
| `Constants` | `be/src/config/constants.ts` | constants and the priority scores |
| `RedisStore` | `be/src/services/redis.ts` | class `RedisService` over in-memory maps |
| `RateLimiting` | `be/src/services/rateLimiter.ts` | class `RateLimiter` |
| `ProxyManagement` | `be/src/services/proxyManager.ts` | class `ProxyManager` |
| `TaskScheduling` | `be/src/services/taskScheduler.ts` | class `TaskScheduler` |
| `TaskDistribution` | `be/src/services/taskDistribution.ts` | class `TaskDistributionService` |
| `Records` | Prisma `Task` and `ProxyIP` rows | datatypes and class `Database` |
| `Wrappers` | — | `Option`, `Result`, `Outcome` for `null` and thrown errors |
| `Scenarios` | — | client methods that follow whole lifecycles |

The Redis store becomes four fields of `RedisService`:
- `queue: map<TaskId, int>` is the `task_queue` sorted set.
- `rate: map<ProxyId, Counter>` holds the `rate:{id}` keys with their time to live.
- `health: map<ProxyId, bool>` is the `proxy_health` hash.
- `locks: map<string, nat>` holds the lock keys with their time to live.

Prisma becomes `Database` with `tasks: map<TaskId, Task>` and
`proxies: seq<Proxy>` in listing order. `Database.Valid()` states the two
primary keys: every task is stored under its own id, and no two proxies share
an id; every operation that writes the database keeps it. Collaborators are `const` fields, and a
`Valid()` predicate states that all services share one `Database` and one
`RedisService`. A thrown error is a `Failure`/`Fail` result carrying an `Error`
named after the source's message.

Inputs from outside the program are parameters:
- The outbound HTTP fetch is `fetch(targetUrl, ipAddress)`. It returns either a
  body with its measured bandwidth or a failure reason.
- The clock (`new Date()`) is `now`.
- The id and creation time of a new task row are `newId` and `now`.
- Redis expiry is the explicit operation `RedisService.Tick(dt)`. It ages every
  key by `dt` seconds and deletes the keys whose time runs out.

Among equal scores, the queue head follows Redis's byte-wise member order. This
is `MemberLess`, proved to be a strict total order.

Behaviour of the code that the model keeps as written:
- Every `incrementRequestCount` resets the counter's time to live to 60 s
  (redis.ts:13-14), rejected calls included; the window is not fixed from the
  first call. So a proxy asked less than 60 s after its previous call is never
  reset: after 60 admissions it is refused for as long as the calls keep coming
  (`CallsWithinWindowKeepCounting`). A call exactly 60 s after the previous one
  finds the counter gone (`IdleWindowResets`).
- The assignment lock is taken with `PROXY_TIMEOUT` = 30000, given to Redis as
  `EX` seconds (taskScheduler.ts:28, redis.ts:41). `TakeAssignmentLock` states
  that TTL, and an abandoned lock therefore lasts 30000 s, not 30 s
  (`AbandonedLockOutlivesTimeout`, `AbandonedAssignment`). The key is
  `task:{id}:lock`.
- `retryCount` is never written back (taskDistribution.ts:58-61, 188-189). A
  failed task is re-enqueued with score `retryCount + 1` after every failure,
  with no bound (`RetriesNeverRunOut`). A first retry has score 1, the score of
  a HIGH task.
- `executeScraping` never removes the task from the queue. On success the queue
  is left as it was.
- A rate-limit rejection inside `executeScraping` marks the chosen proxy
  unhealthy and inactive.
- No operation checks the current status before writing a new one
  (taskScheduler.ts:35-41, taskDistribution.ts:50-56, 125-131): any status can
  follow any other, and the model writes statuses the same way.
- `getNextTask` returns `result[0] || null`. An empty-string member at the head
  therefore reads as null (`Peek`). For queues of non-empty ids, null means
  empty (`PeekNoneIffEmpty`).

## Model

| member | source | states |
|---|---|---|
| `Constants.PriorityScore` | be/src/config/constants.ts:8-12 | every priority scores 1..3, and NORMAL (the default) scores exactly 2 |
| `Constants.MoreUrgentScoresLower` | be/src/config/constants.ts:8-12 | a more urgent priority gets a strictly lower score and conversely; distinct priorities get distinct scores |
| `RedisStore.MemberLessIrreflexive` | be/src/services/redis.ts:27 | no member sorts before itself among equal scores |
| `RedisStore.MemberLessTransitive` | be/src/services/redis.ts:27 | the equal-score member order is transitive |
| `RedisStore.MemberLessTotal` | be/src/services/redis.ts:27 | any two distinct members are ordered one way or the other |
| `RedisStore.HeadExists` | be/src/services/redis.ts:26-29 | every non-empty queue has a member that precedes all others |
| `RedisStore.HeadUnique` | be/src/services/redis.ts:26-29 | that member is unique, so `ZRANGE 0 0` is determined |
| `RedisStore.Head` | be/src/services/redis.ts:26-29 | the head of a non-empty queue precedes every other member |
| `RedisStore.PeekHasLowestScore` | be/src/services/redis.ts:26-29 | the id read is queued and no queued score is lower; null exactly when the queue is empty or the head is the empty string |
| `RedisStore.PeekNoneIffEmpty` | be/src/services/redis.ts:26-29 | with non-empty ids, the read is null iff the queue is empty |
| `RedisStore.DrainVisitsEveryMember` | be/src/services/redis.ts:18-29 | taking and removing the head until the queue is empty visits each queued id exactly once |
| `RedisStore.DrainScoresNonDecreasing` | be/src/services/redis.ts:18-29 | repeatedly taking and removing the head yields queued ids in order of non-decreasing score |
| `RedisStore.Incremented` | be/src/services/redis.ts:11-16 | the proxy's count rises by one from 0 when absent, its TTL is 60, and every other proxy's key is untouched |
| `RedisStore.HealthReadsLastWrite` | be/src/services/redis.ts:31-38 | a health read returns the last value written for that proxy and is unaffected by writes for others |
| `RedisStore.RedisService.constructor` | be/src/services/redis.ts:7-9 | the model's store starts with an empty queue, no rate counters, no health entries and no locks; the server the source connects to may already hold all four |
| `RedisStore.RedisService.IncrementRequestCount` | be/src/services/redis.ts:11-16 | returns the previous count + 1 (1 if absent); only that proxy's key changes, and its TTL is reset to 60 |
| `RedisStore.RedisService.PushTask` | be/src/services/redis.ts:18-20 | the id ends with exactly the given score; re-pushing overwrites and does not duplicate |
| `RedisStore.RedisService.RemoveTask` | be/src/services/redis.ts:22-24 | removes only that member; removing an absent member changes nothing |
| `RedisStore.RedisService.GetNextTask` | be/src/services/redis.ts:26-29 | returns the head (lowest score, then member order) without changing the queue; null when empty or the head is "" |
| `RedisStore.RedisService.SetProxyHealth` | be/src/services/redis.ts:31-33 | stores the flag for that proxy only |
| `RedisStore.RedisService.GetProxyHealth` | be/src/services/redis.ts:35-38 | true iff an entry exists and is true; a proxy never set reads false |
| `RedisStore.RedisService.AcquireLock` | be/src/services/redis.ts:40-43 | true iff the key was absent; the key is present afterwards either way, and a held key keeps its TTL |
| `RedisStore.RedisService.ReleaseLock` | be/src/services/redis.ts:45-47 | the key is absent afterwards and no other key changes |
| `RedisStore.RedisService.Tick` | be/src/services/redis.ts:13-14 | time passing removes exactly the rate and lock keys whose TTL runs out and shortens the others |
| `RedisStore.AcquireTwice` | be/src/services/redis.ts:40-43 | two acquisitions with no release between: the second never succeeds |
| `RedisStore.AcquireAfterExpiry` | be/src/services/redis.ts:40-43 | a lock never released can be acquired again once its TTL has passed |
| `RedisStore.AcquireAfterRelease` | be/src/services/redis.ts:45-47 | after a release the next acquisition of the key succeeds |
| `RateLimiting.RateLimiter.constructor` | be/src/services/rateLimiter.ts:7-9 | the limiter works on the store it is given |
| `RateLimiting.RateLimiter.CanMakeRequest` | be/src/services/rateLimiter.ts:11-14 | admits iff the post-increment count is at most 60 (60 itself admitted); the counter is incremented on every call, rejected ones included |
| `RateLimiting.SuccessiveRequests` | be/src/services/rateLimiter.ts:11-14 | asking `canMakeRequest(p)` after each gap in turn yields exactly `Verdicts` of the starting counters, the sequence the window lemmas describe |
| `RateLimiting.CallsWithinWindowKeepCounting` | be/src/services/rateLimiter.ts:11-14 | while calls come less than 60 s apart, call i is admitted iff start count + i + 1 ≤ 60: the counter never resets |
| `RateLimiting.FirstSixtyAdmitted` | be/src/services/rateLimiter.ts:12-13 | from an absent counter, the first 60 calls are admitted and every later one is refused until the key expires |
| `RateLimiting.IdleWindowResets` | be/src/services/rateLimiter.ts:11-14 | after a full idle window the counter is gone and the next call is admitted |
| `RateLimiting.VerdictsDependOnlyOnOwnKey` | be/src/services/rateLimiter.ts:12 | the answers for a proxy depend only on that proxy's own key |
| `RateLimiting.OtherProxyUnaffected` | be/src/services/rateLimiter.ts:12 | a call for one proxy never changes what later calls for another proxy answer |
| `ProxyManagement.FirstEligible` | be/src/services/proxyManager.ts:18-25 | gives the position of the first active and healthy proxy in listing order, or the list length when there is none |
| `ProxyManagement.SelectProxyIsFirstMatch` | be/src/services/proxyManager.ts:13-25 | the selection is the earliest active and healthy proxy; null iff none qualifies; a proxy with no health entry is never selected |
| `ProxyManagement.ScanFinds` | be/src/services/proxyManager.ts:18-22 | stopping at the first healthy proxy among the active ones gives that selection |
| `ProxyManagement.ScanExhausts` | be/src/services/proxyManager.ts:18-25 | when no active proxy is healthy the result is null |
| `ProxyManagement.SelectionIgnoresOwner` | be/src/services/proxyManager.ts:14-16 | changing owners does not change which proxy is selected: any user's proxy may be chosen |
| `ProxyManagement.MarkProxyChangesOnlyThatProxy` | be/src/services/proxyManager.ts:30-36 | the durable update sets `isActive` and `lastVerified` on that id, keeps the list, its ids, addresses and owners, and leaves other proxies alone |
| `ProxyManagement.MarkedDownNeverSelected` | be/src/services/proxyManager.ts:28-37 | after a proxy is marked unhealthy, selection cannot return it |
| `ProxyManagement.ProxyManager.constructor` | be/src/services/proxyManager.ts:8-11 | the manager works on the database and store it is given |
| `ProxyManagement.ProxyManager.GetAvailableProxy` | be/src/services/proxyManager.ts:13-26 | the loop over the active proxies returns exactly the first-match selection and changes nothing |
| `ProxyManagement.ProxyManager.UpdateProxyHealth` | be/src/services/proxyManager.ts:28-37 | sets the health entry, then `isActive`/`lastVerified` of that proxy; an unknown id fails after the health write has landed |
| `TaskScheduling.LockKeyInjective` | be/src/services/taskScheduler.ts:27 | distinct tasks are guarded by distinct lock keys |
| `TaskScheduling.AbandonedLockOutlivesTimeout` | be/src/services/taskScheduler.ts:28 | in a lock map holding the assignment lock with the TTL `TakeAssignmentLock` gives it, the lock survives `dt` seconds iff `dt` < 30000, so it still exists after 30 s |
| `TaskScheduling.TaskScheduler.constructor` | be/src/services/taskScheduler.ts:11-15 | the scheduler's rate limiter uses the scheduler's own store |
| `TaskScheduling.TaskScheduler.GetNextTask` | be/src/services/taskScheduler.ts:17-24 | null when the queue reads as empty; otherwise the record of the lowest-scored id (null if it has no record); nothing changes |
| `TaskScheduling.TaskScheduler.AssignTask` | be/src/services/taskScheduler.ts:26-48 | a held lock fails with "already being assigned" and changes nothing; otherwise the task becomes IN_PROGRESS on the proxy and leaves the queue; the lock is gone on every exit |
| `TaskScheduling.TaskScheduler.TakeAssignmentLock` | be/src/services/taskScheduler.ts:27-28 | the lock is taken iff it was not held, and a newly taken lock has a TTL of 30000 (seconds to Redis); a held lock is left as it was |
| `TaskScheduling.TaskScheduler.CheckProxyAvailability` | be/src/services/taskScheduler.ts:50-52 | exactly the rate limiter's answer, increment included |
| `TaskScheduling.AbandonedAssignment` | be/src/services/taskScheduler.ts:26-32 | after taking the lock and never releasing it, a second attempt `dt` seconds later succeeds iff `dt` ≥ 30000; at 30 s it is still refused |
| `TaskDistribution.FirstOwnedActive` | be/src/services/taskDistribution.ts:66-71 | gives the position of the user's first active proxy in listing order, or the list length when there is none |
| `TaskDistribution.RetriesNeverRunOut` | be/src/services/taskDistribution.ts:180-190 | failures never change `retryCount`, so every failure re-pushes the task with the same score |
| `TaskDistribution.FirstRetryRanksAsHigh` | be/src/services/taskDistribution.ts:188-189 | a first retry is queued with score 1, the score of a HIGH task |
| `TaskDistribution.MoreUrgentServedFirst` | be/src/services/taskDistribution.ts:88-89 | of two tasks queued with different priorities, the less urgent one is never next |
| `TaskDistribution.SelectedProxyIsListed` | be/src/services/taskDistribution.ts:158 | the proxy chosen by `executeScraping` is listed, so its durable update cannot fail |
| `TaskDistribution.TaskDistributionService.constructor` | be/src/services/taskDistribution.ts:14-19 | the proxy manager and scheduler share the service's stores |
| `TaskDistribution.TaskDistributionService.DistributeTask` | be/src/services/taskDistribution.ts:21-38 | null with no assignment when there is no next task, no proxy or no rate slot; a lock conflict is an error; otherwise returns id, proxy and URL, and the id has left the queue |
| `TaskDistribution.TaskDistributionService.HandleTaskCompletion` | be/src/services/taskDistribution.ts:40-63 | unknown id fails with "Task not found"; `retryCount` is never changed; sets health of the task's own proxy to `success`; COMPLETED or FAILED with the given data; re-enqueues with score retryCount + 1 only on failure below 3 retries |
| `TaskDistribution.TaskDistributionService.CreateTask` | be/src/services/taskDistribution.ts:65-91 | with no active proxy it fails with "No active proxy found for user" and changes nothing; otherwise a PENDING task on the user's first active proxy is created and queued with its priority's score (NORMAL by default) |
| `TaskDistribution.TaskDistributionService.GetTaskStatus` | be/src/services/taskDistribution.ts:93-97 | the stored record of that id, or null |
| `TaskDistribution.TaskDistributionService.ExecuteScraping` | be/src/services/taskDistribution.ts:99-194 | unknown id fails and changes nothing; each failure marks the task FAILED with null content, marks the chosen proxy unhealthy, re-pushes with retryCount + 1 iff retryCount < 3, and keeps `retryCount` on every path; success marks the proxy healthy, completes the task, returns the proxy's owner and leaves the queue alone |
| `TaskDistribution.TaskDistributionService.RecordFailedAttempt` | be/src/services/taskDistribution.ts:175-192 | the failure path: the chosen proxy (if any) is marked unhealthy, the task becomes FAILED with null content, it is re-queued with score retryCount + 1 iff retryCount < 3, and the error is passed on |

## Left out

- The HTTP request itself is not modelled: axios options, User-Agent, port 80, redirect limit and timeout. Only its outcome is kept, as the `fetch` parameter.
- Bandwidth arithmetic is not modelled: `Date.now`, the `content-length` header, `parseInt` and `TextEncoder`/`JSON.stringify` sizing. These are floating-point and wall-clock work, so the fetch outcome carries the bandwidth as an opaque `real`.
- Concurrency between scheduler instances is not modelled. Operations run one after another, and another instance's held lock is a key already in `locks`. The non-atomic INCR/EXPIRE pair is modelled as one step.
- Redis keeps its keys in one keyspace. The model keeps rate counters, lock keys, the queue and the health hash in separate maps; the core's key names never collide.
- Queue scores are modelled as integers. Redis keeps doubles, but every score the core writes is an integer.
- RedisStore.RedisService.constructor: the model's store starts empty. The source connects to a server that may already hold queued tasks, counters, health entries and locks; the operations' contracts do not assume emptiness, only the constructor does.
- Store and connection failures are not modelled. Nor are the construction of the Prisma and ioredis clients or `dotenv`.
- A row's id and creation time are generated by the store; here they are the parameters `newId` and `now`.
- `findMany` and `findFirst` have no `orderBy`. Their order is taken to be the order of `Database.proxies`.
- `HEALTH_CHECK_INTERVAL` is declared in the constants but unused by the core. It is kept as a constant only.
- RedisStore.RedisService.RemoveTask: the sorted-set key argument is dropped, because every caller passes `task_queue`.
- TaskScheduling.TaskScheduler.AssignTask: the foreign-key check on `proxyIPId` is not modelled, because the Prisma schema is not part of this model. An unlisted proxy id is accepted.
- TaskDistribution.TaskDistributionService.HandleTaskCompletion: `data || null` also turns falsy payloads (`""`, `0`, `false`) into null. The model treats only absent data as null, because payloads are opaque here.
- TaskDistribution.TaskDistributionService.CreateTask: the priority is a closed datatype. An out-of-range priority string, which TypeScript's type excludes, is not modelled.
- HTTP routing and authentication are not part of this model. This covers `be/src/routes/*`, `be/src/index.ts`, JWT, bcrypt, Clerk and Express.
- The browser UI and extension messaging are not part of this model. This covers `fe/src/*`.
- The compiled JavaScript under `be/dist/*` repeats the TypeScript sources line for line and is covered by them.
