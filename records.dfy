/**
 * The durable records the core reads and writes (the Prisma `Task` and
 * `ProxyIP` rows), and the errors its operations throw.
 */
module Records {
  import opened Wrappers
  import opened RedisStore

  type UserId = string

  /** Milliseconds since the epoch, as `new Date()` gives them. */
  type Timestamp = int

  datatype TaskStatus = Pending | InProgress | Completed | Failed

  /** A fetched response body, kept opaque. */
  datatype Payload = Payload(body: string)

  /**
   * The task's `data` column: null, the `{ content: … }` object that
   * `executeScraping` writes, or the value handed to `handleTaskCompletion`.
   */
  datatype TaskData = NoData | Content(content: Option<Payload>) | Given(value: Payload)

  datatype Task = Task(
    id: TaskId,
    targetUrl: string,
    status: TaskStatus,
    retryCount: nat,
    proxyIPId: ProxyId,
    assignedToId: UserId,
    bandwidthUsed: real,
    data: TaskData,
    createdAt: Timestamp)

  datatype Proxy = Proxy(
    id: ProxyId,
    ipAddress: string,
    userId: UserId,
    isActive: bool,
    lastVerified: Timestamp)

  /** The errors the core throws, one per message in the source, plus Prisma's missing-record error. */
  datatype Error =
    | TaskNotFound
    | NoActiveProxyForUser
    | NoAvailableProxy
    | RateLimitExceeded
    | TaskAlreadyBeingAssigned
    | RecordNotFound
    | UpstreamFetchError(reason: string)

  /** The ids of the listed proxies. */
  function ProxyIds(proxies: seq<Proxy>): set<ProxyId>
  {
    set i | 0 <= i < |proxies| :: proxies[i].id
  }

  /** No two listed proxies share an id: `id` is the proxy table's primary key. */
  predicate UniqueIds(proxies: seq<Proxy>)
  {
    forall i, j :: 0 <= i < j < |proxies| ==> proxies[i].id != proxies[j].id
  }

  /** The relational store: tasks by id, and proxies in the order the store lists them. */
  class Database {
    var tasks: map<TaskId, Task>
    var proxies: seq<Proxy>

    /** Every task is stored under its own id, and proxy ids are unique. */
    ghost predicate Valid()
      reads this
    {
      && (forall id :: id in tasks ==> tasks[id].id == id)
      && UniqueIds(proxies)
    }

    constructor(proxies: seq<Proxy>)
      requires UniqueIds(proxies)
      ensures Valid() && tasks == map[] && this.proxies == proxies
    {
      this.tasks := map[];
      this.proxies := proxies;
    }
  }
}
