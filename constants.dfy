/** Configuration constants of the scheduler (be/src/config/constants.ts). */
module Constants {

  /** Ceiling on the requests one proxy may serve per rate window. */
  const RequestsPerMinute: nat := 60

  /** A failed task is re-enqueued only while its retry count is below this. */
  const MaxRetries: nat := 3

  /** Health check interval in milliseconds; declared but not used by the core. */
  const HealthCheckInterval: nat := 5 * 60 * 1000

  /** Proxy timeout, written in milliseconds. */
  const ProxyTimeout: nat := 30 * 1000

  /** The three priorities a task can be created with. */
  datatype Priority = High | Normal | Low

  /** Urgency of a priority, independent of its queue score: a larger number is more urgent. */
  function Urgency(p: Priority): nat
  {
    match p
    case High => 2
    case Normal => 1
    case Low => 0
  }

  /** The queue score of a priority (TASK_PRIORITIES); lower scores are served first. */
  function PriorityScore(p: Priority): (score: int)
    ensures 1 <= score <= 3
    ensures p == Normal <==> score == 2
  {
    match p
    case High => 1
    case Normal => 2
    case Low => 3
  }

  /** A more urgent priority gets a strictly lower score, and conversely. */
  lemma MoreUrgentScoresLower(p: Priority, q: Priority)
    ensures Urgency(p) > Urgency(q) <==> PriorityScore(p) < PriorityScore(q)
    ensures p != q ==> PriorityScore(p) != PriorityScore(q)
  {
  }
}
