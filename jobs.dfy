/**
 * The jobs the queue runs (`app/queue/job.go`). A job is seen through what
 * the worker observes of it: the string form of its id, and how its
 * `Process` ends, normally or by a panic carrying a payload.
 */
module Jobs {
  import opened Wrappers

  /** How `Process` ends: it returns, or it panics with a payload. */
  datatype Outcome = Completes | Panics(payload: string)

  /** A `Job`: `ID().String()` and the outcome of `Process`. */
  datatype Job = Job(id: string, outcome: Outcome)

  /**
   * What `recover()` yields in the deferred finishing step: the payload
   * exactly when `Process` panicked, nothing when it returned.
   */
  function Recovered(job: Job): (r: Option<string>)
    ensures r.Some? <==> job.outcome.Panics?
    ensures r.Some? ==> r.value == job.outcome.payload
  {
    match job.outcome
    case Completes => None
    case Panics(p) => Some(p)
  }

  /** `TestJob` (`app/testJob.go`): an id and a message. */
  datatype TestJob = TestJob(id: string, message: string)

  /** A `TestJob` as a `Job`: its `Process` always panics with its message. */
  function TestJobAsJob(t: TestJob): (j: Job)
    ensures j.id == t.id
    ensures j.outcome.Panics? && j.outcome.payload == t.message
  {
    Job(t.id, Panics(t.message))
  }
}
