/**
 * The queue's workers (`app/queue/worker.go`, declared again with the same
 * behaviour in `app/queue/queue.go`). A worker's state moves through six
 * phases; each step of its loop is a method that reassigns the state, and a
 * ghost history of every state it has held records the lifecycle.
 */
module Workers {
  import opened Wrappers
  import opened Jobs

  /** The six state names; the source keeps them as strings. */
  datatype Phase = Initialized | Starting | Pending | Processing | Processed | Stopping

  /** The string the source stores for each phase. */
  function PhaseName(p: Phase): string
  {
    match p
    case Initialized => "initialized"
    case Starting => "starting"
    case Pending => "pending"
    case Processing => "processing"
    case Processed => "processed"
    case Stopping => "stopping"
  }

  /** `WorkerState`: the worker's id, its state name and the id of its current job. */
  datatype WorkerState = WorkerState(id: int, phase: Phase, jobId: string)

  /**
   * `WorkerState.IsActive`: the state name is "processed" or "processing",
   * which holds exactly in those two phases since the names are distinct.
   */
  predicate IsActive(ws: WorkerState)
    ensures IsActive(ws) <==> ws.phase == Processing || ws.phase == Processed
  {
    PhaseNamesDistinct(ws.phase, Processed);
    PhaseNamesDistinct(ws.phase, Processing);
    PhaseName(ws.phase) in [PhaseName(Processed), PhaseName(Processing)]
  }

  /** `WorkerState.IsReady`: the state name is "pending", which holds exactly in that phase. */
  predicate IsReady(ws: WorkerState)
    ensures IsReady(ws) <==> ws.phase == Pending
  {
    PhaseNamesDistinct(ws.phase, Pending);
    PhaseName(ws.phase) == PhaseName(Pending)
  }

  // ---------------------------------------------------------------------------
  // The state each step assigns
  // ---------------------------------------------------------------------------

  /** The state `NewWorker` gives a worker. */
  function Initial(id: int): (ws: WorkerState)
    ensures ws.id == id && ws.phase == Initialized && ws.jobId == ""
  {
    WorkerState(id, Initialized, "")
  }

  /** The state a worker takes when its loop starts. */
  function Started(ws: WorkerState): (r: WorkerState)
    ensures r.id == ws.id && r.phase == Starting && r.jobId == ""
    ensures ws.phase == Initialized ==> Step(ws, r)
  {
    WorkerState(ws.id, Starting, "")
  }

  /** The state a worker takes once it has checked its channel into the ready pool. */
  function CheckedIn(ws: WorkerState): (r: WorkerState)
    ensures r.id == ws.id && r.phase == Pending && r.jobId == ""
    ensures ws.phase == Starting || ws.phase == Processed ==> Step(ws, r)
  {
    WorkerState(ws.id, Pending, "")
  }

  /** The state `Process` assigns before running `job`. */
  function Begun(ws: WorkerState, job: Job): (r: WorkerState)
    ensures r.id == ws.id && r.phase == Processing && r.jobId == job.id
    ensures ws.phase == Pending ==> Step(ws, r)
  {
    WorkerState(ws.id, Processing, job.id)
  }

  /** The state the deferred finishing step assigns after `job` has run. */
  function Finished(ws: WorkerState, job: Job): (r: WorkerState)
    ensures r.id == ws.id && r.phase == Processed && r.jobId == job.id
    ensures ws.phase == Processing && ws.jobId == job.id ==> Step(ws, r)
  {
    WorkerState(ws.id, Processed, job.id)
  }

  /** The state the quit case of the loop assigns. */
  function Stopped(ws: WorkerState): (r: WorkerState)
    ensures r.id == ws.id && r.phase == Stopping && r.jobId == ""
    ensures ws.phase == Pending ==> Step(ws, r)
  {
    WorkerState(ws.id, Stopping, "")
  }

  /**
   * The moves the worker's loop allows, in order: initialized, starting,
   * then rounds of pending followed by processing and processed, until a
   * pending worker is told to quit and stops for good. Only processing and
   * processed carry a job id, and the id survives the move between them.
   */
  predicate Step(a: WorkerState, b: WorkerState)
  {
    b.id == a.id &&
    match a.phase
    case Initialized => b.phase == Starting && b.jobId == ""
    case Starting => b.phase == Pending && b.jobId == ""
    case Pending => b.phase == Processing || (b.phase == Stopping && b.jobId == "")
    case Processing => b.phase == Processed && b.jobId == a.jobId
    case Processed => b.phase == Pending && b.jobId == ""
    case Stopping => false
  }

  /** A history of states that follows the lifecycle from a new worker on. */
  ghost predicate Lifecycle(h: seq<WorkerState>)
  {
    |h| > 0 && h[0].phase == Initialized && h[0].jobId == "" &&
    forall i :: 0 < i < |h| ==> Step(h[i - 1], h[i])
  }

  class Worker {
    var state: WorkerState
    /** Every state the worker has held, oldest first. */
    ghost var history: seq<WorkerState>

    ghost predicate Valid()
      reads this
    {
      Lifecycle(history) && history[|history| - 1] == state
    }

    /** `NewWorker`. */
    constructor (id: int)
      ensures Valid() && state == Initial(id) && history == [state]
    {
      state := Initial(id);
      history := [Initial(id)];
    }

    /** `State`: the current state, which is the latest of the lifecycle. */
    function State(): (s: WorkerState)
      reads this
      ensures Valid() ==> s == history[|history| - 1] && Lifecycle(history)
    {
      state
    }

    /** The first step of `Start`'s goroutine. */
    method Start()
      requires Valid() && state.phase == Initialized
      modifies this
      ensures Valid() && state == Started(old(state)) && history == old(history) + [state]
    {
      state := Started(state);
      history := history + [state];
    }

    /** The top of `Start`'s loop: the worker's channel goes into the ready pool, then it waits. */
    method CheckIn()
      requires Valid() && (state.phase == Starting || state.phase == Processed)
      modifies this
      ensures Valid() && state == CheckedIn(old(state)) && history == old(history) + [state]
    {
      state := CheckedIn(state);
      history := history + [state];
    }

    /**
     * `Process`, with its deferred finishing step: the worker is processing
     * `job` while it runs, and has processed it afterwards whether it
     * panicked or not. The result is the payload handed to `job.Error`,
     * which is called once when `Process` panicked and not at all otherwise.
     */
    method Process(job: Job) returns (reported: Option<string>)
      requires Valid() && state.phase == Pending
      modifies this
      ensures Valid()
      ensures history == old(history) + [Begun(old(state), job), Finished(old(state), job)]
      ensures state == Finished(old(state), job)
      ensures reported == Recovered(job)
    {
      state := Begun(state, job);
      history := history + [state];
      reported := Finish(job, Recovered(job));
    }

    /**
     * `Finish`: mark `job` processed and, when `recovered` holds a panic
     * payload, report it to the job.
     */
    method Finish(job: Job, recovered: Option<string>) returns (reported: Option<string>)
      requires Valid() && state.phase == Processing && state.jobId == job.id
      modifies this
      ensures Valid() && state == Finished(old(state), job) && history == old(history) + [state]
      ensures reported == recovered
    {
      state := Finished(state, job);
      history := history + [state];
      reported := recovered;
    }

    /**
     * `Stop` together with the quit case of the loop it wakes: a pending
     * worker takes the stopping state and leaves its loop.
     */
    method Stop()
      requires Valid() && state.phase == Pending
      modifies this
      ensures Valid() && state == Stopped(old(state)) && history == old(history) + [state]
    {
      state := Stopped(state);
      history := history + [state];
    }
  }

  // ---------------------------------------------------------------------------
  // Properties of the states and of the lifecycle
  // ---------------------------------------------------------------------------

  /** The six state names are distinct. */
  lemma PhaseNamesDistinct(p: Phase, q: Phase)
    ensures PhaseName(p) == PhaseName(q) <==> p == q
  {
    if p != q {
      var a, b := PhaseName(p), PhaseName(q);
      assert |a| != |b| || a[2] != b[2];
    }
  }

  /** No state is both active and ready. */
  lemma ActiveAndReadyExclusive(ws: WorkerState)
    ensures !(IsActive(ws) && IsReady(ws))
  {
  }

  /** Every state of a lifecycle keeps the id the worker was created with. */
  lemma {:induction false} LifecycleKeepsId(h: seq<WorkerState>)
    requires Lifecycle(h)
    ensures forall i :: 0 <= i < |h| ==> h[i].id == h[0].id
  {
    if |h| > 1 {
      var p := h[..|h| - 1];
      assert forall i :: 0 < i < |p| ==> Step(p[i - 1], p[i]);
      LifecycleKeepsId(p);
      assert Step(h[|h| - 2], h[|h| - 1]);
    }
  }

  /** Stopping is terminal: a lifecycle holds it only as its last state. */
  lemma StoppingIsLast(h: seq<WorkerState>, i: int)
    requires Lifecycle(h) && 0 <= i < |h| - 1
    ensures h[i].phase != Stopping
  {
    assert Step(h[i], h[i + 1]);
  }

  /** Only the processing and processed states carry a job id. */
  lemma JobIdOnlyWhileActive(h: seq<WorkerState>, i: int)
    requires Lifecycle(h) && 0 <= i < |h| && !IsActive(h[i])
    ensures h[i].jobId == ""
  {
    if i > 0 {
      assert Step(h[i - 1], h[i]);
    }
  }

  /** A processed state directly follows the processing state of the same job. */
  lemma ProcessedFollowsProcessing(h: seq<WorkerState>, i: int)
    requires Lifecycle(h) && 0 <= i < |h| && h[i].phase == Processed
    ensures 0 < i && h[i - 1].phase == Processing && h[i - 1].jobId == h[i].jobId
  {
    if i > 0 {
      assert Step(h[i - 1], h[i]);
    }
  }

  /** The payload of a panicking `TestJob` is what the worker reports. */
  lemma TestJobReportsMessage(t: TestJob)
    ensures Recovered(TestJobAsJob(t)) == Some(t.message)
  {
  }
}
