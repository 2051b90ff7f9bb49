/**
 * The job queue (`app/queue/queue.go`): a fixed set of workers, a ready
 * pool into which idle workers check their channels, and a dispatcher that
 * hands each submitted job to the first worker in the pool.
 *
 * The goroutines become atomic steps run one after another, and a channel
 * operation that would block becomes a precondition. The ready pool holds
 * worker ids where the source holds each worker's job channel.
 */
module Queue {
  import opened Wrappers
  import opened Jobs
  import opened Workers

  /** Whether `Start` and the dispatcher's quit case have run. */
  datatype Status = Created | Running | ShutDown

  /** The ids 0 .. n - 1 in order. */
  function Range(n: nat): (r: seq<int>)
    ensures |r| == n && forall k :: 0 <= k < n ==> r[k] == k
  {
    if n == 0 then [] else Range(n - 1) + [n - 1]
  }

  /** No id appears twice in `s`. */
  predicate Distinct(s: seq<int>)
  {
    forall k, l :: 0 <= k < l < |s| ==> s[k] != s[l]
  }

  class JobQueue {
    const workers: seq<Worker>
    /** The buffer size of the ready pool channel. */
    const capacity: nat
    /** The ids of the workers whose channels are checked in, oldest first. */
    var readyPool: seq<int>
    /** Jobs whose `Submit` the dispatcher has not yet received, oldest first. */
    var waiting: seq<Job>
    var status: Status
    /** The counter of the `workersStopped` wait group. */
    var workersRunning: nat
    /** The counter of the `dispatcherStopped` wait group is one. */
    var dispatcherRunning: bool

    /** Every job ever submitted, in order. */
    ghost var submitted: seq<Job>
    /** The jobs the dispatcher has handed out, in order, and the worker each went to. */
    ghost var dispatchedJobs: seq<Job>
    ghost var assignedTo: seq<int>
    /** The ids of the workers the quit case has stopped, in order. */
    ghost var stopOrder: seq<int>

    function WorkerObjects(): set<Worker>
    {
      set w | w in workers
    }

    ghost predicate Valid()
      reads this, WorkerObjects()
    {
      && capacity == |workers|
      && (forall k, l :: 0 <= k < l < |workers| ==> workers[k] != workers[l])
      && (forall i :: 0 <= i < |workers| ==> workers[i].Valid() && workers[i].state.id == i)
      && (forall k :: 0 <= k < |readyPool| ==> 0 <= readyPool[k] < |workers|)
      && Distinct(readyPool)
      && (forall i :: 0 <= i < |workers| ==>
            (i in readyPool <==> workers[i].state.phase == Pending || workers[i].state.phase == Stopping))
      && dispatchedJobs + waiting == submitted
      && |assignedTo| == |dispatchedJobs|
      && (status == Created ==>
            workersRunning == 0 && !dispatcherRunning &&
            forall i :: 0 <= i < |workers| ==> workers[i].state.phase == Initialized)
      && (status == Running ==>
            workersRunning == |workers| && dispatcherRunning &&
            forall i :: 0 <= i < |workers| ==>
              workers[i].state.phase != Initialized && workers[i].state.phase != Stopping)
      && (status == ShutDown ==>
            workersRunning == 0 && !dispatcherRunning && stopOrder == Range(|workers|) &&
            forall i :: 0 <= i < |workers| ==> workers[i].state.phase == Stopping)
    }

    /**
     * `NewJobQueue`: `maxWorkers` new workers with ids 0 .. maxWorkers - 1,
     * and a ready pool with room for all of them. A negative size makes
     * `make` panic.
     */
    constructor (maxWorkers: int)
      requires maxWorkers >= 0
      ensures Valid() && status == Created && fresh(WorkerObjects())
      ensures |workers| == maxWorkers && capacity == maxWorkers
      ensures forall i :: 0 <= i < maxWorkers ==> workers[i].state == Initial(i)
      ensures readyPool == [] && waiting == [] && submitted == []
    {
      var ws: seq<Worker> := [];
      var i := 0;
      while i < maxWorkers
        invariant 0 <= i <= maxWorkers && |ws| == i
        invariant forall k :: 0 <= k < i ==> fresh(ws[k]) && ws[k].Valid() && ws[k].state == Initial(k)
        invariant forall k, l :: 0 <= k < l < i ==> ws[k] != ws[l]
      {
        var w := new Worker(i);
        ws := ws + [w];
        i := i + 1;
      }
      workers := ws;
      capacity := maxWorkers;
      readyPool := [];
      waiting := [];
      status := Created;
      workersRunning := 0;
      dispatcherRunning := false;
      submitted := [];
      dispatchedJobs := [];
      assignedTo := [];
      stopOrder := [];
    }

    /** `Start`: every worker begins its loop, then the dispatcher runs. */
    method Start()
      requires Valid() && status == Created
      modifies this`workersRunning, this`dispatcherRunning, this`status, WorkerObjects()
      ensures Valid() && status == Running
      ensures forall i :: 0 <= i < |workers| ==>
        workers[i].state == Started(Initial(i)) && workers[i].history == old(workers[i].history) + [workers[i].state]
    {
      StartWorkers();
      workersRunning := |workers|;
      dispatcherRunning := true;
      status := Running;
    }

    /** The loop of `Start`: each worker in turn takes its starting state. */
    method StartWorkers()
      requires forall k, l :: 0 <= k < l < |workers| ==> workers[k] != workers[l]
      requires forall i :: 0 <= i < |workers| ==>
        workers[i].Valid() && workers[i].state.id == i && workers[i].state.phase == Initialized
      modifies WorkerObjects()
      ensures forall i :: 0 <= i < |workers| ==> workers[i].Valid() && workers[i].state == Started(Initial(i))
      ensures forall i :: 0 <= i < |workers| ==> workers[i].history == old(workers[i].history) + [workers[i].state]
    {
      var i := 0;
      while i < |workers|
        invariant 0 <= i <= |workers|
        invariant forall k :: 0 <= k < i ==> workers[k].Valid() && workers[k].state == Started(Initial(k))
        invariant forall k :: 0 <= k < i ==> workers[k].history == old(workers[k].history) + [workers[k].state]
        invariant forall k :: i <= k < |workers| ==>
          workers[k].Valid() && workers[k].state == old(workers[k].state) && workers[k].history == old(workers[k].history)
      {
        workers[i].Start();
        i := i + 1;
      }
    }

    /**
     * `Submit`: the job joins the jobs waiting for the dispatcher. The send
     * completes when `Dispatch` receives it.
     */
    method Submit(job: Job)
      requires Valid()
      modifies this`waiting, this`submitted
      ensures Valid() && waiting == old(waiting) + [job] && submitted == old(submitted) + [job]
    {
      waiting := waiting + [job];
      submitted := submitted + [job];
    }

    /**
     * The top of worker `i`'s loop: its channel joins the end of the ready
     * pool and the worker waits. The pool always has room.
     */
    method WorkerCheckIn(i: int)
      requires Valid() && status == Running && 0 <= i < |workers|
      requires workers[i].state.phase == Starting || workers[i].state.phase == Processed
      modifies this`readyPool, workers[i]
      ensures Valid() && readyPool == old(readyPool) + [i] && |readyPool| <= capacity
      ensures workers[i].state == CheckedIn(old(workers[i].state))
      ensures workers[i].history == old(workers[i].history) + [workers[i].state]
    {
      PoolHasRoom(readyPool, |workers|, i);
      workers[i].CheckIn();
      readyPool := readyPool + [i];
    }

    /**
     * The job case of the dispatcher: take the oldest waiting job and the
     * first worker in the ready pool, and have that worker process it.
     * Gives the worker's id and the payload reported to the job, if any.
     */
    method Dispatch() returns (worker: int, reported: Option<string>)
      requires Valid() && status == Running && waiting != [] && readyPool != []
      modifies this`waiting, this`dispatchedJobs, this`readyPool, this`assignedTo, WorkerObjects()
      ensures Valid()
      ensures worker == old(readyPool[0]) && readyPool == old(readyPool[1..])
      ensures waiting == old(waiting[1..])
      ensures dispatchedJobs == old(dispatchedJobs) + [old(waiting[0])]
      ensures assignedTo == old(assignedTo) + [worker]
      ensures workers[worker].state == Finished(old(workers[worker].state), old(waiting[0]))
      ensures workers[worker].history ==
        old(workers[worker].history) + [Begun(old(workers[worker].state), old(waiting[0])), workers[worker].state]
      ensures reported == Recovered(old(waiting[0]))
      ensures forall k :: 0 <= k < |workers| && k != worker ==>
        workers[k].state == old(workers[k].state) && workers[k].history == old(workers[k].history)
    {
      var job := waiting[0];
      waiting := waiting[1..];
      dispatchedJobs := dispatchedJobs + [job];
      assert dispatchedJobs + waiting == submitted by {
        assert old(waiting) == [job] + waiting;
      }
      worker := readyPool[0];
      TakeFirst(readyPool);
      readyPool := readyPool[1..];
      assignedTo := assignedTo + [worker];
      reported := workers[worker].Process(job);
    }

    /**
     * `Stop` and the quit case of the dispatcher: stop every worker in
     * order, wait until all have left their loops, then mark the
     * dispatcher stopped. Each quit send waits for a pending worker.
     */
    method Stop()
      requires Valid() && status == Running
      requires forall i :: 0 <= i < |workers| ==> workers[i].state.phase == Pending
      modifies this`dispatcherRunning, this`status, this`workersRunning, this`stopOrder, WorkerObjects()
      ensures Valid() && status == ShutDown && !dispatcherRunning && workersRunning == 0
      ensures stopOrder == Range(|workers|)
      ensures forall i :: 0 <= i < |workers| ==>
        workers[i].state == Stopped(old(workers[i].state)) && workers[i].history == old(workers[i].history) + [workers[i].state]
    {
      StopWorkers();
      dispatcherRunning := false;
      status := ShutDown;
    }

    /**
     * The loop of the quit case: each worker in turn receives the quit
     * signal, stops, and counts itself out of the `workersStopped` group.
     */
    method StopWorkers()
      requires |workers| == workersRunning
      requires forall k, l :: 0 <= k < l < |workers| ==> workers[k] != workers[l]
      requires forall i :: 0 <= i < |workers| ==> workers[i].Valid() && workers[i].state.phase == Pending
      modifies this`workersRunning, this`stopOrder, WorkerObjects()
      ensures workersRunning == 0 && stopOrder == Range(|workers|)
      ensures forall i :: 0 <= i < |workers| ==>
        workers[i].Valid() && workers[i].state == Stopped(old(workers[i].state))
      ensures forall i :: 0 <= i < |workers| ==> workers[i].history == old(workers[i].history) + [workers[i].state]
    {
      stopOrder := [];
      var i := 0;
      while i < |workers|
        invariant 0 <= i <= |workers|
        invariant workersRunning == |workers| - i && stopOrder == Range(i)
        invariant forall k :: 0 <= k < i ==> workers[k].Valid() && workers[k].state == Stopped(old(workers[k].state))
        invariant forall k :: 0 <= k < i ==> workers[k].history == old(workers[k].history) + [workers[k].state]
        invariant forall k :: i <= k < |workers| ==>
          workers[k].Valid() && workers[k].state == old(workers[k].state) && workers[k].history == old(workers[k].history)
      {
        workers[i].Stop();
        workersRunning := workersRunning - 1;
        stopOrder := stopOrder + [i];
        i := i + 1;
      }
    }
  }

  // ---------------------------------------------------------------------------
  // The ready pool never overflows
  // ---------------------------------------------------------------------------

  /** A sequence of distinct elements of `r` is no longer than `r` has elements. */
  lemma {:induction false} DistinctWithin(s: seq<int>, r: set<int>)
    requires Distinct(s) && forall k :: 0 <= k < |s| ==> s[k] in r
    ensures |s| <= |r|
    decreases |s|
  {
    if s != [] {
      var x := s[|s| - 1];
      var p := s[..|s| - 1];
      assert forall k :: 0 <= k < |p| ==> p[k] in r - {x};
      DistinctWithin(p, r - {x});
    }
  }

  /** Taking the first id off a pool of distinct ids leaves exactly the others, still distinct. */
  lemma TakeFirst(pool: seq<int>)
    requires Distinct(pool) && pool != []
    ensures Distinct(pool[1..])
    ensures forall x :: x in pool[1..] <==> x in pool && x != pool[0]
  {
    forall x | x in pool[1..]
      ensures x != pool[0]
    {
      var k :| 0 <= k < |pool[1..]| && pool[1..][k] == x;
      assert pool[k + 1] == x;
    }
  }

  /** The ids below `n`, as a set of `n` elements. */
  function IdsBelow(n: nat): (r: set<int>)
    ensures forall x :: x in r <==> 0 <= x < n
    ensures |r| == n
  {
    if n == 0 then {} else IdsBelow(n - 1) + {n - 1}
  }

  /**
   * A pool of distinct ids below `n` that misses the id `i` holds fewer
   * than `n` ids, so checking `i` in never blocks on a full channel.
   */
  lemma PoolHasRoom(pool: seq<int>, n: nat, i: int)
    requires Distinct(pool) && forall k :: 0 <= k < |pool| ==> 0 <= pool[k] < n
    requires 0 <= i < n && i !in pool
    ensures |pool| < n
  {
    var r := IdsBelow(n);
    assert forall k :: 0 <= k < |pool| ==> pool[k] in r - {i};
    DistinctWithin(pool, r - {i});
  }
}
