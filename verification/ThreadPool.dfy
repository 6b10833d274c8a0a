/** `ThreadPool` as the object it is (src/stms/async.cpp:10-181). Each method below that a lock
    guards is proved against the region that the transition system `PoolRuns` uses. */
module ThreadPool {
  import opened Basics
  import opened PoolRegions

  /** An unsigned short lowered `n` times, modulo 65536. */
  function CountedDown(count: ushort, n: nat): (r: ushort)
    ensures n <= count ==> r == count - n
  {
    (count - n) % USHORT
  }

  lemma CountDownFrom(count: ushort)
    ensures CountedDown(count, 0) == count
  {
  }

  lemma CountDownStep(count: ushort, n: nat)
    ensures CountedDown(count, n + 1) == if CountedDown(count, n) > 0 then CountedDown(count, n) - 1 else 65535
  {
  }

  class Pool {
    var running: bool
    var stopRequest: nat
    var unfinishedTasks: ushort
    var tasks: seq<Task>
    var workers: seq<ThreadId>
    var created: seq<nat>    // the index passed to each thread ever created

    constructor ()
      ensures Valid() && Shared() == PoolRegions.Pool(false, 0, 0, [], []) && created == []
    {
      running, stopRequest, unfinishedTasks, tasks, workers, created := false, 0, 0, [], [], [];
    }

    function Shared(): PoolRegions.Pool
      reads this
    {
      PoolRegions.Pool(running, stopRequest, unfinishedTasks, tasks, workers)
    }

    /** What holds between the calls of the owner. */
    ghost predicate Valid()
      reads this
    {
      && (running <==> workers != [])
      && forall k :: 0 <= k < |workers| ==> workers[k] < |created| && created[workers[k]] == k + 1
    }

    method SubmitPackagedTask(task: Task)
      modifies this`unfinishedTasks, this`tasks
      ensures Shared() == EnqueueTask(CountTask(old(Shared())), task)
      ensures tasks[..|tasks| - 1] == old(tasks) && tasks[|tasks| - 1] == task
      ensures unfinishedTasks == if old(unfinishedTasks) < 65535 then old(unfinishedTasks) + 1 else 0
    {
      unfinishedTasks := (unfinishedTasks + 1) % USHORT;
      tasks := tasks + [task];
    }

    /** The loop body of `workerFunc` up to where it calls what it popped; nothing is taken from an empty queue. */
    method TakeNext() returns (front: Option<Task>)
      modifies this`tasks
      ensures (Shared(), front) == TakeTask(old(Shared()))
      ensures front == None <==> old(tasks) == []
      ensures front.Some? ==> [front.value] + tasks == old(tasks)
      ensures front == None ==> tasks == []
    {
      front := None;
      if tasks != [] {
        front := Some(tasks[0]);
        tasks := tasks[1..];
      }
    }

    method CountOff()
      modifies this`unfinishedTasks
      ensures Shared() == FinishTask(old(Shared()))
      ensures unfinishedTasks == if old(unfinishedTasks) > 0 then old(unfinishedTasks) - 1 else 65535
    {
      unfinishedTasks := (unfinishedTasks + USHORT - 1) % USHORT;
    }

    /** `workerFunc` on a queue that nobody else touches, up to where the worker exits or waits for
        more tasks. Calling a task is what adds it to `executed`. */
    method WorkerFunc(index: nat) returns (executed: seq<Task>, exited: bool)
      modifies this`stopRequest, this`tasks, this`unfinishedTasks
      ensures exited <==> !old(running) || index == old(stopRequest)
      ensures exited ==> executed == [] && tasks == old(tasks) && unfinishedTasks == old(unfinishedTasks)
      ensures stopRequest == if old(running) && exited then 0 else old(stopRequest)
      ensures !exited ==> executed == old(tasks) && tasks == []
      ensures !exited ==> unfinishedTasks == CountedDown(old(unfinishedTasks), |old(tasks)|)
    {
      hide CountedDown;
      CountDownFrom(unfinishedTasks);
      executed := [];
      while running
        invariant executed + tasks == old(tasks)
        invariant unfinishedTasks == CountedDown(old(unfinishedTasks), |executed|)
        invariant stopRequest == old(stopRequest)
        invariant executed != [] ==> running && index != stopRequest
        decreases |tasks|
      {
        if index == stopRequest {
          stopRequest := 0;
          return executed, true;
        }
        var front := TakeNext();
        if front == None {
          return executed, false;
        }
        CountDownStep(old(unfinishedTasks), |executed|);
        executed := executed + [front.value];
        CountOff();
      }
      exited := true;
    }

    method AddThread(index: nat)
      modifies this`workers, this`created
      ensures Shared() == AddWorker(old(Shared()), |old(created)|)
      ensures created == old(created) + [index]
    {
      workers := workers + [|created|];
      created := created + [index];
    }

    method Stop() returns (removed: seq<ThreadId>)
      modifies this`running, this`workers
      ensures !running && (old(running) ==> workers == [] && removed == old(workers))
      ensures !old(running) ==> Shared() == old(Shared()) && removed == []
    {
      removed := [];
      if !running {
        return;
      }
      running := false;
      while workers != []
        invariant !running && removed + workers == old(workers)
        decreases |workers|
      {
        removed := removed + [workers[0]];
        workers := workers[1..];
      }
    }

    method Start(threads: nat, cores: nat)
      requires Valid() && threads < UINT && cores < UINT
      modifies this`running, this`workers, this`created
      ensures Valid() && running
      ensures var n := ThreadCount(threads, cores);
              && created == old(created) + seq(n, k requires 0 <= k < n => k + 1)
              && workers == seq(n, k requires 0 <= k < n => |old(created)| + k)
    {
      if running {
        var _ := Stop();
      }
      var n := threads;
      if n == 0 {
        n := (cores + UINT - 1) % UINT;
        if n == 0 {
          n := 8;
        }
      }
      running := true;
      for i := 0 to n
        invariant running
        invariant created == old(created) + seq(i, k requires 0 <= k < i => k + 1)
        invariant workers == seq(i, k requires 0 <= k < i => |old(created)| + k)
      {
        AddThread(i + 1);
      }
    }

    method PushThread()
      requires Valid()
      modifies this`running, this`workers, this`created
      ensures Valid()
      ensures Shared() == AddWorker(old(Shared()).(running := true), |old(created)|)
      ensures running && workers == old(workers) + [|old(created)|]
      ensures created == old(created) + [|old(workers)| + 1]
    {
      if !running {
        running := true;
      }
      AddThread(|workers| + 1);
    }

    /** Removes the last worker and leaves the request for it, which the worker itself clears. */
    method PopThread() returns (back: Option<ThreadId>)
      requires Valid()
      modifies this`running, this`stopRequest, this`workers
      ensures Valid()
      ensures if !old(running) then Shared() == old(Shared()) && back == None
              else
                && Shared() == DropLastWorker(AskLastToStop(old(Shared())))
                && back == Some(old(workers)[|old(workers)| - 1])
                && back.value < |created| && created[back.value] == stopRequest == |old(workers)|
                && workers + [back.value] == old(workers) && (running <==> |old(workers)| > 1)
    {
      if !running {
        return None;
      }
      back := Some(workers[|workers| - 1]);
      stopRequest := |workers|;
      workers := workers[..|workers| - 1];
      if workers == [] {
        running := false;
      }
    }
  }
}
