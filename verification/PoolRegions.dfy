/** The shared fields of `ThreadPool` (include/stms/async.hpp:122-136) and what each atomic
    region of src/stms/async.cpp does to them. */
module PoolRegions {

  import opened Basics

  type Task = nat
  type ThreadId = nat     // the n-th thread ever created

  const USHORT := 0x1_0000    // `unfinishedTasks` is an unsigned short
  type ushort = n: nat | n < USHORT witness 0
  const UINT := 0x1_0000_0000

  datatype Pool = Pool(
    running: bool,
    stopRequest: nat,
    unfinished: nat,
    tasks: seq<Task>,
    workers: seq<ThreadId>)

  function CountTask(p: Pool): Pool {
    p.(unfinished := (p.unfinished + 1) % USHORT)
  }

  function EnqueueTask(p: Pool, task: Task): Pool {
    p.(tasks := p.tasks + [task])
  }

  function TakeTask(p: Pool): (Pool, Option<Task>) {
    if p.tasks == [] then (p, None) else (p.(tasks := p.tasks[1..]), Some(p.tasks[0]))
  }

  function FinishTask(p: Pool): Pool {
    p.(unfinished := (p.unfinished + USHORT - 1) % USHORT)
  }

  function AddWorker(p: Pool, t: ThreadId): Pool {
    p.(workers := p.workers + [t])
  }

  /** `popThread`, first write: the request names the last worker by its index. */
  function AskLastToStop(p: Pool): Pool {
    p.(stopRequest := |p.workers|)
  }

  /** `popThread`, second write: the last worker is dropped, and with it perhaps the pool. */
  function DropLastWorker(p: Pool): Pool
    requires p.workers != []
  {
    var rest := p.workers[..|p.workers| - 1];
    p.(workers := rest, running := p.running && rest != [])
  }

  function DropFirstWorker(p: Pool): Pool
    requires p.workers != []
  {
    p.(workers := p.workers[1..])
  }

  /** How many workers `start(threads)` creates on a machine that reports `cores` threads.
      The subtraction is unsigned: a machine that reports none asks for 2^32 - 1 workers. */
  function ThreadCount(threads: nat, cores: nat): (n: nat)
    requires threads < UINT && cores < UINT
    ensures 0 < n < UINT
    ensures threads > 0 ==> n == threads
    ensures threads == 0 && cores > 1 ==> n == cores - 1
    ensures threads == 0 && cores == 1 ==> n == 8
    ensures threads == 0 && cores == 0 ==> n == UINT - 1
  {
    if threads != 0 then threads
    else
      var n := (cores + UINT - 1) % UINT;
      if n == 0 then 8 else n
  }
}
