/** A `ThreadPool` in use (src/stms/async.cpp:10-34, 63-181) as a transition system: any number of
    submitting threads, the worker threads, and one owner who starts, stops and resizes the pool.
    Every lock region and every access to `running` or `stopRequest` is a step of its own. */
module PoolRuns {
  import opened PoolRegions

  /** Where a worker is in `workerFunc`. Tasks are named by the order in which they were queued. */
  datatype Phase =
    | AtLoopTest           // reads `running`
    | AtStopTest           // compares its index with `stopRequest`
    | Leaving              // was asked to stop: clears `stopRequest`
    | AtQueue              // locks the queue
    | Waiting              // in `wait_for`, which also ends on a timeout
    | Running(task: nat)
    | Executed(task: nat)  // about to decrement the counter
    | Exited

  datatype Thread = Thread(index: nat, phase: Phase)

  /** What the owner's current call does next. */
  datatype Owner =
    | Idle
    | Spawning(left: nat, made: nat)
    | PushSpawning
    | PopAsked(block: bool)
    | PopJoining(t: ThreadId)
    | Stopping(block: bool, thenStart: nat)              // `thenStart` workers follow a restart
    | StopJoining(t: ThreadId, thenStart: nat)

  datatype State = State(
    pool: Pool,
    threads: seq<Thread>,    // every thread ever created
    counting: nat,           // submitters that have counted their task but not queued it
    owner: Owner,
    enqueued: seq<Task>,     // all tasks, in queue order
    taken: nat,              // how many of them workers have popped
    executed: seq<nat>)      // which of them have run, in the order in which they ended

  const START := State(Pool(false, 0, 0, [], []), [], 0, Idle, [], 0, [])

  datatype Action =
    | Count
    | Enqueue(task: Task)
    | Work(t: ThreadId)
    | StartCall(threads: nat)
    | Spawn
    | PushCall
    | PushSpawn
    | PopCall(block: bool)
    | PopRemove
    | PopJoin
    | StopCall(block: bool)
    | StopTake
    | StopJoin
    | StopDone

  predicate HasExited(s: State, t: ThreadId) {
    t < |s.threads| && s.threads[t].phase.Exited?
  }

  predicate Enabled(s: State, a: Action) {
    match a
    case Count => true
    case Enqueue(_) => s.counting > 0
    case Work(t) => t < |s.threads| && !s.threads[t].phase.Exited?
    case StartCall(n) => s.owner.Idle? && n > 0
    case Spawn => s.owner.Spawning? && s.owner.left > 0
    case PushCall => s.owner.Idle?
    case PushSpawn => s.owner.PushSpawning?
    case PopCall(_) => s.owner.Idle?
    case PopRemove => s.owner.PopAsked? && s.pool.workers != []
    case PopJoin => s.owner.PopJoining? && HasExited(s, s.owner.t)
    case StopCall(_) => s.owner.Idle?
    case StopTake => s.owner.Stopping? && s.pool.workers != []
    case StopJoin => s.owner.StopJoining? && HasExited(s, s.owner.t)
    case StopDone => s.owner.Stopping? && s.pool.workers == []
  }

  function SetPhase(s: State, t: ThreadId, phase: Phase): State
    requires t < |s.threads|
  {
    s.(threads := s.threads[t := s.threads[t].(phase := phase)])
  }

  function WorkNext(s: State, t: ThreadId): State
    requires Enabled(s, Work(t))
  {
    match s.threads[t].phase
    case AtLoopTest => SetPhase(s, t, if s.pool.running then AtStopTest else Exited)
    case AtStopTest => SetPhase(s, t, if s.threads[t].index == s.pool.stopRequest then Leaving else AtQueue)
    case Leaving => SetPhase(s, t, Exited).(pool := s.pool.(stopRequest := 0))
    case AtQueue =>
      var (pool, task) := TakeTask(s.pool);
      if task.Some? then SetPhase(s, t, Running(s.taken)).(pool := pool, taken := s.taken + 1)
      else SetPhase(s, t, Waiting)
    case Waiting => SetPhase(s, t, AtLoopTest)
    case Running(task) => SetPhase(s, t, Executed(task)).(executed := s.executed + [task])
    case Executed(task) => SetPhase(s, t, AtLoopTest).(pool := FinishTask(s.pool))
  }

  /** A new thread, which the pool also lists as a worker. */
  function AddThread(s: State, index: nat): State {
    s.(threads := s.threads + [Thread(index, AtLoopTest)], pool := AddWorker(s.pool, |s.threads|))
  }

  /** `popThread` on a running pool without workers would be undefined; `PoolOwner.BetweenCalls`
      shows that there is no such pool. */
  function OwnerNext(s: State, a: Action): State
    requires Enabled(s, a) && !a.Count? && !a.Enqueue? && !a.Work?
  {
    var p := s.pool;
    match a
    case StartCall(n) =>
      if p.running then s.(pool := p.(running := false), owner := Stopping(true, n))
      else s.(pool := p.(running := true), owner := Spawning(n, 0))
    case Spawn =>
      var Spawning(left, made) := s.owner;
      AddThread(s, made + 1).(owner := if left == 1 then Idle else Spawning(left - 1, made + 1))
    case PushCall => s.(pool := p.(running := true), owner := PushSpawning)
    case PushSpawn => AddThread(s, |p.workers| + 1).(owner := Idle)
    case PopCall(block) =>
      if p.running then s.(pool := AskLastToStop(p), owner := PopAsked(block)) else s
    case PopRemove =>
      s.(pool := DropLastWorker(p),
         owner := if s.owner.block then PopJoining(p.workers[|p.workers| - 1]) else Idle)
    case PopJoin => s.(owner := Idle)
    case StopCall(block) =>
      if p.running then s.(pool := p.(running := false), owner := Stopping(block, 0)) else s
    case StopTake =>
      s.(pool := DropFirstWorker(p),
         owner := if s.owner.block then StopJoining(p.workers[0], s.owner.thenStart) else s.owner)
    case StopJoin => s.(owner := Stopping(true, s.owner.thenStart))
    case StopDone =>
      if s.owner.thenStart == 0 then s.(owner := Idle)
      else s.(pool := p.(running := true), owner := Spawning(s.owner.thenStart, 0))
  }

  function Next(s: State, a: Action): State
    requires Enabled(s, a)
  {
    match a
    case Count => s.(pool := CountTask(s.pool), counting := s.counting + 1)
    case Enqueue(task) =>
      s.(pool := EnqueueTask(s.pool, task), counting := s.counting - 1, enqueued := s.enqueued + [task])
    case Work(t) => WorkNext(s, t)
    case _ => OwnerNext(s, a)
  }

  predicate IsRun(s: State, actions: seq<Action>)
    decreases |actions|
  {
    actions == [] || (Enabled(s, actions[0]) && IsRun(Next(s, actions[0]), actions[1..]))
  }

  function After(s: State, actions: seq<Action>): State
    requires IsRun(s, actions)
    decreases |actions|
  {
    if actions == [] then s else After(Next(s, actions[0]), actions[1..])
  }

  lemma {:induction false} RunConcat(s: State, first: seq<Action>, second: seq<Action>)
    requires IsRun(s, first) && IsRun(After(s, first), second)
    ensures IsRun(s, first + second) && After(s, first + second) == After(After(s, first), second)
    decreases |first|
  {
    hide Next, Enabled;
    if first == [] {
      assert first + second == second;
    } else {
      assert (first + second)[1..] == first[1..] + second;
      RunConcat(Next(s, first[0]), first[1..], second);
    }
  }

  lemma {:induction false} RunSplit(s: State, first: seq<Action>, second: seq<Action>)
    requires IsRun(s, first + second)
    ensures IsRun(s, first) && IsRun(After(s, first), second)
    ensures After(s, first + second) == After(After(s, first), second)
    decreases |first|
  {
    hide Next, Enabled;
    if first == [] {
      assert first + second == second;
    } else {
      assert (first + second)[1..] == first[1..] + second;
      RunSplit(Next(s, first[0]), first[1..], second);
    }
  }

  lemma {:induction false} OneStep(s: State, a: Action)
    requires Enabled(s, a)
    ensures IsRun(s, [a]) && After(s, [a]) == Next(s, a)
  {
    hide Next, Enabled;
    var s' := Next(s, a);
    assert [a][1..] == [] && IsRun(s', []) && After(s', []) == s';
  }

  lemma {:induction false} ThenStep(s: State, actions: seq<Action>, a: Action)
    requires IsRun(s, actions) && Enabled(After(s, actions), a)
    ensures IsRun(s, actions + [a]) && After(s, actions + [a]) == Next(After(s, actions), a)
  {
    hide Next, Enabled;
    OneStep(After(s, actions), a);
    RunConcat(s, actions, [a]);
  }

  ghost predicate Reachable(s: State) {
    exists actions :: IsRun(START, actions) && After(START, actions) == s
  }
}
