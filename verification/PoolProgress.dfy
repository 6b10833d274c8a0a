/** That a worker gets through the queue (src/stms/async.cpp:10-34). */
module PoolProgress {
  import opened Basics
  import opened PoolRegions
  import opened PoolRuns
  import opened PoolOwner
  import opened PoolPops

  /** The tasks that worker `t` would still run on its own: the one it has begun, then the queue. */
  function Ahead(s: State, t: ThreadId): seq<nat>
    requires t < |s.threads|
  {
    (if s.threads[t].phase.Running? then [s.threads[t].phase.task] else []) +
    seq(|s.pool.tasks|, k requires 0 <= k < |s.pool.tasks| => s.taken + k)
  }

  /** How often it would count one off. */
  function Owed(s: State, t: ThreadId): nat
    requires t < |s.threads|
  {
    |s.pool.tasks| + if s.threads[t].phase.Running? || s.threads[t].phase.Executed? then 1 else 0
  }

  function CountAfter(s: State, t: ThreadId): nat
    requires t < |s.threads|
  {
    (s.pool.unfinished - Owed(s, t)) % USHORT
  }

  /** One step of a worker that nobody asks to stop. */
  lemma WorkAhead(s: State, t: ThreadId)
    requires Enabled(s, Work(t)) && Live(s.threads[t].phase)
    requires s.pool.running && s.pool.stopRequest != s.threads[t].index
    ensures var s' := Next(s, Work(t));
            && s'.executed + Ahead(s', t) == s.executed + Ahead(s, t)
            && s'.taken + |s'.pool.tasks| == s.taken + |s.pool.tasks|
            && Live(s'.threads[t].phase)
  {
    var s' := Next(s, Work(t));
    if s.threads[t].phase.Running? {
      var first := [s.threads[t].phase.task];
      assert Ahead(s, t) == first + Ahead(s', t);
      ConcatAssociative(s.executed, first, Ahead(s', t));
    } else {
      assert Ahead(s', t) == Ahead(s, t);
    }
  }

  lemma WorkCounts(s: State, t: ThreadId)
    requires Enabled(s, Work(t)) && Live(s.threads[t].phase) && s.pool.unfinished < USHORT
    ensures var s' := Next(s, Work(t));
            s'.pool.unfinished < USHORT && CountAfter(s', t) == CountAfter(s, t)
  {
    if s.threads[t].phase.Executed? {
      OneOff(s.pool.unfinished, |s.pool.tasks|);
    } else {
      assert Owed(Next(s, Work(t)), t) == Owed(s, t);
    }
  }

  lemma OneOff(count: nat, left: nat)
    requires count < USHORT
    ensures ((count + USHORT - 1) % USHORT - left) % USHORT == (count - (left + 1)) % USHORT
  {
  }

  /** Whatever it is doing, a worker that nobody asks to stop can run the whole queue by its own steps,
      front first, count each task off and go to wait. */
  lemma {:induction false} WorkerDrainsQueue(s: State, t: ThreadId) returns (works: seq<Action>)
    requires t < |s.threads| && Live(s.threads[t].phase)
    requires s.pool.running && s.pool.stopRequest != s.threads[t].index
    requires s.pool.unfinished < USHORT
    ensures OnlyWork(works, t) && IsRun(s, works)
    ensures var s' := After(s, works);
            && s'.pool.tasks == [] && t < |s'.threads| && s'.threads[t].phase.Waiting?
            && s'.executed == s.executed + Ahead(s, t)
            && s'.taken == s.taken + |s.pool.tasks| && s'.pool.unfinished == CountAfter(s, t)
    decreases |s.pool.tasks|,
              match s.threads[t].phase
              case Running(_) => 5
              case Executed(_) => 4
              case AtLoopTest => 3
              case AtStopTest => 2
              case AtQueue => 1
              case Waiting => if s.pool.tasks == [] then 0 else 4
              case _ => 0
  {
    works := [];
    if s.threads[t].phase.Waiting? && s.pool.tasks == [] {
      assert s.executed + Ahead(s, t) == s.executed;
    } else {
      WorkerStep(s, t);
      WorkAhead(s, t);
      WorkCounts(s, t);
      OneStep(s, Work(t));
      var s1 := Next(s, Work(t));
      hide Ahead, CountAfter;
      var rest := WorkerDrainsQueue(s1, t);
      hide Next, Enabled;
      RunConcat(s, [Work(t)], rest);
      works := [Work(t)] + rest;
    }
  }
}
