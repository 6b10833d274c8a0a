/** What happens to what is submitted to a `ThreadPool`, in every run: tasks start in queue order, each runs
    at most once, none is lost, and the unsigned short that `waitIdle` watches counts them. */
module PoolTasks {
  import opened Basics
  import opened PoolRegions
  import opened PoolRuns

  predicate Holds(p: Phase) {
    p.Running? || p.Executed?
  }

  predicate HoldsTask(s: State, t: ThreadId) {
    t < |s.threads| && Holds(s.threads[t].phase)
  }

  function TaskOf(s: State, t: ThreadId): nat
    requires HoldsTask(s, t)
  {
    s.threads[t].phase.task
  }

  predicate IsRunning(s: State, k: nat) {
    exists t: ThreadId :: t < |s.threads| && s.threads[t].phase == Running(k)
  }

  ghost predicate NoDuplicates(ks: seq<nat>) {
    forall i, j :: 0 <= i < j < |ks| ==> ks[i] != ks[j]
  }

  /** Workers hold different tasks, all of them popped; one that still runs its task has not
      reported it, one that is done has. */
  ghost predicate HeldTasksInv(s: State) {
    && (forall t :: HeldTaskOk(s, t))
    && (forall t, u :: HoldsTask(s, t) && HoldsTask(s, u) && t != u ==> TaskOf(s, t) != TaskOf(s, u))
  }

  predicate HeldTaskOk(s: State, t: ThreadId) {
    HoldsTask(s, t) ==>
      TaskOf(s, t) < s.taken && (s.threads[t].phase.Executed? <==> TaskOf(s, t) in s.executed)
  }

  ghost predicate TaskInv(s: State) {
    && s.taken <= |s.enqueued|
    && s.pool.tasks == s.enqueued[s.taken..]
    && HeldTasksInv(s)
    && NoDuplicates(s.executed)
    && (forall k :: k in s.executed ==> k < s.taken)
    && (forall k: nat :: k < s.taken ==> k in s.executed || IsRunning(s, k))
  }

  function Holders(s: State): set<ThreadId> {
    set t: ThreadId | t < |s.threads| && Holds(s.threads[t].phase)
  }

  /** Tasks counted but not yet queued, queued, or popped but not yet counted off. */
  function Outstanding(s: State): nat {
    s.counting + |s.pool.tasks| + |Holders(s)|
  }

  ghost predicate CounterInv(s: State) {
    s.pool.unfinished == Outstanding(s) % USHORT
  }

  // ----- preservation -----

  lemma OutsideKeepsTasks(s: State, a: Action)
    requires TaskInv(s) && Enabled(s, a) && !a.Work?
    ensures TaskInv(Next(s, a))
  {
    var s' := Next(s, a);
    assert s'.pool.tasks == s'.enqueued[s'.taken..];
    assert s'.threads[..|s.threads|] == s.threads;
    assert forall t: ThreadId :: t < |s.threads| ==> s'.threads[t] == s.threads[t];
    assert forall t :: HoldsTask(s', t) <==> HoldsTask(s, t);
    forall t ensures HeldTaskOk(s', t) {
      assert HeldTaskOk(s, t);
    }
    forall k: nat | IsRunning(s, k) ensures IsRunning(s', k) {
      var t: ThreadId :| t < |s.threads| && s.threads[t].phase == Running(k);
      assert s'.threads[t].phase == Running(k);
    }
  }

  lemma RunningElsewhere(s: State, s': State, t: ThreadId, k: nat)
    requires t < |s.threads| == |s'.threads|
    requires forall u: ThreadId :: u < |s.threads| && u != t ==> s'.threads[u] == s.threads[u]
    requires s.threads[t].phase != Running(k)
    ensures IsRunning(s, k) ==> IsRunning(s', k)
  {
    if IsRunning(s, k) {
      var u: ThreadId :| u < |s.threads| && s.threads[u].phase == Running(k);
      assert s'.threads[u].phase == Running(k);
    }
  }

  lemma TakeKeepsTasks(s: State, t: ThreadId)
    requires TaskInv(s) && Enabled(s, Work(t)) && s.threads[t].phase.AtQueue?
    ensures TaskInv(Next(s, Work(t)))
  {
    var s' := Next(s, Work(t));
    if s.pool.tasks != [] {
      assert s'.threads[t].phase == Running(s.taken);
      assert IsRunning(s', s.taken);
    }
    forall k: nat | k < s.taken ensures IsRunning(s, k) ==> IsRunning(s', k) {
      RunningElsewhere(s, s', t, k);
    }
    forall u | HoldsTask(s, u) ensures TaskOf(s, u) < s.taken {
      assert HeldTaskOk(s, u);
    }
    assert forall u :: u != t ==> (HoldsTask(s', u) <==> HoldsTask(s, u));
    forall u ensures HeldTaskOk(s', u) {
      assert HeldTaskOk(s, u);
    }
  }

  lemma ExecuteKeepsTasks(s: State, t: ThreadId)
    requires TaskInv(s) && Enabled(s, Work(t)) && s.threads[t].phase.Running?
    ensures TaskInv(Next(s, Work(t)))
  {
    var s' := Next(s, Work(t));
    var done := TaskOf(s, t);
    assert HoldsTask(s, t) && HeldTaskOk(s, t);
    forall k: nat | k < s.taken && k != done ensures IsRunning(s, k) ==> IsRunning(s', k) {
      RunningElsewhere(s, s', t, k);
    }
    assert forall u :: HoldsTask(s', u) <==> HoldsTask(s, u);
    assert forall u :: HoldsTask(s, u) ==> TaskOf(s', u) == TaskOf(s, u);
    assert forall k :: k in s'.executed <==> k in s.executed || k == done;
    forall u ensures HeldTaskOk(s', u) {
      assert HeldTaskOk(s, u);
    }
  }

  lemma OtherWorkKeepsTasks(s: State, t: ThreadId)
    requires TaskInv(s) && Enabled(s, Work(t))
    requires !s.threads[t].phase.AtQueue? && !s.threads[t].phase.Running?
    ensures TaskInv(Next(s, Work(t)))
  {
    var s' := Next(s, Work(t));
    forall k: nat ensures IsRunning(s, k) ==> IsRunning(s', k) {
      RunningElsewhere(s, s', t, k);
    }
    assert forall u :: HoldsTask(s', u) <==> u != t && HoldsTask(s, u);
    forall u ensures HeldTaskOk(s', u) {
      assert HeldTaskOk(s, u);
    }
  }

  lemma StepKeepsTasks(s: State, a: Action)
    requires TaskInv(s) && Enabled(s, a)
    ensures TaskInv(Next(s, a))
  {
    hide TaskInv, Next;
    if !a.Work? {
      OutsideKeepsTasks(s, a);
    } else if s.threads[a.t].phase.AtQueue? {
      TakeKeepsTasks(s, a.t);
    } else if s.threads[a.t].phase.Running? {
      ExecuteKeepsTasks(s, a.t);
    } else {
      OtherWorkKeepsTasks(s, a.t);
    }
  }

  lemma HoldersAfterWork(s: State, t: ThreadId)
    requires Enabled(s, Work(t))
    ensures var s' := Next(s, Work(t));
            Holders(s') == if Holds(s'.threads[t].phase) then Holders(s) + {t} else Holders(s) - {t}
  {
    var s' := Next(s, Work(t));
    assert forall u: ThreadId :: u < |s.threads| && u != t ==> s'.threads[u] == s.threads[u];
  }

  lemma HoldersOutside(s: State, a: Action)
    requires Enabled(s, a) && !a.Work?
    ensures Holders(Next(s, a)) == Holders(s)
  {
    var s' := Next(s, a);
    assert forall u: ThreadId :: u < |s.threads| ==> s'.threads[u] == s.threads[u];
    assert forall u: ThreadId :: |s.threads| <= u < |s'.threads| ==> !Holds(s'.threads[u].phase);
  }

  lemma HolderCount(s: State, t: ThreadId)
    requires Enabled(s, Work(t))
    ensures var s' := Next(s, Work(t));
            |Holders(s')| + (if HoldsTask(s, t) then 1 else 0) ==
            |Holders(s)| + (if HoldsTask(s', t) then 1 else 0)
  {
    hide Holders, Next;
    var s' := Next(s, Work(t));
    HoldersAfterWork(s, t);
    InHolders(s, t);
    InHolders(s', t);
    var others := Holders(s) - {t};
    assert Holders(s) == if HoldsTask(s, t) then others + {t} else others;
    assert Holders(s') == if HoldsTask(s', t) then others + {t} else others;
  }

  lemma OutstandingAfterWork(s: State, t: ThreadId)
    requires Enabled(s, Work(t))
    ensures Outstanding(Next(s, Work(t))) == Outstanding(s) - if s.threads[t].phase.Executed? then 1 else 0
  {
    hide Holders;
    HolderCount(s, t);
  }

  lemma WorkKeepsCounter(s: State, t: ThreadId)
    requires CounterInv(s) && Enabled(s, Work(t))
    ensures CounterInv(Next(s, Work(t)))
  {
    hide Outstanding;
    OutstandingAfterWork(s, t);
  }

  lemma StepKeepsCounter(s: State, a: Action)
    requires CounterInv(s) && Enabled(s, a)
    ensures CounterInv(Next(s, a))
  {
    hide Holders;
    if a.Work? {
      WorkKeepsCounter(s, a.t);
    } else {
      HoldersOutside(s, a);
    }
  }

  lemma InHolders(s: State, t: ThreadId)
    ensures t in Holders(s) <==> HoldsTask(s, t)
  {
  }

  lemma {:induction false} RunKeepsInv(s: State, actions: seq<Action>)
    requires TaskInv(s) && CounterInv(s) && IsRun(s, actions)
    ensures TaskInv(After(s, actions)) && CounterInv(After(s, actions))
    decreases |actions|
  {
    hide TaskInv, CounterInv, Next, Enabled;
    if actions != [] {
      StepKeepsTasks(s, actions[0]);
      StepKeepsCounter(s, actions[0]);
      RunKeepsInv(Next(s, actions[0]), actions[1..]);
    }
  }

  lemma {:induction false} ReachableInv(s: State)
    requires Reachable(s)
    ensures TaskInv(s) && CounterInv(s)
  {
    assert Holders(START) == {};
    var actions :| IsRun(START, actions) && After(START, actions) == s;
    RunKeepsInv(START, actions);
  }

  // ----- what a user of the pool can rely on -----

  /** The tasks that a run queues, in that order. */
  function Queued(actions: seq<Action>): seq<Task> {
    if actions == [] then []
    else (if actions[0].Enqueue? then [actions[0].task] else []) + Queued(actions[1..])
  }

  /** How many tasks a run counts. */
  function Counted(actions: seq<Action>): nat {
    if actions == [] then 0 else (if actions[0].Count? then 1 else 0) + Counted(actions[1..])
  }

  lemma {:induction false} QueuedInOrder(s: State, actions: seq<Action>)
    requires IsRun(s, actions)
    ensures After(s, actions).enqueued == s.enqueued + Queued(actions)
    ensures After(s, actions).counting + |Queued(actions)| == s.counting + Counted(actions)
    decreases |actions|
  {
    if actions != [] {
      var s1 := Next(s, actions[0]);
      var first: seq<Task> := if actions[0].Enqueue? then [actions[0].task] else [];
      assert s1.enqueued == s.enqueued + first;
      assert s1.counting + |first| == s.counting + if actions[0].Count? then 1 else 0;
      hide Next, Enabled;
      QueuedInOrder(s1, actions[1..]);
      ConcatAssociative(s.enqueued, first, Queued(actions[1..]));
    }
  }

  /** In every run: what has been popped so far and the queue together are the tasks queued, in the
      order of queueing; so the next task to start is always the oldest. Those counted but not yet
      queued are the difference of the two numbers. */
  lemma {:induction false} StartedInOrder(actions: seq<Action>)
    requires IsRun(START, actions)
    ensures var s, queued := After(START, actions), Queued(actions);
            && s.taken <= |queued| && queued[..s.taken] + s.pool.tasks == queued
            && s.enqueued == queued && s.counting == Counted(actions) - |queued|
  {
    hide Next, Enabled, IsRun, After;
    QueuedInOrder(START, actions);
    assert [] + Queued(actions) == Queued(actions);
    OldestFirst(After(START, actions));
  }

  lemma {:induction false} OldestFirst(s: State)
    requires Reachable(s)
    ensures s.taken <= |s.enqueued| && s.enqueued[..s.taken] + s.pool.tasks == s.enqueued
  {
    ReachableInv(s);
    hide Reachable, HeldTasksInv, NoDuplicates, IsRunning;
  }

  /** No task runs twice; a popped task has run or is running on exactly one worker, which
      has not exited. */
  lemma {:induction false} EachRunsOnce(s: State, k: nat)
    requires Reachable(s) && k < s.taken
    ensures NoDuplicates(s.executed)
    ensures k in s.executed <==> !IsRunning(s, k)
    ensures forall t, u :: HoldsTask(s, t) && HoldsTask(s, u) && TaskOf(s, t) == k == TaskOf(s, u) ==> t == u
  {
    ReachableInv(s);
    if IsRunning(s, k) {
      var t: ThreadId :| t < |s.threads| && s.threads[t].phase == Running(k);
      assert HoldsTask(s, t) && HeldTaskOk(s, t);
    }
  }

  /** The counter is exact as long as fewer than 65536 tasks are outstanding, and a worker that
      counts off its task never finds it at zero. */
  lemma {:induction false} CounterExact(s: State)
    requires Reachable(s)
    ensures s.pool.unfinished == Outstanding(s) % USHORT
    ensures Outstanding(s) < USHORT <==> s.pool.unfinished == Outstanding(s)
    ensures forall t: ThreadId :: t < |s.threads| && s.threads[t].phase.Executed? && Outstanding(s) < USHORT ==>
              s.pool.unfinished > 0 && FinishTask(s.pool).unfinished == s.pool.unfinished - 1
  {
    ReachableInv(s);
    forall t: ThreadId | t < |s.threads| && s.threads[t].phase.Executed? ensures Outstanding(s) > 0 {
      assert t in Holders(s);
    }
  }

  lemma NoneRunning(s: State, k: nat)
    requires Holders(s) == {}
    ensures !IsRunning(s, k)
  {
    if IsRunning(s, k) {
      var t: ThreadId :| t < |s.threads| && s.threads[t].phase == Running(k);
      InHolders(s, t);
    }
  }

  /** Everything counted so far has been queued and has run. */
  ghost predicate AllDone(s: State) {
    s.counting == 0 && s.pool.tasks == [] && forall k: nat :: k < |s.enqueued| ==> k in s.executed
  }

  /** `waitIdle(0)` returns in a state whose counter is zero. There, all work is done; the other
      way, once every worker has counted off its task, finished work leaves the counter at zero. */
  lemma {:induction false} IdleMeansDone(s: State)
    requires Reachable(s) && Outstanding(s) < USHORT
    ensures s.pool.unfinished == 0 ==> AllDone(s)
    ensures AllDone(s) && Holders(s) == {} ==> s.pool.unfinished == 0
  {
    ReachableInv(s);
    NothingOutstanding(s);
  }

  lemma {:induction false} NothingOutstanding(s: State)
    requires TaskInv(s)
    ensures Outstanding(s) == 0 <==> AllDone(s) && Holders(s) == {}
  {
    if Outstanding(s) == 0 {
      assert |Holders(s)| == 0;
      forall k: nat | k < |s.enqueued| ensures k in s.executed {
        assert k < s.taken;
        NoneRunning(s, k);
      }
    }
  }

  predicate Multiple(n: nat) {
    n > 0 && n % USHORT == 0
  }

  /** The counter stands at zero with tasks outstanding exactly at the multiples of 65536, so only
      there can `waitIdle(0)` return before all work is done. */
  lemma {:induction false} IdleUnlessMultiple(s: State)
    requires Reachable(s)
    ensures s.pool.unfinished == 0 && Outstanding(s) > 0 <==> Multiple(Outstanding(s))
    ensures s.pool.unfinished == 0 && !AllDone(s) ==> Multiple(Outstanding(s))
  {
    ReachableInv(s);
    NothingOutstanding(s);
  }

  // ----- where the unsigned short gives out -----

  lemma {:induction false} OneSubmission(s: State) returns (s': State)
    ensures IsRun(s, [Count, Enqueue(0)]) && After(s, [Count, Enqueue(0)]) == s'
    ensures s'.counting == s.counting && |s'.pool.tasks| == |s.pool.tasks| + 1
    ensures s'.executed == s.executed && s'.threads == s.threads
  {
    var actions := [Count, Enqueue(0)];
    var s1 := Next(s, Count);
    s' := Next(s1, Enqueue(0));
    assert actions[1..] == [Enqueue(0)] && actions[1..][1..] == [];
    assert IsRun(s', []) && After(s', []) == s';
    assert IsRun(s1, actions[1..]) && After(s1, actions[1..]) == s';
  }

  /** `n` submissions to a pool that was never started. */
  lemma {:induction false} ManySubmissions(n: nat) returns (actions: seq<Action>)
    ensures IsRun(START, actions)
    ensures var s := After(START, actions);
            s.counting == 0 && |s.pool.tasks| == n && s.executed == [] && s.threads == []
  {
    hide Next, Enabled;
    if n == 0 {
      actions := [];
    } else {
      var before := ManySubmissions(n - 1);
      var s' := OneSubmission(After(START, before));
      RunConcat(START, before, [Count, Enqueue(0)]);
      actions := before + [Count, Enqueue(0)];
    }
  }

  /** At each such multiple the pool can look idle although nothing has run. */
  lemma {:induction false} FalseIdle(n: nat)
    requires Multiple(n)
    ensures exists s ::
      Reachable(s) && s.pool.unfinished == 0 && !AllDone(s) && Outstanding(s) == |s.pool.tasks| == n && s.executed == []
  {
    var actions := ManySubmissions(n);
    var s := After(START, actions);
    assert Reachable(s);
    assert Holders(s) == {};
    CounterExact(s);
  }
}
