/** What a `popThread`, blocking or not, ends (src/stms/async.cpp:11-15, 142-181), under every
    schedule of the workers and the submitters. */
module PoolPops {
  import opened PoolRegions
  import opened PoolRuns
  import opened PoolOwner

  predicate OnlyTasks(actions: seq<Action>) {
    forall a | a in actions :: a.Count? || a.Enqueue? || a.Work?
  }

  predicate NoOtherCall(actions: seq<Action>) {
    forall a | a in actions :: a.Count? || a.Enqueue? || a.Work? || a.PopRemove? || a.PopJoin?
  }

  /** A run with one owner call, a `popThread` that may not have returned yet. */
  ghost predicate OnePop(actions: seq<Action>, block: bool) {
    exists before, after ::
      actions == before + [PopCall(block)] + after && OnlyTasks(before) && NoOtherCall(after)
  }

  function LastWorker(s: State): ThreadId
    requires s.pool.workers != []
  {
    s.pool.workers[|s.pool.workers| - 1]
  }

  /** The pop that led from `s` to `s'` took away the last worker and no other. That worker has its
      request or has exited and cleared it; if the call blocked, it has exited. */
  ghost predicate PopKept(s: State, s': State, block: bool)
    requires s.pool.workers != []
  {
    && s'.pool.workers == s.pool.workers[..|s.pool.workers| - 1]
    && RequestPending(s', LastWorker(s))
    && (block ==> HasExited(s', LastWorker(s)) && s'.pool.stopRequest == 0)
    && FirstLive(s', |s'.pool.workers|)
  }

  /** No schedule breaks a pop started in `s` before the owner makes another call. */
  ghost predicate PopReliable(s: State, block: bool)
    requires s.pool.workers != []
  {
    forall actions :: IsRun(s, actions) && OnePop(actions, block) && After(s, actions).owner.Idle? ==>
      PopKept(s, After(s, actions), block)
  }

  // ----- popping one of several workers -----

  /** A pop of the last of the workers `w`, from its call on. */
  ghost predicate PopInv(s: State, w: seq<ThreadId>, block: bool)
    requires |w| >= 2
  {
    var n := |w| - 1;
    && OwnerInv(s)
    && (forall k :: 0 <= k <= n ==> w[k] < |s.threads| && s.threads[w[k]].index == k + 1)
    && (forall k :: 0 <= k < n ==> Live(s.threads[w[k]].phase))
    && (forall t: ThreadId :: t < |s.threads| && t !in w ==> s.threads[t].phase.Exited?)
    && RequestPending(s, w[n])
    && s.pool.running
    && match s.owner
       case PopAsked(b) => b == block && s.pool.workers == w
       case PopJoining(t) => block && s.pool.workers == w[..n] && t == w[n]
       case Idle => s.pool.workers == w[..n] && (block ==> HasExited(s, w[n]))
       case _ => false
  }

  lemma PopWorks(s: State, t: ThreadId, w: seq<ThreadId>, block: bool)
    requires |w| >= 2 && PopInv(s, w, block) && Enabled(s, Work(t))
    ensures PopInv(Next(s, Work(t)), w, block)
  {
    StepKeepsOwner(s, Work(t));
    WorkerStep(s, t);
    hide WorkNext;
    assert t in w;
  }

  lemma PopStep(s: State, a: Action, w: seq<ThreadId>, block: bool)
    requires |w| >= 2 && PopInv(s, w, block) && Enabled(s, a) && NoOtherCall([a])
    ensures PopInv(Next(s, a), w, block)
  {
    assert a in [a];
    if a.Work? {
      hide WorkNext;
      PopWorks(s, a.t, w, block);
    } else {
      StepKeepsOwner(s, a);
    }
  }

  lemma {:induction false} PopSteps(s: State, actions: seq<Action>, w: seq<ThreadId>, block: bool)
    requires |w| >= 2 && PopInv(s, w, block) && IsRun(s, actions) && NoOtherCall(actions)
    ensures PopInv(After(s, actions), w, block)
    decreases |actions|
  {
    hide Next, Enabled, PopInv;
    if actions != [] {
      assert NoOtherCall([actions[0]]) by { assert actions[0] in actions; }
      PopStep(s, actions[0], w, block);
      PopSteps(Next(s, actions[0]), actions[1..], w, block);
    }
  }

  lemma {:induction false} TasksRun(s: State, actions: seq<Action>)
    requires CarefulInv(s) && s.owner.Idle? && IsRun(s, actions) && OnlyTasks(actions)
    ensures var s' := After(s, actions);
            CarefulInv(s') && s'.owner.Idle? && s'.pool.workers == s.pool.workers
    decreases |actions|
  {
    hide CarefulInv, Enabled;
    if actions != [] {
      var a := actions[0];
      assert a in actions;
      CarefulStep(s, a);
      if a.Work? {
        WorkerStep(s, a.t) by { assert Enabled(s, a); }
        hide WorkNext;
      }
      TasksRun(Next(s, a), actions[1..]);
    }
  }

  lemma PopBegins(s: State, block: bool)
    requires CarefulInv(s) && s.owner.Idle? && |s.pool.workers| >= 2
    ensures Enabled(s, PopCall(block)) && PopInv(Next(s, PopCall(block)), s.pool.workers, block)
  {
    StepKeepsOwner(s, PopCall(block));
  }

  lemma {:induction false} PopRun(s: State, actions: seq<Action>, block: bool)
    requires CarefulInv(s) && s.owner.Idle? && |s.pool.workers| >= 2
    requires IsRun(s, actions) && OnePop(actions, block)
    ensures PopInv(After(s, actions), s.pool.workers, block)
  {
    hide Next, Enabled, CarefulInv, PopInv;
    var before, after :|
      actions == before + [PopCall(block)] + after && OnlyTasks(before) && NoOtherCall(after);
    RunSplit(s, before + [PopCall(block)], after);
    RunSplit(s, before, [PopCall(block)]);
    TasksRun(s, before);
    var s1 := After(s, before);
    PopBegins(s1, block);
    OneStep(s1, PopCall(block));
    PopSteps(Next(s1, PopCall(block)), after, s.pool.workers, block);
  }

  lemma PopInvKept(s: State, s': State, block: bool)
    requires |s.pool.workers| >= 2 && PopInv(s', s.pool.workers, block) && s'.owner.Idle?
    ensures PopKept(s, s', block)
  {
  }

  /** Whatever the schedule: a pop of one of several workers takes away that worker alone, and it is
      the only one that the request can end. */
  lemma {:induction false} PopOfManyKept(s: State, actions: seq<Action>, block: bool)
    requires CarefullyReached(s) && s.owner.Idle? && |s.pool.workers| >= 2
    requires IsRun(s, actions) && OnePop(actions, block) && After(s, actions).owner.Idle?
    ensures PopKept(s, After(s, actions), block)
  {
    hide PopInv, PopKept, OnePop;
    ReachedKeepsInv(s);
    PopRun(s, actions, block);
    PopInvKept(s, After(s, actions), block);
  }

  // ----- when a worker ends -----

  predicate OnlyWork(actions: seq<Action>, t: ThreadId) {
    forall a | a in actions :: a == Work(t)
  }

  /** A worker of a pool that has been switched off can leave by the loop test, past the request. */
  lemma {:induction false} LeavesByLoopTest(s: State, t: ThreadId) returns (works: seq<Action>)
    requires Enabled(s, Work(t)) && !s.pool.running
    requires Live(s.threads[t].phase)
    requires s.threads[t].phase.AtStopTest? ==> s.threads[t].index != s.pool.stopRequest
    ensures OnlyWork(works, t) && IsRun(s, works)
    ensures var s' := After(s, works);
            && HasExited(s', t) && s'.owner == s.owner && s'.pool.running == s.pool.running
            && s'.pool.workers == s.pool.workers && s'.pool.stopRequest == s.pool.stopRequest
            && |s'.threads| == |s.threads|
            && forall u: ThreadId :: u < |s.threads| && u != t ==> s'.threads[u] == s.threads[u]
    decreases match s.threads[t].phase
              case AtStopTest => 5
              case AtQueue => 4
              case Running(_) => 3
              case AtLoopTest => 1
              case _ => 2
  {
    WorkerStep(s, t);
    OneStep(s, Work(t));
    var s1 := Next(s, Work(t));
    works := [Work(t)];
    if !s1.threads[t].phase.Exited? {
      var rest := LeavesByLoopTest(s1, t);
      RunConcat(s, works, rest);
      works := works + rest;
    }
  }

  /** A worker that was asked to stop, or whose pool is off, can end by its own steps. */
  lemma {:induction false} EndsIfAsked(s: State, t: ThreadId) returns (works: seq<Action>)
    requires t < |s.threads| && Live(s.threads[t].phase)
    requires !s.pool.running || s.pool.stopRequest == s.threads[t].index
    ensures OnlyWork(works, t) && IsRun(s, works) && HasExited(After(s, works), t)
    decreases match s.threads[t].phase
              case AtQueue => 5
              case Running(_) => 4
              case AtLoopTest => 2
              case AtStopTest => if s.threads[t].index == s.pool.stopRequest then 1 else 6
              case _ => 3
  {
    WorkerStep(s, t);
    OneStep(s, Work(t));
    var s1 := Next(s, Work(t));
    works := [Work(t)];
    if s1.threads[t].phase.Leaving? {
      ThenStep(s, works, Work(t));
      works := works + [Work(t)];
    } else if !s1.threads[t].phase.Exited? {
      var rest := EndsIfAsked(s1, t);
      RunConcat(s, works, rest);
      works := works + rest;
    }
  }

  /** All through the run the pool is on and no request names worker `t`. */
  predicate NeverAsked(s: State, t: ThreadId, actions: seq<Action>)
    decreases |actions|
  {
    && t < |s.threads| && s.pool.running && s.pool.stopRequest != s.threads[t].index
    && (actions == [] || (Enabled(s, actions[0]) && NeverAsked(Next(s, actions[0]), t, actions[1..])))
  }

  lemma ThreadsStay(s: State, a: Action, t: ThreadId)
    requires Enabled(s, a) && t < |s.threads|
    ensures var s' := Next(s, a);
            && t < |s'.threads| && s'.threads[t].index == s.threads[t].index
            && (a != Work(t) ==> s'.threads[t] == s.threads[t])
  {
    if a.Work? {
      WorkerStep(s, a.t);
      hide WorkNext;
    }
  }

  /** Whatever the owner and the others do: a worker that no request names stays at work for as
      long as its pool is on. */
  lemma {:induction false} LiveUnlessAsked(s: State, t: ThreadId, actions: seq<Action>)
    requires NeverAsked(s, t, actions) && Live(s.threads[t].phase) && IsRun(s, actions)
    ensures t < |After(s, actions).threads| && Live(After(s, actions).threads[t].phase)
    decreases |actions|
  {
    hide Enabled, Next;
    if actions != [] {
      ThreadsStay(s, actions[0], t);
      if actions[0] == Work(t) {
        WorkerStep(s, t);
      }
      LiveUnlessAsked(Next(s, actions[0]), t, actions[1..]);
    }
  }

  // ----- popping the last worker -----

  /** The call of a pop of the only worker, at a moment when that worker is not about to see it. */
  lemma {:induction false} LastPopCall(s: State, block: bool) returns (before: seq<Action>, s2: State)
    requires CarefulInv(s) && s.owner.Idle? && |s.pool.workers| == 1
    ensures OnlyTasks(before) && IsRun(s, before + [PopCall(block)])
    ensures s2 == After(s, before + [PopCall(block)])
    ensures s2.owner == PopAsked(block) && s2.pool.workers == s.pool.workers && s2.pool.running
    ensures s2.pool.stopRequest == 1 && LastWorker(s) < |s2.threads| == |s.threads|
    ensures Live(s2.threads[LastWorker(s)].phase) && !s2.threads[LastWorker(s)].phase.AtStopTest?
  {
    var t := s.pool.workers[0];
    before := [];
    var s1 := s;
    if s.threads[t].phase.AtStopTest? {
      OneStep(s, Work(t));
      WorkerStep(s, t);
      before, s1 := [Work(t)], Next(s, Work(t));
    }
    assert IsRun(s, before) && After(s, before) == s1;
    ThenStep(s, before, PopCall(block));
    s2 := Next(s1, PopCall(block));
  }

  /** The removal of the only worker, which then leaves by the loop test. */
  lemma {:induction false} LastPopRemove(s: State, t: ThreadId) returns (after: seq<Action>, s': State)
    requires s.owner.PopAsked? && s.pool.workers == [t] && t < |s.threads|
    requires Live(s.threads[t].phase) && !s.threads[t].phase.AtStopTest?
    ensures NoOtherCall(after) && IsRun(s, after) && s' == After(s, after)
    ensures !s'.pool.running && s'.pool.workers == [] && s'.pool.stopRequest == s.pool.stopRequest
    ensures s'.owner == (if s.owner.block then PopJoining(t) else Idle)
    ensures HasExited(s', t) && |s'.threads| == |s.threads|
  {
    OneStep(s, PopRemove);
    var s3 := Next(s, PopRemove);
    var works := LeavesByLoopTest(s3, t);
    RunConcat(s, [PopRemove], works);
    after, s' := [PopRemove] + works, After(s3, works);
  }

  lemma {:induction false} LastPopReturn(s: State, t: ThreadId, after: seq<Action>) returns (after': seq<Action>)
    requires IsRun(s, after) && NoOtherCall(after)
    requires var s1 := After(s, after); HasExited(s1, t) && (s1.owner == PopJoining(t) || s1.owner.Idle?)
    ensures NoOtherCall(after') && IsRun(s, after')
    ensures After(s, after') == After(s, after).(owner := Idle)
  {
    after' := after;
    if After(s, after).owner.PopJoining? {
      ThenStep(s, after, PopJoin);
      after' := after + [PopJoin];
    }
  }

  lemma {:induction false} LastPopLeavesRequest(s: State, block: bool) returns (actions: seq<Action>)
    requires CarefulInv(s) && s.owner.Idle? && |s.pool.workers| == 1
    ensures IsRun(s, actions) && OnePop(actions, block)
    ensures var s' := After(s, actions);
            && s'.owner.Idle? && !s'.pool.running && s'.pool.workers == [] && s'.pool.stopRequest == 1
            && HasExited(s', LastWorker(s)) && |s'.threads| == |s.threads|
  {
    hide Next, Enabled, CarefulInv;
    var t := LastWorker(s);
    var before, s2 := LastPopCall(s, block);
    var after, s3 := LastPopRemove(s2, t);
    after := LastPopReturn(s2, t, after);
    RunConcat(s, before + [PopCall(block)], after);
    actions := before + [PopCall(block)] + after;
  }

  /** From every state a careful run leads to, some schedule of a pop of the only worker leaves the
      request behind, and no thread for it. */
  lemma {:induction false} LastPopCanLeaveRequest(s: State, block: bool) returns (actions: seq<Action>)
    requires CarefullyReached(s) && s.owner.Idle? && |s.pool.workers| == 1
    ensures IsRun(s, actions) && OnePop(actions, block)
    ensures var s' := After(s, actions);
            && s'.owner.Idle? && !s'.pool.running && s'.pool.workers == [] && s'.pool.stopRequest == 1
            && HasExited(s', LastWorker(s))
  {
    hide Next, Enabled, CarefulInv, OnePop;
    ReachedKeepsInv(s);
    actions := LastPopLeavesRequest(s, block);
  }

  /** Up to the owner's next call, a `popThread`, blocking or not, does what it promises under every
      schedule exactly if the worker it pops is not the last. */
  lemma {:induction false} PopReliableUnlessLast(s: State, block: bool)
    requires CarefullyReached(s) && s.owner.Idle? && s.pool.running
    ensures s.pool.workers != [] && (PopReliable(s, block) <==> |s.pool.workers| >= 2)
  {
    hide Next, Enabled, OnePop;
    assert s.pool.workers != [] by { ReachedKeepsInv(s); }
    hide CarefulInv, CarefullyReached;
    if |s.pool.workers| >= 2 {
      forall actions | IsRun(s, actions) && OnePop(actions, block) && After(s, actions).owner.Idle?
        ensures PopKept(s, After(s, actions), block)
      {
        PopOfManyKept(s, actions, block);
      }
    } else {
      var actions := LastPopCanLeaveRequest(s, block);
      assert !PopKept(s, After(s, actions), block);
    }
  }

  lemma {:induction false} PushOntoRequest(s: State) returns (actions: seq<Action>)
    requires s.owner.Idle? && !s.pool.running && s.pool.workers == [] && s.pool.stopRequest == 1
    ensures IsRun(s, actions)
    ensures var s' := After(s, actions);
            s'.owner.Idle? && s'.pool.running && s'.pool.workers == [|s.threads|] && HasExited(s', |s.threads|)
  {
    var t := |s.threads|;
    OneStep(s, PushCall);
    ThenStep(s, [PushCall], PushSpawn);
    actions := [PushCall] + [PushSpawn];
    ThenStep(s, actions, Work(t));
    actions := actions + [Work(t)];
    ThenStep(s, actions, Work(t));
    actions := actions + [Work(t)];
    ThenStep(s, actions, Work(t));
    actions := actions + [Work(t)];
  }

  /** The request that the pop of an only worker can leave behind ends the next worker, a thread
      that the pool has started since and goes on listing. */
  lemma {:induction false} LeftoverEndsNextWorker(s: State, block: bool) returns (actions: seq<Action>)
    requires CarefullyReached(s) && s.owner.Idle? && |s.pool.workers| == 1
    ensures IsRun(s, actions)
    ensures var s' := After(s, actions);
            s'.owner.Idle? && s'.pool.running && s'.pool.workers == [|s.threads|] && HasExited(s', |s.threads|)
  {
    hide Next, Enabled, CarefulInv, OnePop;
    ReachedKeepsInv(s);
    var pop := LastPopLeavesRequest(s, block);
    var push := PushOntoRequest(After(s, pop));
    RunConcat(s, pop, push);
    actions := pop + push;
  }

  // ----- a pop or a push while a request is pending -----

  /** `t` has exited or is leaving, or the request names it. */
  predicate StillAsked(s: State, t: ThreadId) {
    t < |s.threads| &&
    (s.threads[t].phase.Exited? || s.threads[t].phase.Leaving? || s.pool.stopRequest == s.threads[t].index)
  }

  /** Under no schedule does a pop started in `s` lose its own request or that of `earlier`. */
  ghost predicate PopSafe(s: State, earlier: ThreadId, block: bool)
    requires s.pool.workers != []
  {
    forall actions :: IsRun(s, actions) && OnePop(actions, block) ==>
      StillAsked(After(s, actions), earlier) && StillAsked(After(s, actions), LastWorker(s))
  }

  lemma TakenIsCareful(s: State, w: seq<ThreadId>)
    requires |w| >= 2 && PopInv(s, w, false) && s.owner.Idle?
    ensures s.pool.stopRequest == 0 <==> HasExited(s, w[|w| - 1])
    ensures s.pool.stopRequest == 0 ==> CarefulInv(s)
    ensures w[|w| - 1] !in s.pool.workers
  {
  }

  lemma {:induction false} TakenThenPop(s: State, earlier: ThreadId, actions: seq<Action>, block: bool)
    requires CarefulInv(s) && s.owner.Idle? && |s.pool.workers| >= 2
    requires earlier < |s.threads| && earlier !in s.pool.workers
    requires IsRun(s, actions) && OnePop(actions, block)
    ensures StillAsked(After(s, actions), earlier) && StillAsked(After(s, actions), LastWorker(s))
  {
    hide Next, Enabled, OnePop;
    PopRun(s, actions, block);
    ThreadsRemain(s, actions);
  }

  lemma {:induction false} ThreadsRemain(s: State, actions: seq<Action>)
    requires IsRun(s, actions)
    ensures |After(s, actions).threads| >= |s.threads|
    decreases |actions|
  {
    hide Enabled;
    if actions != [] {
      assert Enabled(s, actions[0]);
      if actions[0].Work? {
        WorkerStep(s, actions[0].t);
        hide WorkNext;
      }
      ThreadsRemain(Next(s, actions[0]), actions[1..]);
    }
  }

  /** With a request still pending, the next pop overwrites it, or the earlier worker, already on
      its way out, clears the new one. */
  lemma {:induction false} PendingThenPop(s: State, w: seq<ThreadId>, block: bool) returns (actions: seq<Action>)
    requires |w| >= 3 && PopInv(s, w, false) && s.owner.Idle? && s.pool.stopRequest != 0
    ensures IsRun(s, actions) && OnePop(actions, block) && s.pool.workers != []
    ensures !StillAsked(After(s, actions), w[|w| - 1]) || !StillAsked(After(s, actions), LastWorker(s))
  {
    var t := w[|w| - 1];
    OneStep(s, PopCall(block));
    var s1 := Next(s, PopCall(block));
    actions := [PopCall(block)];
    var works: seq<Action> := [];
    if s.threads[t].phase.Leaving? {
      ThenStep(s, actions, Work(t));
      WorkerStep(s1, t);
      works := [Work(t)];
    }
    actions := [] + [PopCall(block)] + works;
    assert OnlyTasks([]) && NoOtherCall(works);
  }

  /** After a pop that did not block, the next pop is safe for both workers, whatever the schedule,
      exactly if the first request has been taken; and that is when the first worker has exited. */
  lemma {:induction false} NextPopSafeIfTaken(s0: State, first: seq<Action>, block: bool)
    requires CarefullyReached(s0) && s0.owner.Idle? && |s0.pool.workers| >= 3
    requires IsRun(s0, first) && OnePop(first, false) && After(s0, first).owner.Idle?
    ensures var s := After(s0, first);
            && s.pool.workers != []
            && (PopSafe(s, LastWorker(s0), block) <==> s.pool.stopRequest == 0)
            && (s.pool.stopRequest == 0 <==> HasExited(s, LastWorker(s0)))
  {
    hide Next, Enabled, OnePop, OwnerInv, StillAsked;
    var s, w, t := After(s0, first), s0.pool.workers, LastWorker(s0);
    ReachedKeepsInv(s0);
    hide CarefullyReached, CarefulInv;
    PopRun(s0, first, false);
    TakenIsCareful(s, w);
    if s.pool.stopRequest == 0 {
      forall actions | IsRun(s, actions) && OnePop(actions, block)
        ensures StillAsked(After(s, actions), t) && StillAsked(After(s, actions), LastWorker(s))
      {
        TakenThenPop(s, t, actions, block);
      }
    } else {
      var actions := PendingThenPop(s, w, block);
    }
  }

  /** A pending request can always be taken: its worker gets there by its own steps. */
  lemma {:induction false} RequestCanBeTaken(s0: State, first: seq<Action>) returns (works: seq<Action>)
    requires CarefullyReached(s0) && s0.owner.Idle? && |s0.pool.workers| >= 2
    requires IsRun(s0, first) && OnePop(first, false) && After(s0, first).owner.Idle?
    ensures var s := After(s0, first);
            OnlyWork(works, LastWorker(s0)) && IsRun(s, works) && After(s, works).pool.stopRequest == 0
  {
    hide Next, Enabled, OnePop, CarefullyReached, CarefulInv;
    var s, w, t := After(s0, first), s0.pool.workers, LastWorker(s0);
    ReachedKeepsInv(s0);
    PopRun(s0, first, false);
    works := Taken(s, w);
  }

  lemma {:induction false} Taken(s: State, w: seq<ThreadId>) returns (works: seq<Action>)
    requires |w| >= 2 && PopInv(s, w, false) && s.owner.Idle?
    ensures OnlyWork(works, w[|w| - 1]) && IsRun(s, works) && After(s, works).pool.stopRequest == 0
  {
    var t := w[|w| - 1];
    if s.threads[t].phase.Exited? {
      works := [];
    } else if s.threads[t].phase.Leaving? {
      OneStep(s, Work(t));
      works := [Work(t)];
    } else {
      works := EndsIfAsked(s, t);
      hide Next, Enabled;
      PopSteps(s, works, w, false);
    }
  }

  /** Pops, blocking or not, each of which starts when the request of the one before has been taken
      and leaves a worker. */
  ghost predicate PopsInTurn(s: State, pops: seq<seq<Action>>)
    decreases |pops|
  {
    pops == [] ||
    (s.owner.Idle? && s.pool.stopRequest == 0 && |s.pool.workers| >= 2 && IsRun(s, pops[0]) &&
     (exists block :: OnePop(pops[0], block)) && PopsInTurn(After(s, pops[0]), pops[1..]))
  }

  function AfterAll(s: State, pops: seq<seq<Action>>): State
    requires PopsInTurn(s, pops)
    decreases |pops|
  {
    if pops == [] then s else AfterAll(After(s, pops[0]), pops[1..])
  }

  /** From `s` to `s'` the pool has come down to its first `left` workers. */
  ghost predicate CameDown(s: State, s': State, left: nat) {
    var w := s.pool.workers;
    && 1 <= left < |w| && s'.pool.workers == w[..left] && FirstLive(s', left)
    && RequestPending(s', w[left])
    && forall t: ThreadId :: t < |s.threads| && t !in w[..left + 1] ==> HasExited(s', t)
  }

  lemma CameDownOne(s: State, s': State, block: bool)
    requires |s.pool.workers| >= 2 && PopInv(s', s.pool.workers, block) && s'.owner.Idle?
    requires |s'.threads| >= |s.threads|
    ensures CameDown(s, s', |s.pool.workers| - 1)
  {
    var w := s.pool.workers;
    assert w[..|w|] == w;
  }

  lemma CameDownMore(s: State, s1: State, s': State, left: nat)
    requires CameDown(s1, s', left) && s1.pool.workers <= s.pool.workers && |s1.threads| >= |s.threads|
    ensures CameDown(s, s', left)
  {
    var w, w1 := s.pool.workers, s1.pool.workers;
    assert w1[..left] == w[..left] && w1[..left + 1] == w[..left + 1] && w1[left] == w[left];
  }

  lemma {:induction false} InTurn(s: State, pops: seq<seq<Action>>)
    requires CarefulInv(s) && s.owner.Idle? && PopsInTurn(s, pops) && pops != []
    requires AfterAll(s, pops).owner.Idle?
    ensures |s.pool.workers| > |pops| && CameDown(s, AfterAll(s, pops), |s.pool.workers| - |pops|)
    decreases |pops|
  {
    hide Next, Enabled, OnePop, CarefulInv, PopInv, CameDown;
    var block :| OnePop(pops[0], block);
    var w, s1 := s.pool.workers, After(s, pops[0]);
    PopRun(s, pops[0], block);
    ThreadsRemain(s, pops[0]);
    if |pops| == 1 {
      assert AfterAll(s, pops) == s1 by { assert pops[1..] == []; }
      CameDownOne(s, s1, block);
    } else {
      assert s1.owner.Idle? && s1.pool.stopRequest == 0;
      BlockingToo(s1, w, block);
      TakenIsCareful(s1, w);
      InTurn(s1, pops[1..]);
      CameDownMore(s, s1, AfterAll(s, pops), |w| - |pops|);
    }
  }

  lemma BlockingToo(s: State, w: seq<ThreadId>, block: bool)
    requires |w| >= 2 && PopInv(s, w, block) && s.owner.Idle?
    ensures PopInv(s, w, false) && s.pool.workers == w[..|w| - 1]
  {
  }

  /** Pops in turn take away exactly the last workers, and all but the very last of these have
      exited. */
  lemma {:induction false} PopsInTurnKept(s: State, pops: seq<seq<Action>>)
    requires CarefullyReached(s) && s.owner.Idle? && PopsInTurn(s, pops) && pops != []
    requires AfterAll(s, pops).owner.Idle?
    ensures |s.pool.workers| > |pops| && CameDown(s, AfterAll(s, pops), |s.pool.workers| - |pops|)
  {
    ReachedKeepsInv(s);
    InTurn(s, pops);
  }

  // ----- a worker whose request is gone -----

  /** A request, once set, stays or is cleared while the owner makes no call. */
  lemma {:induction false} TasksNeverAsk(s: State, t: ThreadId, request: nat, actions: seq<Action>)
    requires t < |s.threads| && s.threads[t].index !in {0, request}
    requires s.pool.running && s.pool.stopRequest in {0, request}
    requires IsRun(s, actions) && OnlyTasks(actions)
    ensures NeverAsked(s, t, actions)
    decreases |actions|
  {
    hide Enabled;
    if actions != [] {
      var a := actions[0];
      assert a in actions && Enabled(s, a);
      ThreadsStay(s, a, t);
      if a.Work? {
        WorkerStep(s, a.t);
        hide WorkNext;
      }
      TasksNeverAsk(Next(s, a), t, request, actions[1..]);
    }
  }

  /** Two pops that do not block, one right after the other. */
  const QUICK_POPS: seq<Action> := [PopCall(false), PopRemove, PopCall(false), PopRemove]

  lemma {:induction false} QuickPopsRun(s: State)
    requires CarefulInv(s) && s.owner.Idle? && |s.pool.workers| >= 3
    ensures IsRun(s, QUICK_POPS)
    ensures var s', n := After(s, QUICK_POPS), |s.pool.workers|;
            && s'.owner.Idle? && s'.pool.running && s'.pool.stopRequest == n - 1
            && s'.pool.workers == s.pool.workers[..n - 2] && s'.threads == s.threads
  {
    OneStep(s, PopCall(false));
    var actions := [PopCall(false)];
    ThenStep(s, actions, PopRemove);
    actions := actions + [PopRemove];
    ThenStep(s, actions, PopCall(false));
    actions := actions + [PopCall(false)];
    ThenStep(s, actions, PopRemove);
  }

  /** The second of them overwrites the request of the first: under no schedule does the worker that
      the first one took away ever exit, until the owner makes another call. */
  lemma {:induction false} QuickPopsLoseRequest(s: State, more: seq<Action>)
    requires CarefullyReached(s) && s.owner.Idle? && |s.pool.workers| >= 3
    ensures IsRun(s, QUICK_POPS)
    ensures IsRun(After(s, QUICK_POPS), more) && OnlyTasks(more) ==>
              var s' := After(After(s, QUICK_POPS), more);
              && LastWorker(s) !in s'.pool.workers && s'.pool.running
              && LastWorker(s) < |s'.threads| && Live(s'.threads[LastWorker(s)].phase)
  {
    hide CarefullyReached;
    assert CarefulInv(s) by { ReachedKeepsInv(s); }
    QuickPopsRun(s);
    var s1, n, t := After(s, QUICK_POPS), |s.pool.workers|, LastWorker(s);
    assert s1.threads[t].index == n && t !in s1.pool.workers;
    if IsRun(s1, more) && OnlyTasks(more) {
      hide Next, Enabled, CarefulInv;
      TasksNeverAsk(s1, t, n - 1, more);
      LiveUnlessAsked(s1, t, more);
      TasksKeepList(s1, more);
    }
  }

  lemma {:induction false} TasksKeepList(s: State, actions: seq<Action>)
    requires IsRun(s, actions) && OnlyTasks(actions)
    ensures var s' := After(s, actions); s'.pool.workers == s.pool.workers && s'.pool.running == s.pool.running
    decreases |actions|
  {
    hide Enabled;
    if actions != [] {
      assert actions[0] in actions && Enabled(s, actions[0]);
      if actions[0].Work? {
        WorkerStep(s, actions[0].t);
        hide WorkNext;
      }
      TasksKeepList(Next(s, actions[0]), actions[1..]);
    }
  }

  // ----- a push after a pop that did not block -----

  predicate PushSteps(actions: seq<Action>) {
    forall a | a in actions :: a.Count? || a.Enqueue? || a.Work? || a.PushCall? || a.PushSpawn?
  }

  /** Pushing threads from `s` on ends no listed worker and loses no request for `earlier`. */
  ghost predicate PushSafe(s: State, earlier: ThreadId) {
    forall actions :: IsRun(s, actions) && PushSteps(actions) ==>
      var s' := After(s, actions);
      StillAsked(s', earlier) && FirstLive(s', |s'.pool.workers|)
  }

  lemma {:induction false} PushesKeepInv(s: State, actions: seq<Action>)
    requires CarefulInv(s) && (s.owner.Idle? || s.owner.PushSpawning?) && IsRun(s, actions) && PushSteps(actions)
    ensures var s' := After(s, actions); CarefulInv(s') && (s'.owner.Idle? || s'.owner.PushSpawning?)
    decreases |actions|
  {
    hide CarefulInv, Enabled;
    if actions != [] {
      var a := actions[0];
      assert a in actions && Enabled(s, a);
      CarefulStep(s, a);
      if a.Work? {
        WorkerStep(s, a.t);
        hide WorkNext;
      }
      PushesKeepInv(Next(s, a), actions[1..]);
    }
  }

  lemma {:induction false} ExitedStays(s: State, t: ThreadId, actions: seq<Action>)
    requires HasExited(s, t) && IsRun(s, actions)
    ensures HasExited(After(s, actions), t)
    decreases |actions|
  {
    if actions != [] {
      ThreadsStay(s, actions[0], t);
      hide Next;
      ExitedStays(Next(s, actions[0]), t, actions[1..]);
    }
  }

  /** The pushed worker gets the number of the one that was asked to stop, and takes its request. */
  lemma {:induction false} PushTakesRequest(s: State, w: seq<ThreadId>) returns (actions: seq<Action>)
    requires |w| >= 2 && PopInv(s, w, false) && s.owner.Idle? && s.pool.stopRequest != 0
    ensures IsRun(s, actions) && PushSteps(actions)
    ensures var s' := After(s, actions); |s.threads| in s'.pool.workers && HasExited(s', |s.threads|)
  {
    var t, u := w[|w| - 1], |s.threads|;
    actions := [PushCall];
    OneStep(s, PushCall);
    ThenStep(s, actions, PushSpawn);
    actions := actions + [PushSpawn];
    assert After(s, actions).pool.workers[|s.pool.workers|] == u;
    ThenStep(s, actions, Work(u));
    actions := actions + [Work(u)];
    ThenStep(s, actions, Work(u));
    actions := actions + [Work(u)];
    ThenStep(s, actions, Work(u));
    actions := actions + [Work(u)];
    var s' := After(s, actions);
    assert s'.pool.workers[|s.pool.workers|] == u;
  }

  /** `pushThread` after a pop that did not block is safe exactly if that request has been taken. */
  lemma {:induction false} PushSafeIfTaken(s0: State, first: seq<Action>)
    requires CarefullyReached(s0) && s0.owner.Idle? && |s0.pool.workers| >= 2
    requires IsRun(s0, first) && OnePop(first, false) && After(s0, first).owner.Idle?
    ensures PushSafe(After(s0, first), LastWorker(s0)) <==> After(s0, first).pool.stopRequest == 0
  {
    hide Next, Enabled, OnePop, OwnerInv;
    var s, w, t := After(s0, first), s0.pool.workers, LastWorker(s0);
    assert PopInv(s, w, false) by {
      ReachedKeepsInv(s0);
      PopRun(s0, first, false);
    }
    hide CarefullyReached, CarefulInv, PopInv;
    TakenIsCareful(s, w);
    if s.pool.stopRequest == 0 {
      forall actions | IsRun(s, actions) && PushSteps(actions)
        ensures var s' := After(s, actions); StillAsked(s', t) && FirstLive(s', |s'.pool.workers|)
      {
        PushesKeepInv(s, actions);
        ExitedStays(s, t, actions);
        InvMeansLive(After(s, actions));
      }
    } else {
      var actions := PushTakesRequest(s, w);
      var s' := After(s, actions);
      assert !FirstLive(s', |s'.pool.workers|);
    }
  }

  lemma InvMeansLive(s: State)
    requires CarefulInv(s) && (s.owner.Idle? || s.owner.PushSpawning?)
    ensures FirstLive(s, |s.pool.workers|)
  {
  }
}
