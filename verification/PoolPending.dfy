/** What `stop`, `start` and `pushThread` do while the request of a `popThread` that did not block may
    still be pending (src/stms/async.cpp:11-15, 63-181). */
module PoolPending {
  import opened PoolRegions
  import opened PoolRuns
  import opened PoolOwner
  import opened PoolPops
  import opened PoolRestarts

  /** Once the request has been taken, careful calls keep exactly the workers alive, as if the pop had
      blocked. */
  lemma {:induction false} TakenStaysCareful(s0: State, first: seq<Action>, actions: seq<Action>)
    requires CarefullyReached(s0) && s0.owner.Idle? && |s0.pool.workers| >= 2
    requires IsRun(s0, first) && OnePop(first, false) && After(s0, first).owner.Idle?
    requires var s := After(s0, first); s.pool.stopRequest == 0 && CarefulRun(s, actions) && IsRun(s, actions)
    ensures var s' := After(After(s0, first), actions);
            s'.owner.Idle? ==> s'.pool.stopRequest == 0 && LiveIsListed(s')
  {
    hide Next, Enabled, OnePop;
    var s := After(s0, first);
    ReachedKeepsInv(s0);
    PopRun(s0, first, false);
    TakenIsCareful(s, s0.pool.workers);
    CarefulRunKeepsInv(s, actions);
    hide CarefulInv;
    if After(s, actions).owner.Idle? {
      CarefulIsListed(After(s, actions));
    }
  }

  // ----- calls that give nobody the number of the popped worker -----

  /** Worker `t`, number `number`, has been asked to stop and is not listed. No other thread that is
      alive has its number, and while the pool is on all listed workers are alive. */
  ghost predicate AsideInv(s: State, t: ThreadId, number: nat) {
    && OwnerInv(s) && !s.owner.PopAsked? && !s.owner.PopJoining?
    && t < |s.threads| && t !in s.pool.workers && s.threads[t].index == number
    && s.pool.stopRequest in {0, number} && (s.threads[t].phase.Exited? || s.pool.stopRequest == number)
    && (forall u: ThreadId :: u < |s.threads| && u != t ==>
          s.threads[u].phase.Exited? || (Live(s.threads[u].phase) && s.threads[u].index != number))
    && (s.pool.running ==> FirstLive(s, |s.pool.workers|))
  }

  /** Neither a pop nor the start of a worker with that number. */
  predicate Avoids(s: State, a: Action, number: nat) {
    && !a.PopCall?
    && (a.Spawn? && s.owner.Spawning? ==> s.owner.made + 1 != number)
    && (a.PushSpawn? ==> |s.pool.workers| + 1 != number)
  }

  predicate AvoidingRun(s: State, actions: seq<Action>, number: nat)
    decreases |actions|
  {
    actions == [] ||
    (Enabled(s, actions[0]) && Avoids(s, actions[0], number) && AvoidingRun(Next(s, actions[0]), actions[1..], number))
  }

  lemma AsideWorks(s: State, t: ThreadId, number: nat, u: ThreadId)
    requires AsideInv(s, t, number) && Enabled(s, Work(u))
    ensures AsideInv(Next(s, Work(u)), t, number)
  {
    StepKeepsOwner(s, Work(u));
    WorkerStep(s, u);
    hide WorkNext;
  }

  lemma AsideSpawn(s: State, t: ThreadId, number: nat, a: Action)
    requires AsideInv(s, t, number) && Enabled(s, a) && Avoids(s, a, number) && (a.Spawn? || a.PushSpawn?)
    ensures AsideInv(Next(s, a), t, number)
  {
    StepKeepsOwner(s, a);
    var s' := Next(s, a);
    assert forall u: ThreadId :: u < |s.threads| ==> s'.threads[u] == s.threads[u];
  }

  lemma AsideCall(s: State, t: ThreadId, number: nat, a: Action)
    requires AsideInv(s, t, number) && Enabled(s, a) && Avoids(s, a, number)
    requires !a.Work? && !a.Spawn? && !a.PushSpawn?
    ensures AsideInv(Next(s, a), t, number)
  {
    StepKeepsOwner(s, a);
  }

  lemma {:induction false} AsideRun(s: State, t: ThreadId, number: nat, actions: seq<Action>)
    requires AsideInv(s, t, number) && AvoidingRun(s, actions, number)
    ensures IsRun(s, actions) && AsideInv(After(s, actions), t, number)
    decreases |actions|
  {
    hide AsideInv, Next, Enabled, Avoids;
    if actions != [] {
      var a := actions[0];
      if a.Work? {
        AsideWorks(s, t, number, a.t);
      } else if a.Spawn? || a.PushSpawn? {
        AsideSpawn(s, t, number, a);
      } else {
        AsideCall(s, t, number, a);
      }
      AsideRun(Next(s, a), t, number, actions[1..]);
    }
  }

  lemma AsideBegins(s: State, w: seq<ThreadId>)
    requires |w| >= 2 && PopInv(s, w, false) && s.owner.Idle?
    ensures AsideInv(s, w[|w| - 1], |w|)
  {
  }

  /** After a pop that did not block, and whether or not its request has been taken: any stops, starts
      and pushes, blocking or not, that start no worker of the same number end no listed worker while
      the pool is on, and do not lose the request. */
  lemma {:induction false} OtherNumbersSafe(s0: State, first: seq<Action>, actions: seq<Action>)
    requires CarefullyReached(s0) && s0.owner.Idle? && |s0.pool.workers| >= 2
    requires IsRun(s0, first) && OnePop(first, false) && After(s0, first).owner.Idle?
    requires AvoidingRun(After(s0, first), actions, |s0.pool.workers|)
    ensures IsRun(After(s0, first), actions)
    ensures var s' := After(After(s0, first), actions);
            StillAsked(s', LastWorker(s0)) && (s'.pool.running ==> FirstLive(s', |s'.pool.workers|))
  {
    hide Next, Enabled, OnePop, CarefulInv, PopInv;
    ReachedKeepsInv(s0);
    PopRun(s0, first, false);
    AsideBegins(After(s0, first), s0.pool.workers);
    AsideRun(After(s0, first), LastWorker(s0), |s0.pool.workers|, actions);
  }

  // ----- a restart with n workers -----

  predicate NoCall(actions: seq<Action>) {
    forall a | a in actions ::
      a.Count? || a.Enqueue? || a.Work? || a.Spawn? || a.StopTake? || a.StopJoin? || a.StopDone?
  }

  /** What precedes the call of `start`: a `stop(true)`, or no call at all, when `start` itself stops
      the pool. */
  predicate Precedes(before: seq<Action>, stopFirst: bool) {
    if stopFirst then
      exists i :: 0 <= i < |before| && before[i] == StopCall(true) && NoCall(before[..i]) && NoCall(before[i + 1..])
    else
      NoCall(before)
  }

  /** Under no schedule does a restart with `n` workers end one of them or lose the request of
      `earlier`. */
  ghost predicate RestartSafe(s: State, earlier: ThreadId, n: nat, stopFirst: bool) {
    forall before, after ::
      IsRun(s, before + [StartCall(n)] + after) && Precedes(before, stopFirst) && NoCall(after) ==>
        var s' := After(s, before + [StartCall(n)] + after);
        StillAsked(s', earlier) && (s'.pool.running ==> FirstLive(s', |s'.pool.workers|))
  }

  predicate RestartSteps(actions: seq<Action>, n: nat) {
    forall a | a in actions :: NoCall([a]) || a == StopCall(true) || a == StartCall(n)
  }

  lemma StepsOfRestart(before: seq<Action>, after: seq<Action>, n: nat, stopFirst: bool)
    requires Precedes(before, stopFirst) && NoCall(after)
    ensures RestartSteps(before + [StartCall(n)] + after, n)
  {
    var actions := before + [StartCall(n)] + after;
    forall a | a in actions ensures NoCall([a]) || a == StopCall(true) || a == StartCall(n) {
      if a in before && stopFirst {
        var i :| 0 <= i < |before| && before[i] == StopCall(true) && NoCall(before[..i]) && NoCall(before[i + 1..]);
        var k :| 0 <= k < |before| && before[k] == a;
        assert k < i ==> before[..i][k] == a;
        assert k > i ==> before[i + 1..][k - i - 1] == a;
      }
    }
  }

  /** The start in progress or to come is one of `n` workers. */
  predicate StartsOf(s: State, n: nat) {
    match s.owner
    case Idle => true
    case Spawning(left, made) => left + made == n
    case Stopping(_, thenStart) => thenStart in {0, n}
    case StopJoining(_, thenStart) => thenStart in {0, n}
    case _ => false
  }

  lemma {:induction false} FewWorkersAvoid(s: State, actions: seq<Action>, n: nat, number: nat)
    requires IsRun(s, actions) && RestartSteps(actions, n) && StartsOf(s, n) && n < number
    ensures AvoidingRun(s, actions, number)
    decreases |actions|
  {
    if actions != [] {
      var a := actions[0];
      assert a in actions && a in [a];
      assert StartsOf(Next(s, a), n) && Avoids(s, a, number);
      hide Next, Enabled;
      FewWorkersAvoid(Next(s, a), actions[1..], n, number);
    }
  }

  lemma {:induction false} RestartIsCareful(s: State, actions: seq<Action>, n: nat)
    requires IsRun(s, actions) && RestartSteps(actions, n)
    ensures CarefulRun(s, actions)
    decreases |actions|
  {
    hide Next, Enabled;
    if actions != [] {
      assert actions[0] in actions && actions[0] in [actions[0]];
      RestartIsCareful(Next(s, actions[0]), actions[1..], n);
    }
  }

  lemma {:induction false} RestartKeepsOwner(s: State, actions: seq<Action>, n: nat)
    requires IsRun(s, actions) && RestartSteps(actions, n) && StartsOf(s, n)
    ensures StartsOf(After(s, actions), n)
    decreases |actions|
  {
    if actions != [] {
      var a := actions[0];
      assert a in actions && a in [a];
      assert StartsOf(Next(s, a), n);
      hide Next, Enabled;
      RestartKeepsOwner(Next(s, a), actions[1..], n);
    }
  }

  lemma LiveWhileOn(s: State, n: nat)
    requires CarefulInv(s) && StartsOf(s, n) && s.pool.running
    ensures FirstLive(s, |s.pool.workers|)
  {
  }

  /** Nothing goes wrong with the request taken, or with too few workers for one to get its number. */
  lemma {:induction false} RestartGoesWell(s: State, w: seq<ThreadId>, n: nat, actions: seq<Action>)
    requires |w| >= 2 && PopInv(s, w, false) && s.owner.Idle?
    requires s.pool.stopRequest == 0 || n < |w|
    requires IsRun(s, actions) && RestartSteps(actions, n)
    ensures var s' := After(s, actions);
            StillAsked(s', w[|w| - 1]) && (s'.pool.running ==> FirstLive(s', |s'.pool.workers|))
  {
    hide Next, Enabled, PopInv, CarefulInv, RestartSteps;
    var t := w[|w| - 1];
    if s.pool.stopRequest == 0 {
      TakenIsCareful(s, w);
      RestartIsCareful(s, actions, n);
      CarefulRunKeepsInv(s, actions);
      RestartKeepsOwner(s, actions, n);
      ExitedStays(s, t, actions);
      var s' := After(s, actions);
      if s'.pool.running {
        LiveWhileOn(s', n);
      }
    } else {
      AsideBegins(s, w);
      FewWorkersAvoid(s, actions, n, |w|);
      AsideRun(s, t, |w|, actions);
    }
  }

  // ----- the restart that goes wrong -----

  /** A pool that is being stopped, and whose workers no request names, can join them all. */
  lemma {:induction false} JoinAll(s: State, thenStart: nat) returns (joins: seq<Action>)
    requires s.owner == Stopping(true, thenStart) && !s.pool.running
    requires var w := s.pool.workers;
             && (forall k :: 0 <= k < |w| ==>
                   w[k] < |s.threads| && Live(s.threads[w[k]].phase) && s.threads[w[k]].index != s.pool.stopRequest)
             && forall j, k :: 0 <= j < k < |w| ==> w[j] != w[k]
    ensures NoCall(joins) && IsRun(s, joins)
    ensures var s' := After(s, joins);
            && s'.owner == Stopping(true, thenStart) && !s'.pool.running && s'.pool.workers == []
            && s'.pool.stopRequest == s.pool.stopRequest
    decreases |s.pool.workers|
  {
    joins := [];
    if s.pool.workers != [] {
      var works, s1 := JoinOne(s, thenStart);
      var rest := JoinAll(s1, thenStart);
      hide Next, Enabled;
      RunConcat(s, works, rest);
      joins := works + rest;
    }
  }

  lemma {:induction false} JoinOne(s: State, thenStart: nat) returns (works: seq<Action>, s': State)
    requires s.owner == Stopping(true, thenStart) && !s.pool.running && s.pool.workers != []
    requires var t := s.pool.workers[0];
             t < |s.threads| && Live(s.threads[t].phase) && s.threads[t].index != s.pool.stopRequest
    ensures NoCall(works) && IsRun(s, works) && s' == After(s, works)
    ensures s'.owner == Stopping(true, thenStart) && !s'.pool.running && s'.pool.workers == s.pool.workers[1..]
    ensures s'.pool.stopRequest == s.pool.stopRequest && |s'.threads| == |s.threads|
    ensures forall u: ThreadId :: u < |s.threads| && u != s.pool.workers[0] ==> s'.threads[u] == s.threads[u]
  {
    var t := s.pool.workers[0];
    OneStep(s, StopTake);
    var s1 := Next(s, StopTake);
    works := LeavesByLoopTest(s1, t);
    RunConcat(s, [StopTake], works);
    works := [StopTake] + works;
    ThenStep(s, works, StopJoin);
    works := works + [StopJoin];
    s' := After(s, works);
  }

  lemma {:induction false} StopThenStart(s: State, w: seq<ThreadId>, n: nat)
      returns (before: seq<Action>, after: seq<Action>)
    requires |w| >= 2 && PopInv(s, w, false) && s.owner.Idle? && s.pool.stopRequest == |w| && n > 0
    ensures Precedes(before, true) && NoCall(after) && IsRun(s, before + [StartCall(n)] + after)
    ensures var s' := After(s, before + [StartCall(n)] + after);
            s'.owner == Spawning(n, 0) && s'.pool.running && s'.pool.workers == [] && s'.pool.stopRequest == |w|
  {
    OneStep(s, StopCall(true));
    var joins := JoinAll(Next(s, StopCall(true)), 0);
    RunConcat(s, [StopCall(true)], joins);
    before := [StopCall(true)] + joins;
    ThenStep(s, before, StopDone);
    before := before + [StopDone];
    ThenStep(s, before, StartCall(n));
    after := [];
    hide Next, Enabled, IsRun, PopInv;
    assert before + [StartCall(n)] + after == before + [StartCall(n)];
    assert before[0] == StopCall(true) && before[..0] == [] && before[0 + 1..] == joins + [StopDone];
    assert NoCall(before[0 + 1..]);
  }

  lemma {:induction false} StartAlone(s: State, w: seq<ThreadId>, n: nat)
      returns (before: seq<Action>, after: seq<Action>)
    requires |w| >= 2 && PopInv(s, w, false) && s.owner.Idle? && s.pool.stopRequest == |w| && n > 0
    ensures Precedes(before, false) && NoCall(after) && IsRun(s, before + [StartCall(n)] + after)
    ensures var s' := After(s, before + [StartCall(n)] + after);
            s'.owner == Spawning(n, 0) && s'.pool.running && s'.pool.workers == [] && s'.pool.stopRequest == |w|
  {
    OneStep(s, StartCall(n));
    var joins := JoinAll(Next(s, StartCall(n)), n);
    RunConcat(s, [StartCall(n)], joins);
    ThenStep(s, [StartCall(n)] + joins, StopDone);
    before, after := [], joins + [StopDone];
    assert before + [StartCall(n)] + after == [StartCall(n)] + joins + [StopDone];
  }

  /** A restart that comes to its first new worker with the request still there. */
  lemma {:induction false} RestartWithRequest(s: State, w: seq<ThreadId>, n: nat, stopFirst: bool)
      returns (before: seq<Action>, after: seq<Action>)
    requires |w| >= 2 && PopInv(s, w, false) && s.owner.Idle? && s.pool.stopRequest == |w| && n > 0
    ensures Precedes(before, stopFirst) && NoCall(after) && IsRun(s, before + [StartCall(n)] + after)
    ensures var s' := After(s, before + [StartCall(n)] + after);
            s'.owner == Spawning(n, 0) && s'.pool.running && s'.pool.workers == [] && s'.pool.stopRequest == |w|
  {
    hide Next, Enabled, PopInv;
    if stopFirst {
      before, after := StopThenStart(s, w, n);
    } else {
      before, after := StartAlone(s, w, n);
    }
  }

  /** The new worker with the requested number leaves at once. */
  lemma {:induction false} NewWorkerLeaves(s: State, n: nat) returns (works: seq<Action>)
    requires s.owner == Spawning(n, 0) && s.pool.running && s.pool.workers == [] && 0 < s.pool.stopRequest <= n
    ensures NoCall(works) && IsRun(s, works)
    ensures var s' := After(s, works);
            s'.pool.running && |s'.pool.workers| == n && HasExited(s', s'.pool.workers[s.pool.stopRequest - 1])
  {
    var spawns := SpawnAll(s);
    var s1, u := After(s, spawns), |s.threads| + s.pool.stopRequest - 1;
    assert s1.pool.workers == NewIds(|s.threads|, n) && s1.pool.workers[s.pool.stopRequest - 1] == u;
    assert s1.threads[u] == Thread(s.pool.stopRequest, AtLoopTest);
    var leaves := EndsIfAsked(s1, u);
    TasksKeepList(s1, leaves);
    RunConcat(s, spawns, leaves);
    works := spawns + leaves;
  }

  lemma {:induction false} RestartGoesWrong(s: State, w: seq<ThreadId>, n: nat, stopFirst: bool)
      returns (before: seq<Action>, after: seq<Action>)
    requires |w| >= 2 && PopInv(s, w, false) && s.owner.Idle? && s.pool.stopRequest == |w| <= n
    ensures Precedes(before, stopFirst) && NoCall(after) && IsRun(s, before + [StartCall(n)] + after)
    ensures var s' := After(s, before + [StartCall(n)] + after);
            s'.pool.running && !FirstLive(s', |s'.pool.workers|)
  {
    hide Next, Enabled, PopInv;
    before, after := RestartWithRequest(s, w, n, stopFirst);
    var s1 := After(s, before + [StartCall(n)] + after);
    var works := NewWorkerLeaves(s1, n);
    RunConcat(s, before + [StartCall(n)] + after, works);
    assert before + [StartCall(n)] + after + works == before + [StartCall(n)] + (after + works);
    after := after + works;
  }

  /** After a pop that did not block, a restart with `n` workers, by `start` alone or by `stop(true)` and
      `start`, is safe under every schedule exactly if the request has been taken or no new worker gets
      the number of the popped one. */
  lemma {:induction false} RestartSafeIfTakenOrFewer(s0: State, first: seq<Action>, n: nat, stopFirst: bool)
    requires CarefullyReached(s0) && s0.owner.Idle? && |s0.pool.workers| >= 2 && n > 0
    requires IsRun(s0, first) && OnePop(first, false) && After(s0, first).owner.Idle?
    ensures RestartSafe(After(s0, first), LastWorker(s0), n, stopFirst) <==>
            After(s0, first).pool.stopRequest == 0 || n < |s0.pool.workers|
  {
    hide Next, Enabled, OnePop, CarefulInv, PopInv, NoCall, Precedes, RestartSteps, FirstLive;
    var s, w := After(s0, first), s0.pool.workers;
    ReachedKeepsInv(s0);
    PopRun(s0, first, false);
    if s.pool.stopRequest == 0 || n < |w| {
      forall before, after |
          IsRun(s, before + [StartCall(n)] + after) && Precedes(before, stopFirst) && NoCall(after)
        ensures var s' := After(s, before + [StartCall(n)] + after);
                StillAsked(s', LastWorker(s0)) && (s'.pool.running ==> FirstLive(s', |s'.pool.workers|))
      {
        StepsOfRestart(before, after, n, stopFirst);
        RestartGoesWell(s, w, n, before + [StartCall(n)] + after);
      }
    } else {
      PendingIsNumber(s, w);
      var before, after := RestartGoesWrong(s, w, n, stopFirst);
    }
  }

  /** The request that the pop of an only worker can leave behind can also end the first worker of the
      next `start`, of whatever size. */
  lemma {:induction false} LeftoverEndsFirstWorker(s: State, block: bool, n: nat) returns (actions: seq<Action>)
    requires CarefullyReached(s) && s.owner.Idle? && |s.pool.workers| == 1 && n > 0
    ensures IsRun(s, actions)
    ensures var s' := After(s, actions);
            s'.pool.running && |s'.pool.workers| == n && HasExited(s', s'.pool.workers[0])
  {
    hide CarefullyReached;
    assert CarefulInv(s) by { ReachedKeepsInv(s); }
    actions := LastPopLeavesRequest(s, block);
    hide CarefulInv;
    var s1 := After(s, actions);
    ThenStep(s, actions, StartCall(n));
    actions := actions + [StartCall(n)];
    var works := NewWorkerLeaves(Next(s1, StartCall(n)), n);
    hide Next, Enabled;
    RunConcat(s, actions, works);
    actions := actions + works;
  }

  lemma PendingIsNumber(s: State, w: seq<ThreadId>)
    requires |w| >= 2 && PopInv(s, w, false) && s.pool.stopRequest != 0
    ensures s.pool.stopRequest == |w|
  {
  }
}
