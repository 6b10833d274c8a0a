/** Starting a `ThreadPool`, and restarting it after a `stop` that did not block
    (src/stms/async.cpp:63-117). */
module PoolRestarts {
  import opened PoolRegions
  import opened PoolRuns
  import opened PoolOwner

  /** The threads numbered from `made + 1` on that `start` creates in a row. */
  function NewThreads(made: nat, left: nat): seq<Thread> {
    seq(left, k requires 0 <= k < left => Thread(made + 1 + k, AtLoopTest))
  }

  function NewIds(first: ThreadId, left: nat): seq<ThreadId> {
    seq(left, k requires 0 <= k < left => first + k)
  }

  lemma {:induction false} SpawnAll(s: State) returns (spawns: seq<Action>)
    requires s.owner.Spawning? && s.owner.left > 0
    ensures CarefulRun(s, spawns) && IsRun(s, spawns) && forall a | a in spawns :: a.Spawn?
    ensures var s' := After(s, spawns);
            && s'.owner.Idle? && s'.pool.running == s.pool.running && s'.pool.stopRequest == s.pool.stopRequest
            && s'.pool.workers == s.pool.workers + NewIds(|s.threads|, s.owner.left)
            && s'.threads == s.threads + NewThreads(s.owner.made, s.owner.left)
    decreases s.owner.left
  {
    var s1 := Next(s, Spawn);
    var left, made := s.owner.left, s.owner.made;
    assert [|s.threads|] + NewIds(|s.threads| + 1, left - 1) == NewIds(|s.threads|, left);
    assert [Thread(made + 1, AtLoopTest)] + NewThreads(made + 1, left - 1) == NewThreads(made, left);
    var rest: seq<Action> := [];
    if left > 1 {
      rest := SpawnAll(s1);
    }
    spawns := [Spawn] + rest;
    assert spawns[1..] == rest;
  }

  /** A careful run leads to a running pool of any size. */
  lemma {:induction false} StartedPool(n: nat) returns (s: State)
    requires n > 0
    ensures CarefullyReached(s) && s.owner.Idle? && s.pool.running
    ensures s.pool.workers == NewIds(0, n) && s.threads == NewThreads(0, n)
  {
    var s1 := Next(START, StartCall(n));
    var spawns := SpawnAll(s1);
    var actions := [StartCall(n)] + spawns;
    assert actions[1..] == spawns;
    s := After(START, actions);
  }

  lemma {:induction false} TakeAll(s: State) returns (takes: seq<Action>)
    requires s.owner == Stopping(false, 0)
    ensures IsRun(s, takes)
    ensures After(s, takes) == s.(pool := s.pool.(workers := []))
    decreases |s.pool.workers|
  {
    if s.pool.workers == [] {
      takes := [];
    } else {
      var rest := TakeAll(Next(s, StopTake));
      takes := [StopTake] + rest;
      assert takes[1..] == rest;
    }
  }

  lemma {:induction false} StopWithoutJoin(s: State) returns (stops: seq<Action>)
    requires s.owner.Idle? && s.pool.running
    ensures IsRun(s, stops)
    ensures After(s, stops) == s.(pool := s.pool.(running := false, workers := []))
  {
    hide Next, Enabled;
    StopCallNext(s);
    OneStep(s, StopCall(false));
    var s1 := After(s, [StopCall(false)]);
    var takes := TakeAll(s1);
    RunConcat(s, [StopCall(false)], takes);
    stops := [StopCall(false)] + takes;
    StopDoneNext(After(s, stops));
    ThenStep(s, stops, StopDone);
    stops := stops + [StopDone];
  }

  lemma StopCallNext(s: State)
    requires s.owner.Idle? && s.pool.running
    ensures Enabled(s, StopCall(false))
    ensures Next(s, StopCall(false)) == s.(pool := s.pool.(running := false), owner := Stopping(false, 0))
  {
  }

  lemma StopDoneNext(s: State)
    requires s.owner == Stopping(false, 0) && s.pool.workers == []
    ensures Enabled(s, StopDone) && Next(s, StopDone) == s.(owner := Idle)
  {
  }

  /** After `stop(false)` and `start(n)`, workers that did not look at the flag in between go on
      beside the new ones: they are not listed, and each shares its number with a new worker. */
  lemma {:induction false} RestartKeepsDetached(s: State, n: nat) returns (actions: seq<Action>)
    requires CarefullyReached(s) && s.owner.Idle? && s.pool.running && n > 0
    ensures IsRun(s, actions)
    ensures var s', w := After(s, actions), s.pool.workers;
            && s'.owner.Idle? && s'.pool.running && s'.pool.workers == NewIds(|s.threads|, n)
            && s'.threads == s.threads + NewThreads(0, n)
            && forall k :: 0 <= k < |w| ==>
                 && w[k] < |s'.threads| && w[k] !in s'.pool.workers && Live(s'.threads[w[k]].phase)
                 && s'.threads[w[k]].index == k + 1
                 && (k < n ==> s'.threads[s'.pool.workers[k]].index == k + 1)
  {
    hide CarefullyReached;
    assert CarefulInv(s) by { ReachedKeepsInv(s); }
    hide Next, Enabled;
    var stops := StopWithoutJoin(s);
    var s1 := After(s, stops);
    var starts := StartAgain(s1, n);
    RunConcat(s, stops, starts);
    actions := stops + starts;
  }

  lemma {:induction false} StartAgain(s: State, n: nat) returns (starts: seq<Action>)
    requires s.owner.Idle? && !s.pool.running && n > 0
    ensures IsRun(s, starts)
    ensures var s' := After(s, starts);
            && s'.owner.Idle? && s'.pool.running && s'.pool.workers == s.pool.workers + NewIds(|s.threads|, n)
            && s'.threads == s.threads + NewThreads(0, n)
  {
    OneStep(s, StartCall(n));
    var s1 := Next(s, StartCall(n));
    var spawns := SpawnAll(s1);
    RunConcat(s, [StartCall(n)], spawns);
    starts := [StartCall(n)] + spawns;
  }

  // ----- when a restart after `stop(false)` is clean -----

  /** The steps of a `stop(false)` after its call, among those of the workers and submitters. */
  predicate StopSteps(actions: seq<Action>) {
    forall a | a in actions :: a.Count? || a.Enqueue? || a.Work? || a.StopTake? || a.StopDone?
  }

  /** The steps of pushes and of a `start` after its call, among those of the workers and submitters. */
  predicate StartSteps(actions: seq<Action>) {
    forall a | a in actions :: a.Count? || a.Enqueue? || a.Work? || a.Spawn? || a.PushCall? || a.PushSpawn?
  }

  /** `m` has come from `s` by a `stop(false)`. */
  ghost predicate DetachedInv(s: State, m: State) {
    && OwnerInv(m) && !m.pool.running && m.pool.stopRequest == 0
    && |m.threads| == |s.threads|
    && (forall t: ThreadId :: t < |m.threads| ==> !m.threads[t].phase.Leaving?)
    && (forall t: ThreadId :: t < |m.threads| && t !in s.pool.workers ==> m.threads[t].phase.Exited?)
    && (m.owner == Stopping(false, 0) || m.owner.Idle?)
  }

  lemma DetachStep(s: State, m: State, a: Action)
    requires DetachedInv(s, m) && Enabled(m, a) && StopSteps([a])
    ensures DetachedInv(s, Next(m, a))
  {
    assert a in [a];
    StepKeepsOwner(m, a);
    if a.Work? {
      WorkerStep(m, a.t);
      hide WorkNext;
    }
  }

  lemma {:induction false} DetachSteps(s: State, m: State, actions: seq<Action>)
    requires DetachedInv(s, m) && IsRun(m, actions) && StopSteps(actions)
    ensures DetachedInv(s, After(m, actions))
    decreases |actions|
  {
    hide DetachedInv, Next, Enabled;
    if actions != [] {
      assert StopSteps([actions[0]]) by { assert actions[0] in actions; }
      DetachStep(s, m, actions[0]);
      DetachSteps(s, Next(m, actions[0]), actions[1..]);
    }
  }

  lemma DetachBegins(s: State)
    requires CarefulInv(s) && s.owner.Idle? && s.pool.running
    ensures Enabled(s, StopCall(false)) && DetachedInv(s, Next(s, StopCall(false)))
  {
    StepKeepsOwner(s, StopCall(false));
  }

  lemma {:induction false} DetachRun(s: State, stops: seq<Action>)
    requires CarefulInv(s) && s.owner.Idle? && s.pool.running
    requires IsRun(s, [StopCall(false)] + stops) && StopSteps(stops)
    ensures DetachedInv(s, After(s, [StopCall(false)] + stops))
  {
    hide Next, Enabled, CarefulInv, DetachedInv;
    RunSplit(s, [StopCall(false)], stops);
    DetachBegins(s);
    OneStep(s, StopCall(false));
    DetachSteps(s, Next(s, StopCall(false)), stops);
  }

  /** `s` has come from the stopped pool `m` by starting and pushing threads. */
  ghost predicate RestartInv(m: State, s: State) {
    && OwnerInv(s) && s.pool.running && s.pool.stopRequest == 0
    && |s.threads| >= |m.threads|
    && s.pool.workers == NewIds(|m.threads|, |s.threads| - |m.threads|)
    && (forall t: ThreadId :: t < |s.threads| ==>
          (s.threads[t].phase.Exited? <==> HasExited(m, t)) && !s.threads[t].phase.Leaving?)
    && (s.owner.Idle? || s.owner.Spawning? || s.owner.PushSpawning?)
  }

  lemma RestartStep(m: State, s: State, a: Action)
    requires RestartInv(m, s) && Enabled(s, a) && StartSteps([a])
    ensures RestartInv(m, Next(s, a))
  {
    assert a in [a];
    StepKeepsOwner(s, a);
    if a.Work? {
      WorkerStep(s, a.t);
      hide WorkNext;
    } else if a.Spawn? || a.PushSpawn? {
      RestartSpawn(m, s, a);
    }
  }

  lemma RestartSpawn(m: State, s: State, a: Action)
    requires RestartInv(m, s) && Enabled(s, a) && (a.Spawn? || a.PushSpawn?)
    ensures RestartInv(m, Next(s, a))
  {
    StepKeepsOwner(s, a);
    var s', n := Next(s, a), |m.threads|;
    assert NewIds(n, |s.threads| - n) + [|s.threads|] == NewIds(n, |s'.threads| - n);
    assert forall t: ThreadId :: t < |s.threads| ==> s'.threads[t] == s.threads[t];
  }

  lemma {:induction false} RestartRun(m: State, s: State, actions: seq<Action>)
    requires RestartInv(m, s) && IsRun(s, actions) && StartSteps(actions)
    ensures RestartInv(m, After(s, actions))
    decreases |actions|
  {
    hide RestartInv, Next, Enabled;
    if actions != [] {
      assert StartSteps([actions[0]]) by { assert actions[0] in actions; }
      RestartStep(m, s, actions[0]);
      RestartRun(m, Next(s, actions[0]), actions[1..]);
    }
  }

  lemma RestartBegins(s: State, m: State, call: Action)
    requires DetachedInv(s, m) && m.owner.Idle? && Enabled(m, call) && (call.StartCall? || call.PushCall?)
    ensures RestartInv(m, Next(m, call))
  {
    StepKeepsOwner(m, call);
    assert NewIds(|m.threads|, 0) == [];
  }

  /** The threads that are at work in `s` are exactly its listed workers. */
  ghost predicate LiveIsListed(s: State) {
    forall t: ThreadId :: t < |s.threads| ==> (Live(s.threads[t].phase) <==> t in s.pool.workers)
  }

  /** `stop(false)`, then `start` or `pushThread`, under any schedule: from then on the threads at work
      are the new workers and those former ones that had not exited when the second call was made. So
      the restart is clean exactly if all of them had. */
  lemma {:induction false} RestartCleanIfExited(s: State, stops: seq<Action>, call: Action, starts: seq<Action>)
    requires CarefullyReached(s) && s.owner.Idle? && s.pool.running
    requires IsRun(s, [StopCall(false)] + stops) && StopSteps(stops)
    requires call.StartCall? || call.PushCall?
    requires var m := After(s, [StopCall(false)] + stops);
             m.owner.Idle? && IsRun(m, [call] + starts) && StartSteps(starts)
    ensures var m := After(s, [StopCall(false)] + stops);
            var s' := After(m, [call] + starts);
            && (forall t: ThreadId :: t < |s'.threads| ==>
                  (Live(s'.threads[t].phase) <==>
                   t in s'.pool.workers || (t in s.pool.workers && !HasExited(m, t))))
            && (forall t :: t in s.pool.workers ==> t < |m.threads| && t !in s'.pool.workers)
            && (LiveIsListed(s') <==> forall t :: t in s.pool.workers ==> HasExited(m, t))
  {
    hide Next, Enabled;
    var m := After(s, [StopCall(false)] + stops);
    ReachedKeepsInv(s);
    DetachRun(s, stops);
    RunSplit(m, [call], starts);
    assert Enabled(m, call) by { assert ([call] + starts)[0] == call; }
    RestartBegins(s, m, call);
    OneStep(m, call);
    RestartRun(m, Next(m, call), starts);
    LiveAfterRestart(s, m, After(m, [call] + starts));
  }

  lemma InNewIds(first: ThreadId, left: nat, t: ThreadId)
    ensures t in NewIds(first, left) <==> first <= t < first + left
  {
    if first <= t < first + left {
      assert NewIds(first, left)[t - first] == t;
    }
  }

  lemma LiveAfterRestart(s: State, m: State, s': State)
    requires DetachedInv(s, m) && RestartInv(m, s') && FirstLive(s, |s.pool.workers|)
    ensures forall t: ThreadId :: t < |s'.threads| ==>
              (Live(s'.threads[t].phase) <==>
               t in s'.pool.workers || (t in s.pool.workers && !HasExited(m, t)))
    ensures forall t :: t in s.pool.workers ==> t < |m.threads| && t !in s'.pool.workers
    ensures LiveIsListed(s') <==> forall t :: t in s.pool.workers ==> HasExited(m, t)
  {
    hide OwnerInv;
    forall t: ThreadId
      ensures t in s'.pool.workers <==> |m.threads| <= t < |s'.threads|
    {
      InNewIds(|m.threads|, |s'.threads| - |m.threads|, t);
    }
  }

  /** After a clean stop the pool is as good as any: careful calls keep exactly the workers alive. */
  lemma {:induction false} CleanStopStaysCareful(s: State, stops: seq<Action>, actions: seq<Action>)
    requires CarefullyReached(s) && s.owner.Idle? && s.pool.running
    requires IsRun(s, [StopCall(false)] + stops) && StopSteps(stops)
    requires var m := After(s, [StopCall(false)] + stops);
             && m.owner.Idle? && CarefulRun(m, actions) && IsRun(m, actions)
             && forall t :: t in s.pool.workers ==> HasExited(m, t)
    ensures var s' := After(After(s, [StopCall(false)] + stops), actions);
            s'.owner.Idle? ==> s'.pool.stopRequest == 0 && LiveIsListed(s')
  {
    hide Next, Enabled;
    var m := After(s, [StopCall(false)] + stops);
    ReachedKeepsInv(s);
    DetachRun(s, stops);
    assert CarefulInv(m);
    CarefulRunKeepsInv(m, actions);
    var s' := After(m, actions);
    if s'.owner.Idle? {
      CarefulIsListed(s');
    }
  }

  lemma CarefulIsListed(s: State)
    requires CarefulInv(s) && s.owner.Idle?
    ensures s.pool.stopRequest == 0 && LiveIsListed(s)
  {
    forall t: ThreadId | t < |s.threads| && t in s.pool.workers ensures Live(s.threads[t].phase) {
      var k :| 0 <= k < |s.pool.workers| && s.pool.workers[k] == t;
    }
  }
}
