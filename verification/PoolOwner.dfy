/** What the owner of a `ThreadPool` can rely on (src/stms/async.cpp:63-181): the list of workers
    between calls, and which workers are alive. */
module PoolOwner {
  import opened PoolRegions
  import opened PoolRuns

  /** The k-th worker, from zero, has index k + 1. */
  ghost predicate Numbered(s: State) {
    var w := s.pool.workers;
    forall k :: 0 <= k < |w| ==> w[k] < |s.threads| && s.threads[w[k]].index == k + 1
  }

  ghost predicate OwnerInv(s: State) {
    && (forall t: ThreadId :: t < |s.threads| ==> s.threads[t].index >= 1)
    && match s.owner
       case Idle => Numbered(s) && (s.pool.running <==> s.pool.workers != [])
       case Spawning(left, made) => Numbered(s) && s.pool.running && |s.pool.workers| == made && left > 0
       case PushSpawning => Numbered(s) && s.pool.running
       case PopAsked(_) => Numbered(s) && s.pool.running && s.pool.workers != []
       case PopJoining(t) => Numbered(s) && (s.pool.running <==> s.pool.workers != []) && t < |s.threads|
       case Stopping(_, _) => !s.pool.running
       case StopJoining(_, _) => !s.pool.running
  }

  /** All that a worker's step does to the pool, other than to its queue. */
  lemma WorkerStep(s: State, t: ThreadId)
    requires Enabled(s, Work(t))
    ensures var s' := Next(s, Work(t));
            && |s'.threads| == |s.threads| && s'.threads[t].index == s.threads[t].index
            && (forall u: ThreadId :: u < |s.threads| && u != t ==> s'.threads[u] == s.threads[u])
            && s'.pool.workers == s.pool.workers && s'.pool.running == s.pool.running && s'.owner == s.owner
            && s'.pool.stopRequest == (if s.threads[t].phase.Leaving? then 0 else s.pool.stopRequest)
            && (s'.threads[t].phase.Leaving? <==>
                s.threads[t].phase.AtStopTest? && s.threads[t].index == s.pool.stopRequest)
            && (s'.threads[t].phase.Exited? <==>
                s.threads[t].phase.Leaving? || (s.threads[t].phase.AtLoopTest? && !s.pool.running))
  {
  }

  lemma SpawnKeepsNumbers(s: State, a: Action)
    requires OwnerInv(s) && Enabled(s, a) && (a.Spawn? || a.PushSpawn?)
    ensures OwnerInv(Next(s, a))
  {
    var s' := Next(s, a);
    assert forall t: ThreadId :: t < |s.threads| ==> s'.threads[t] == s.threads[t];
  }

  lemma RestKeepsNumbers(s: State, a: Action)
    requires OwnerInv(s) && Enabled(s, a) && !a.Work? && !a.Spawn? && !a.PushSpawn?
    ensures OwnerInv(Next(s, a))
  {
  }

  lemma StepKeepsOwner(s: State, a: Action)
    requires OwnerInv(s) && Enabled(s, a)
    ensures OwnerInv(Next(s, a))
  {
    if a.Work? {
      hide WorkNext;
      WorkerStep(s, a.t);
    } else if a.Spawn? || a.PushSpawn? {
      SpawnKeepsNumbers(s, a);
    } else {
      RestKeepsNumbers(s, a);
    }
  }

  lemma {:induction false} RunKeepsOwner(s: State, actions: seq<Action>)
    requires OwnerInv(s) && IsRun(s, actions)
    ensures OwnerInv(After(s, actions))
    decreases |actions|
  {
    hide OwnerInv, Next, Enabled;
    if actions != [] {
      StepKeepsOwner(s, actions[0]);
      RunKeepsOwner(Next(s, actions[0]), actions[1..]);
    }
  }

  /** Between the calls of one owner, blocking or not: the pool runs exactly if it has workers, and
      they are numbered from 1. */
  lemma {:induction false} BetweenCalls(s: State)
    requires Reachable(s) && s.owner.Idle?
    ensures s.pool.running <==> s.pool.workers != []
    ensures Numbered(s)
  {
    var actions :| IsRun(START, actions) && After(START, actions) == s;
    RunKeepsOwner(START, actions);
  }

  /** A stopped pool ignores `stop` and `popThread`, and a run of them changes nothing. */
  lemma {:induction false} StoppedPoolIgnores(s: State, calls: seq<Action>)
    requires !s.pool.running && s.owner.Idle? && forall a | a in calls :: a.StopCall? || a.PopCall?
    ensures IsRun(s, calls) && After(s, calls) == s
    decreases |calls|
  {
    if calls != [] {
      assert calls[0] in calls;
      StoppedPoolIgnores(s, calls[1..]);
    }
  }

  // ----- blocking calls that never pop the last worker -----

  predicate Careful(s: State, a: Action) {
    && (a.PopCall? ==> a.block && (s.pool.running ==> |s.pool.workers| >= 2))
    && (a.StopCall? ==> a.block)
  }

  predicate CarefulRun(s: State, actions: seq<Action>)
    decreases |actions|
  {
    actions == [] ||
    (Enabled(s, actions[0]) && Careful(s, actions[0]) && CarefulRun(Next(s, actions[0]), actions[1..]))
  }

  lemma {:induction false} CarefulRunIsRun(s: State, actions: seq<Action>)
    requires CarefulRun(s, actions)
    ensures IsRun(s, actions)
    decreases |actions|
  {
    hide Next, Enabled, Careful;
    if actions != [] {
      CarefulRunIsRun(Next(s, actions[0]), actions[1..]);
    }
  }

  /** Some careful run leads to `s`. */
  ghost predicate CarefullyReached(s: State) {
    exists actions :: CarefulRun(START, actions) && IsRun(START, actions) && After(START, actions) == s
  }

  predicate Live(p: Phase) {
    !p.Exited? && !p.Leaving?
  }

  predicate Joined(s: State, t: ThreadId) {
    (s.owner.PopJoining? || s.owner.StopJoining?) && s.owner.t == t
  }

  /** The worker that was asked to stop still has its request pending, or has left and cleared it. */
  predicate RequestPending(s: State, t: ThreadId) {
    t < |s.threads| && s.pool.stopRequest == if s.threads[t].phase.Exited? then 0 else s.threads[t].index
  }

  /** The first `n` workers are at work. */
  ghost predicate FirstLive(s: State, n: nat)
    requires n <= |s.pool.workers|
  {
    var w := s.pool.workers;
    forall k :: 0 <= k < n ==> w[k] < |s.threads| && Live(s.threads[w[k]].phase)
  }

  ghost predicate CarefulInv(s: State) {
    && OwnerInv(s)
    && (forall t: ThreadId :: t < |s.threads| && t !in s.pool.workers && !Joined(s, t) ==> s.threads[t].phase.Exited?)
    && match s.owner
       case PopAsked(block) =>
         var n := |s.pool.workers| - 1;
         block && n >= 1 && FirstLive(s, n) && RequestPending(s, s.pool.workers[n])
       case PopJoining(t) =>
         && s.pool.workers != [] && FirstLive(s, |s.pool.workers|)
         && RequestPending(s, t) && s.threads[t].index == |s.pool.workers| + 1
       case Stopping(block, _) => block && NobodyLeaving(s) && s.pool.stopRequest == 0
       case StopJoining(t, _) => NobodyLeaving(s) && s.pool.stopRequest == 0
       case _ => FirstLive(s, |s.pool.workers|) && s.pool.stopRequest == 0
  }

  ghost predicate NobodyLeaving(s: State) {
    forall t: ThreadId :: t < |s.threads| ==> !s.threads[t].phase.Leaving?
  }

  lemma WorkAmongLive(s: State, t: ThreadId)
    requires CarefulInv(s) && Enabled(s, Work(t))
    requires s.owner.Idle? || s.owner.Spawning? || s.owner.PushSpawning?
    ensures CarefulInv(Next(s, Work(t)))
  {
    StepKeepsOwner(s, Work(t));
    WorkerStep(s, t);
    hide WorkNext;
    var s' := Next(s, Work(t));
    var i :| 0 <= i < |s.pool.workers| && s.pool.workers[i] == t;
  }

  lemma WorkWhileAsked(s: State, t: ThreadId)
    requires CarefulInv(s) && Enabled(s, Work(t)) && s.owner.PopAsked?
    ensures CarefulInv(Next(s, Work(t)))
  {
    StepKeepsOwner(s, Work(t));
    WorkerStep(s, t);
    hide WorkNext;
    var s' := Next(s, Work(t));
    var n := |s.pool.workers| - 1;
  }

  lemma WorkWhileJoining(s: State, t: ThreadId)
    requires CarefulInv(s) && Enabled(s, Work(t)) && s.owner.PopJoining?
    ensures CarefulInv(Next(s, Work(t)))
  {
    StepKeepsOwner(s, Work(t));
    WorkerStep(s, t);
    hide WorkNext;
    var s' := Next(s, Work(t));
  }

  lemma WorkWhileStopping(s: State, t: ThreadId)
    requires CarefulInv(s) && Enabled(s, Work(t)) && (s.owner.Stopping? || s.owner.StopJoining?)
    ensures CarefulInv(Next(s, Work(t)))
  {
    StepKeepsOwner(s, Work(t));
    WorkerStep(s, t);
    hide WorkNext;
  }

  lemma CarefulCall(s: State, a: Action)
    requires CarefulInv(s) && Enabled(s, a) && Careful(s, a)
    requires a.Count? || a.Enqueue? || a.StartCall? || a.PushCall? || a.PopCall? || a.StopCall?
    ensures CarefulInv(Next(s, a))
  {
    StepKeepsOwner(s, a);
  }

  lemma CarefulSpawn(s: State, a: Action)
    requires CarefulInv(s) && Enabled(s, a) && (a.Spawn? || a.PushSpawn?)
    ensures CarefulInv(Next(s, a))
  {
    StepKeepsOwner(s, a);
    var s' := Next(s, a);
    assert forall t: ThreadId :: t < |s.threads| ==> s'.threads[t] == s.threads[t];
  }

  lemma CarefulPopRemove(s: State)
    requires CarefulInv(s) && Enabled(s, PopRemove)
    ensures CarefulInv(Next(s, PopRemove))
  {
    StepKeepsOwner(s, PopRemove);
    var w := s.pool.workers;
    assert w == w[..|w| - 1] + [w[|w| - 1]];
  }

  lemma CarefulStopTake(s: State)
    requires CarefulInv(s) && Enabled(s, StopTake)
    ensures CarefulInv(Next(s, StopTake))
  {
    StepKeepsOwner(s, StopTake);
    assert s.pool.workers == [s.pool.workers[0]] + s.pool.workers[1..];
  }

  lemma CarefulReturn(s: State, a: Action)
    requires CarefulInv(s) && Enabled(s, a) && (a.PopJoin? || a.StopJoin? || a.StopDone?)
    ensures CarefulInv(Next(s, a))
  {
    StepKeepsOwner(s, a);
  }

  lemma CarefulStep(s: State, a: Action)
    requires CarefulInv(s) && Enabled(s, a) && Careful(s, a)
    ensures CarefulInv(Next(s, a))
  {
    hide Next, WorkNext;
    match a
    case Work(t) =>
      match s.owner {
        case PopAsked(_) => WorkWhileAsked(s, t);
        case PopJoining(_) => WorkWhileJoining(s, t);
        case Stopping(_, _) => WorkWhileStopping(s, t);
        case StopJoining(_, _) => WorkWhileStopping(s, t);
        case _ => WorkAmongLive(s, t);
      }
    case Spawn => CarefulSpawn(s, a);
    case PushSpawn => CarefulSpawn(s, a);
    case PopRemove => CarefulPopRemove(s);
    case StopTake => CarefulStopTake(s);
    case PopJoin => CarefulReturn(s, a);
    case StopJoin => CarefulReturn(s, a);
    case StopDone => CarefulReturn(s, a);
    case _ => CarefulCall(s, a);
  }

  lemma {:induction false} CarefulRunKeepsInv(s: State, actions: seq<Action>)
    requires CarefulInv(s) && CarefulRun(s, actions) && IsRun(s, actions)
    ensures CarefulInv(After(s, actions))
    decreases |actions|
  {
    hide Next, Enabled, Careful, CarefulInv;
    if actions != [] {
      CarefulStep(s, actions[0]);
      CarefulRunKeepsInv(Next(s, actions[0]), actions[1..]);
    }
  }

  lemma {:induction false} ReachedKeepsInv(s: State)
    requires CarefullyReached(s)
    ensures CarefulInv(s)
  {
    var actions :| CarefulRun(START, actions) && IsRun(START, actions) && After(START, actions) == s;
    CarefulRunKeepsInv(START, actions);
  }

  /** With blocking calls that never pop the last worker: between calls no request is left over,
      and the threads that have not exited are exactly the listed workers. */
  lemma {:induction false} CarefulOwner(actions: seq<Action>)
    requires CarefulRun(START, actions)
    ensures IsRun(START, actions)
    ensures var s := After(START, actions);
            s.owner.Idle? ==>
              && s.pool.stopRequest == 0
              && forall t: ThreadId :: t < |s.threads| ==> (t in s.pool.workers <==> !s.threads[t].phase.Exited?)
  {
    CarefulRunIsRun(START, actions);
    CarefulRunKeepsInv(START, actions);
  }
}
