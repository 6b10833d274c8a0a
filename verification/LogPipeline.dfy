/** The asynchronous log pipeline (src/stms/logging.cpp:96-186) as a transition system.

    Any number of threads log and any of them may be a pool worker. A mutex region is one step;
    between two regions every thread may be interrupted. A pool may queue a submitted task for
    some worker or, like `InstaPool`, run it at once on the submitting thread: both are steps of
    the same system, so the pool may even be exchanged in mid-run. Hooks may log. */
module LogPipeline {

  import opened Basics

  datatype LogRecord = LogRecord(level: nat, file: string, line: nat, msg: string)

  type Tid = nat

  // ----- the two regions guarded by logQMtx -----

  datatype LogQueue = LogQueue(records: seq<LogRecord>, consuming: bool)

  /** `insertImpl` under the lock; the flag tells whether the caller must submit `consumeLogs`. */
  function InsertRegion(q: LogQueue, rec: LogRecord): (LogQueue, bool) {
    (LogQueue(q.records + [rec], true), !q.consuming)
  }

  /** `consumeLogs` under the lock; nothing is returned when the queue was empty. */
  function ConsumeRegion(q: LogQueue): (LogQueue, Option<LogRecord>) {
    if q.records != [] then
      (LogQueue(q.records[1..], q.consuming), Some(q.records[0]))
    else
      (LogQueue([], false), None)
  }

  // ----- threads, pool and history -----

  /** What an unfinished call on a thread's stack will do next. */
  datatype Frame =
    | Submitting                             // about to submit `consumeLogs`
    | Entering                               // in `consumeLogs`, about to lock
    | Hooking(rec: LogRecord, done: nat)     // `done` hooks have seen `rec`

  type HookCall = (LogRecord, nat)

  datatype State = State(
    q: LogQueue,
    stacks: map<Tid, seq<Frame>>,
    pending: nat,               // `consumeLogs` tasks queued in a pool
    inserted: seq<LogRecord>,   // all records, in the order of their lock regions
    hooked: seq<LogRecord>,     // records that all hooks have seen
    dropped: seq<HookCall>,     // hook calls that threw, each giving up its record
    calls: seq<HookCall>)       // all hook calls

  function Stack(s: State, t: Tid): seq<Frame> {
    if t in s.stacks then s.stacks[t] else []
  }

  function Push(s: State, t: Tid, f: Frame): State {
    s.(stacks := s.stacks[t := Stack(s, t) + [f]])
  }

  function Pop(s: State, t: Tid): State
    requires Stack(s, t) != []
  {
    s.(stacks := s.stacks[t := Stack(s, t)[..|Stack(s, t)| - 1]])
  }

  function Top(s: State, t: Tid): Frame
    requires Stack(s, t) != []
  {
    Stack(s, t)[|Stack(s, t)| - 1]
  }

  datatype Action =
    | Insert(t: Tid, rec: LogRecord)
    | Submit(t: Tid, inline: bool)
    | Take(t: Tid)              // an idle worker takes a queued task
    | Lock(t: Tid)
    | CallHook(t: Tid)
    | HookThrows(t: Tid)
    | HooksDone(t: Tid)

  predicate Enabled(s: State, a: Action, hooks: nat) {
    match a
    case Insert(t, rec) => true
    case Submit(t, inline) => Stack(s, t) != [] && Top(s, t).Submitting?
    case Take(t) => s.pending > 0 && Stack(s, t) == []
    case Lock(t) => Stack(s, t) != [] && Top(s, t).Entering?
    case CallHook(t) => Stack(s, t) != [] && Top(s, t).Hooking? && Top(s, t).done < hooks
    case HookThrows(t) => Stack(s, t) != [] && Top(s, t).Hooking? && Top(s, t).done < hooks
    case HooksDone(t) => Stack(s, t) != [] && Top(s, t).Hooking? && Top(s, t).done >= hooks
  }

  /** A submit is the last thing both callers do to the pipeline, so an inline run takes the place
      of the frame that submits it; starting a stopped pool afterwards changes nothing here. */
  function Next(s: State, a: Action, hooks: nat): State
    requires Enabled(s, a, hooks)
  {
    match a
    case Insert(t, rec) =>
      var (q, submit) := InsertRegion(s.q, rec);
      var s' := s.(q := q, inserted := s.inserted + [rec]);
      if submit then Push(s', t, Submitting) else s'
    case Submit(t, inline) =>
      if inline then Push(Pop(s, t), t, Entering) else Pop(s, t).(pending := s.pending + 1)
    case Take(t) => Push(s, t, Entering).(pending := s.pending - 1)
    case Lock(t) =>
      var (q, top) := ConsumeRegion(s.q);
      var s' := Pop(s, t).(q := q);
      if top.Some? then Push(s', t, Hooking(top.value, 0)) else s'
    case CallHook(t) =>
      var Hooking(rec, done) := Top(s, t);
      Push(Pop(s, t), t, Hooking(rec, done + 1)).(calls := s.calls + [(rec, done)])
    case HookThrows(t) =>
      var Hooking(rec, done) := Top(s, t);
      Pop(s, t).(calls := s.calls + [(rec, done)], dropped := s.dropped + [(rec, done)])
    case HooksDone(t) =>
      Push(Pop(s, t), t, Submitting).(hooked := s.hooked + [Top(s, t).rec])
  }

  const START := State(LogQueue([], false), map[], 0, [], [], [], [])

  predicate IsRun(s: State, actions: seq<Action>, hooks: nat)
    decreases |actions|
  {
    actions == [] ||
    (Enabled(s, actions[0], hooks) && IsRun(Next(s, actions[0], hooks), actions[1..], hooks))
  }

  function After(s: State, actions: seq<Action>, hooks: nat): State
    requires IsRun(s, actions, hooks)
    decreases |actions|
  {
    if actions == [] then s else After(Next(s, actions[0], hooks), actions[1..], hooks)
  }

  ghost predicate Reachable(s: State, hooks: nat) {
    exists actions :: IsRun(START, actions, hooks) && After(START, actions, hooks) == s
  }

  // ----- the invariant -----

  /** Where the one duty to consume is: nowhere, queued in a pool, on a thread's stack,
      or lost with a hook that threw. */
  datatype Duty = NoDuty | Queued | Held(t: Tid) | Lost

  /** The calls of hooks 0, 1, ... on one record. */
  function CallsOn(rec: LogRecord, n: nat): seq<HookCall> {
    seq(n, k requires k >= 0 => (rec, k))
  }

  /** All hook calls of a purely sequential logger. */
  function CallsFor(records: seq<LogRecord>, hooks: nat): seq<HookCall> {
    if records == [] then [] else CallsFor(records[..|records| - 1], hooks) + CallsOn(records[|records| - 1], hooks)
  }

  /** The record between queue and `hooked`, if any, and the hook calls already made on it. */
  function InHand(s: State, d: Duty): (seq<LogRecord>, seq<HookCall>) {
    if d.Held? && Stack(s, d.t) != [] && Top(s, d.t).Hooking? then
      ([Top(s, d.t).rec], CallsOn(Top(s, d.t).rec, Top(s, d.t).done))
    else if s.dropped != [] then
      ([s.dropped[0].0], CallsOn(s.dropped[0].0, s.dropped[0].1 + 1))
    else
      ([], [])
  }

  ghost predicate InvFor(s: State, d: Duty, hooks: nat) {
    && (s.q.consuming <==> d != NoDuty)
    && s.pending == (if d == Queued then 1 else 0)
    && (forall t :: |Stack(s, t)| == if d == Held(t) then 1 else 0)
    && |s.dropped| == (if d == Lost then 1 else 0)
    && (d == NoDuty ==> s.q.records == [])
    && s.hooked + InHand(s, d).0 + s.q.records == s.inserted
    && s.calls == CallsFor(s.hooked, hooks) + InHand(s, d).1
    && (d.Held? && Top(s, d.t).Hooking? ==> Top(s, d.t).done <= hooks)
    && (d == Lost ==> s.dropped[0].1 < hooks)
  }

  ghost predicate Inv(s: State, hooks: nat) {
    exists d :: InvFor(s, d, hooks)
  }

  function NextDuty(s: State, d: Duty, a: Action): Duty {
    match a
    case Insert(t, rec) => if s.q.consuming then d else Held(t)
    case Submit(t, inline) => if inline then Held(t) else Queued
    case Take(t) => Held(t)
    case Lock(t) => if s.q.records != [] then Held(t) else NoDuty
    case CallHook(t) => Held(t)
    case HookThrows(t) => Lost
    case HooksDone(t) => Held(t)
  }

  lemma CallsOnNext(rec: LogRecord, n: nat)
    ensures CallsOn(rec, n) + [(rec, n)] == CallsOn(rec, n + 1)
    ensures CallsOn(rec, 0) == []
  {
  }

  lemma CallsForNext(records: seq<LogRecord>, rec: LogRecord, hooks: nat)
    ensures CallsFor(records + [rec], hooks) == CallsFor(records, hooks) + CallsOn(rec, hooks)
  {
    assert (records + [rec])[..|records|] == records;
  }

  lemma QueueStepKeepsInv(s: State, d: Duty, a: Action, hooks: nat)
    requires InvFor(s, d, hooks) && Enabled(s, a, hooks) && (a.Insert? || a.Lock?)
    ensures InvFor(Next(s, a, hooks), NextDuty(s, d, a), hooks)
  {
    hide CallsFor;
    if a.Lock? && s.q.records != [] {
      CallsOnNext(s.q.records[0], 0);
    }
  }

  lemma PoolStepKeepsInv(s: State, d: Duty, a: Action, hooks: nat)
    requires InvFor(s, d, hooks) && Enabled(s, a, hooks) && (a.Submit? || a.Take?)
    ensures InvFor(Next(s, a, hooks), NextDuty(s, d, a), hooks)
  {
    hide CallsFor, CallsOn;
  }

  lemma HookStepKeepsInv(s: State, d: Duty, a: Action, hooks: nat)
    requires InvFor(s, d, hooks) && Enabled(s, a, hooks) && (a.CallHook? || a.HookThrows?)
    ensures InvFor(Next(s, a, hooks), NextDuty(s, d, a), hooks)
  {
    hide CallsFor, CallsOn;
    CallsOnNext(Top(s, a.t).rec, Top(s, a.t).done);
  }

  lemma DoneStepKeepsInv(s: State, d: Duty, a: Action, hooks: nat)
    requires InvFor(s, d, hooks) && Enabled(s, a, hooks) && a.HooksDone?
    ensures InvFor(Next(s, a, hooks), NextDuty(s, d, a), hooks)
  {
    hide CallsFor, CallsOn;
    CallsForNext(s.hooked, Top(s, a.t).rec, hooks);
  }

  lemma StepKeepsInv(s: State, d: Duty, a: Action, hooks: nat)
    requires InvFor(s, d, hooks) && Enabled(s, a, hooks)
    ensures InvFor(Next(s, a, hooks), NextDuty(s, d, a), hooks)
  {
    hide InvFor, Next, NextDuty;
    match a
    case Insert(_, _) => QueueStepKeepsInv(s, d, a, hooks);
    case Lock(_) => QueueStepKeepsInv(s, d, a, hooks);
    case Submit(_, _) => PoolStepKeepsInv(s, d, a, hooks);
    case Take(_) => PoolStepKeepsInv(s, d, a, hooks);
    case CallHook(_) => HookStepKeepsInv(s, d, a, hooks);
    case HookThrows(_) => HookStepKeepsInv(s, d, a, hooks);
    case HooksDone(_) => DoneStepKeepsInv(s, d, a, hooks);
  }

  lemma {:induction false} RunKeepsInv(s: State, actions: seq<Action>, hooks: nat)
    requires Inv(s, hooks) && IsRun(s, actions, hooks)
    ensures Inv(After(s, actions, hooks), hooks)
    decreases |actions|
  {
    if actions != [] {
      var d :| InvFor(s, d, hooks);
      StepKeepsInv(s, d, actions[0], hooks);
      RunKeepsInv(Next(s, actions[0], hooks), actions[1..], hooks);
    }
  }

  lemma ReachableInv(s: State, hooks: nat) returns (d: Duty)
    requires Reachable(s, hooks)
    ensures InvFor(s, d, hooks)
  {
    assert InvFor(START, NoDuty, hooks);
    var actions :| IsRun(START, actions, hooks) && After(START, actions, hooks) == s;
    RunKeepsInv(START, actions, hooks);
    d :| InvFor(s, d, hooks);
  }

  // ----- safety, in every reachable state -----

  /** Every call in progress, as thread and depth. */
  function Frames(s: State): set<(Tid, nat)> {
    set t, k: nat | t in s.stacks && k < |Stack(s, t)| :: (t, k)
  }

  /** How many consumers there are: queued, about to be submitted, or running. */
  function Consumers(s: State): nat {
    s.pending + |Frames(s)|
  }

  /** The flag stands for exactly one consumer, unless a hook threw: then the flag stays set
      with no consumer at all. */
  lemma OneConsumer(s: State, hooks: nat)
    requires Reachable(s, hooks)
    ensures Consumers(s) == if s.q.consuming && s.dropped == [] then 1 else 0
    ensures s.dropped != [] ==> s.q.consuming
  {
    var d := ReachableInv(s, hooks);
    if d.Held? {
      assert |Stack(s, d.t)| == 1;
      assert Frames(s) == {(d.t, 0)};
    } else {
      assert forall t :: |Stack(s, t)| == 0;
      assert Frames(s) == {};
    }
  }

  /** No two threads are ever inside the hooks, and no thread is twice. */
  lemma OneRecordAtATime(s: State, hooks: nat, t: Tid, i: nat, u: Tid, j: nat)
    requires Reachable(s, hooks)
    requires i < |Stack(s, t)| && Stack(s, t)[i].Hooking?
    requires j < |Stack(s, u)| && Stack(s, u)[j].Hooking?
    ensures t == u && i == j
  {
    var d := ReachableInv(s, hooks);
    assert |Stack(s, t)| == |Stack(s, u)| == 1;
  }

  lemma {:induction false} CallsForPrefix(records: seq<LogRecord>, more: seq<LogRecord>, hooks: nat)
    ensures CallsFor(records, hooks) <= CallsFor(records + more, hooks)
    decreases |more|
  {
    if more == [] {
      assert records + more == records;
    } else {
      var rest := more[..|more| - 1];
      CallsForPrefix(records, rest, hooks);
      assert (records + more)[..|records + more| - 1] == records + rest;
    }
  }

  lemma CallsOnPrefix(rec: LogRecord, m: nat, n: nat)
    requires m <= n
    ensures CallsOn(rec, m) <= CallsOn(rec, n)
  {
  }

  lemma {:induction false} CallsArePrefix(s: State, hooks: nat)
    requires Reachable(s, hooks)
    ensures s.calls <= CallsFor(s.inserted, hooks)
  {
    var d := ReachableInv(s, hooks);
    hide CallsFor, CallsOn;
    var (mid, made) := InHand(s, d);
    CallsForPrefix(s.hooked + mid, s.q.records, hooks);
    if mid == [] {
      assert s.hooked + mid == s.hooked && s.calls + [] == s.calls;
    } else {
      CallsForNext(s.hooked, mid[0], hooks);
      var n := if d.Held? && Top(s, d.t).Hooking? then Top(s, d.t).done else s.dropped[0].1 + 1;
      CallsOnPrefix(mid[0], n, hooks);
    }
  }

  lemma BooksBalance(s: State, hooks: nat) returns (mid: seq<LogRecord>)
    requires Reachable(s, hooks)
    ensures s.hooked + mid + s.q.records == s.inserted
    ensures |mid| <= 1
    ensures mid != [] && s.dropped == [] ==>
              exists t :: |Stack(s, t)| == 1 && Stack(s, t)[0].Hooking? && Stack(s, t)[0].rec == mid[0]
    ensures s.dropped != [] ==> mid == [s.dropped[0].0]
  {
    var d := ReachableInv(s, hooks);
    mid := InHand(s, d).0;
    if d.Held? {
      assert |Stack(s, d.t)| == 1 && Stack(s, d.t)[0] == Top(s, d.t);
    }
  }

  lemma FlagDownMeansComplete(s: State, hooks: nat)
    requires Reachable(s, hooks) && !s.q.consuming
    ensures s.q.records == [] && s.hooked == s.inserted && s.calls == CallsFor(s.inserted, hooks)
  {
    var d := ReachableInv(s, hooks);
    assert s.hooked + [] + [] == s.hooked;
  }

  // ----- what that says about the calls a run makes -----

  /** The records that a run inserts, in the order of its inserts. */
  function Inserts(actions: seq<Action>): seq<LogRecord> {
    if actions == [] then []
    else (if actions[0].Insert? then [actions[0].rec] else []) + Inserts(actions[1..])
  }

  lemma {:induction false} InsertedInOrder(s: State, actions: seq<Action>, hooks: nat)
    requires IsRun(s, actions, hooks)
    ensures After(s, actions, hooks).inserted == s.inserted + Inserts(actions)
    decreases |actions|
  {
    if actions != [] {
      var s1 := Next(s, actions[0], hooks);
      var first: seq<LogRecord> := if actions[0].Insert? then [actions[0].rec] else [];
      assert s1.inserted == s.inserted + first;
      hide Next, Enabled;
      InsertedInOrder(s1, actions[1..], hooks);
      ConcatAssociative(s.inserted, first, Inserts(actions[1..]));
    }
  }

  lemma {:induction false} InsertedFromStart(actions: seq<Action>, hooks: nat)
    requires IsRun(START, actions, hooks)
    ensures Reachable(After(START, actions, hooks), hooks)
    ensures After(START, actions, hooks).inserted == Inserts(actions)
  {
    InsertedInOrder(START, actions, hooks);
    assert [] + Inserts(actions) == Inserts(actions);
  }

  /** In every run the hook calls are a prefix of those that a sequential logger makes on the records
      of its inserts. */
  lemma {:induction false} CallsInOrder(actions: seq<Action>, hooks: nat)
    requires IsRun(START, actions, hooks)
    ensures After(START, actions, hooks).calls <= CallsFor(Inserts(actions), hooks)
  {
    InsertedFromStart(actions, hooks);
    CallsArePrefix(After(START, actions, hooks), hooks);
  }

  /** In every run no inserted record is lost, duplicated or reordered: at most one is between the queue
      and `hooked`, and only while a hook runs on it or after one threw. */
  lemma {:induction false} NothingLost(actions: seq<Action>, hooks: nat) returns (mid: seq<LogRecord>)
    requires IsRun(START, actions, hooks)
    ensures var s := After(START, actions, hooks);
            && s.hooked + mid + s.q.records == Inserts(actions)
            && |mid| <= 1
            && (mid != [] && s.dropped == [] ==>
                  exists t :: |Stack(s, t)| == 1 && Stack(s, t)[0].Hooking? && Stack(s, t)[0].rec == mid[0])
            && (s.dropped != [] ==> mid == [s.dropped[0].0])
  {
    InsertedFromStart(actions, hooks);
    mid := BooksBalance(After(START, actions, hooks), hooks);
  }

  /** When a run has come to the flag being down, every hook has seen every record it inserted. */
  lemma {:induction false} FlagDownMeansAllHooked(actions: seq<Action>, hooks: nat)
    requires IsRun(START, actions, hooks) && !After(START, actions, hooks).q.consuming
    ensures var s := After(START, actions, hooks);
            s.q.records == [] && s.hooked == Inserts(actions) && s.calls == CallsFor(Inserts(actions), hooks)
  {
    InsertedFromStart(actions, hooks);
    FlagDownMeansComplete(After(START, actions, hooks), hooks);
  }

  /** Call number i * hooks + j of a sequential logger is that of hook j on record i. */
  lemma {:induction false} CallsForAt(records: seq<LogRecord>, hooks: nat, i: nat, j: nat)
    requires i < |records| && j < hooks
    ensures |CallsFor(records, hooks)| == |records| * hooks && i * hooks + j < |records| * hooks
    ensures CallsFor(records, hooks)[i * hooks + j] == (records[i], j)
  {
    var n := |records| - 1;
    CallsForLength(records, hooks);
    CallsForLength(records[..n], hooks);
    assert (n + 1) * hooks == n * hooks + hooks;
    if i < n {
      CallsForAt(records[..n], hooks, i, j);
    }
  }

  lemma {:induction false} CallsForLength(records: seq<LogRecord>, hooks: nat)
    ensures |CallsFor(records, hooks)| == |records| * hooks
  {
    if records != [] {
      var n := |records| - 1;
      CallsForLength(records[..n], hooks);
      assert (n + 1) * hooks == n * hooks + hooks;
    }
  }

  // ----- the drain -----

  predicate IsDrain(actions: seq<Action>) {
    forall a | a in actions :: !a.Insert? && !a.HookThrows?
  }

  /** Runs of `consumeLogs`, each of which enters its lock region once. */
  function ConsumerRuns(actions: seq<Action>): nat {
    if actions == [] then 0 else (if actions[0].Lock? then 1 else 0) + ConsumerRuns(actions[1..])
  }

  /** Steps left before the pipeline is at rest, at most. */
  function StepsLeft(s: State, d: Duty, hooks: nat): nat {
    match d
    case Held(t) =>
      if Stack(s, t) == [] then 0
      else
        (hooks + 4) * |s.q.records| +
        (match Top(s, t)
         case Entering => 1
         case Submitting => 3
         case Hooking(_, done) => if done <= hooks then hooks - done + 4 else 0)
    case Queued => (hooks + 4) * |s.q.records| + 2
    case _ => 0
  }

  lemma DrainStep(s: State, d: Duty, a: Action, hooks: nat)
    requires InvFor(s, d, hooks) && Enabled(s, a, hooks) && IsDrain([a])
    ensures var s' := Next(s, a, hooks);
            && StepsLeft(s', NextDuty(s, d, a), hooks) < StepsLeft(s, d, hooks)
            && s'.inserted == s.inserted && s'.dropped == s.dropped
            && (if a.Lock? then 1 else 0) + |s'.q.records| + (if s'.q.consuming then 1 else 0) ==
               |s.q.records| + (if s.q.consuming then 1 else 0)
  {
    hide CallsFor, CallsOn;
    assert a in [a];
    if a.Lock? && s.q.records != [] {
      assert (hooks + 4) * |s.q.records| == (hooks + 4) * (|s.q.records| - 1) + hooks + 4;
    }
  }

  lemma {:induction false} DrainRun(s: State, d: Duty, actions: seq<Action>, hooks: nat)
    requires InvFor(s, d, hooks) && IsRun(s, actions, hooks) && IsDrain(actions)
    ensures var s' := After(s, actions, hooks);
            && |actions| <= StepsLeft(s, d, hooks)
            && s'.inserted == s.inserted && s'.dropped == s.dropped
            && ConsumerRuns(actions) + |s'.q.records| + (if s'.q.consuming then 1 else 0) ==
               |s.q.records| + (if s.q.consuming then 1 else 0)
    decreases |actions|
  {
    hide InvFor, StepsLeft, Next, NextDuty, Enabled;
    if actions != [] {
      var a := actions[0];
      assert IsDrain([a]);
      StepKeepsInv(s, d, a, hooks);
      DrainStep(s, d, a, hooks);
      DrainRun(Next(s, a, hooks), NextDuty(s, d, a), actions[1..], hooks);
    }
  }

  /** As long as the flag is up and no hook threw, some thread can go on. */
  lemma CanGoOn(s: State, hooks: nat) returns (a: Action)
    requires Reachable(s, hooks) && s.q.consuming && s.dropped == []
    ensures Enabled(s, a, hooks) && !a.Insert? && !a.HookThrows?
  {
    var d := ReachableInv(s, hooks);
    match d
    case Queued =>
      assert |Stack(s, 0)| == 0;
      a := Take(0);
    case Held(t) =>
      assert |Stack(s, t)| == 1;
      a := match Top(s, t)
        case Submitting => Submit(t, true)
        case Entering => Lock(t)
        case Hooking(_, done) => if done < hooks then CallHook(t) else HooksDone(t);
  }

  ghost predicate AtRest(s: State, hooks: nat) {
    forall a | Enabled(s, a, hooks) :: a.Insert? || a.HookThrows?
  }

  lemma {:induction false} ReachableAfter(s: State, actions: seq<Action>, hooks: nat)
    requires Reachable(s, hooks) && IsRun(s, actions, hooks)
    ensures Reachable(After(s, actions, hooks), hooks)
  {
    var first :| IsRun(START, first, hooks) && After(START, first, hooks) == s;
    RunConcat(START, first, actions, hooks);
    assert After(START, first + actions, hooks) == After(s, actions, hooks);
  }

  lemma {:induction false} RunConcat(s: State, first: seq<Action>, second: seq<Action>, hooks: nat)
    requires IsRun(s, first, hooks) && IsRun(After(s, first, hooks), second, hooks)
    ensures IsRun(s, first + second, hooks)
    ensures After(s, first + second, hooks) == After(After(s, first, hooks), second, hooks)
    decreases |first|
  {
    hide Next, Enabled;
    if first == [] {
      assert first + second == second;
    } else {
      assert (first + second)[1..] == first[1..] + second;
      RunConcat(Next(s, first[0], hooks), first[1..], second, hooks);
    }
  }

  /** With no further inserts and no throwing hook, every schedule on every kind of pool is finite,
      and when it is over the flag is down, everything that was inserted has been hooked, and a queue
      of n records has cost exactly n + 1 runs of `consumeLogs`. */
  lemma {:induction false} Drains(before: seq<Action>, actions: seq<Action>, hooks: nat)
    requires IsRun(START, before, hooks) && After(START, before, hooks).dropped == []
    requires IsRun(After(START, before, hooks), actions, hooks) && IsDrain(actions)
    ensures |actions| <= (hooks + 4) * (|After(START, before, hooks).q.records| + 1)
    ensures var s := After(START, before, hooks);
            var s' := After(s, actions, hooks);
            AtRest(s', hooks) ==>
              && !s'.q.consuming && s'.q.records == [] && s'.hooked == Inserts(before)
              && s'.calls == CallsFor(Inserts(before), hooks)
              && ConsumerRuns(actions) == |s.q.records| + if s.q.consuming then 1 else 0
  {
    InsertedFromStart(before, hooks);
    var s := After(START, before, hooks);
    var d := ReachableInv(s, hooks);
    var s' := After(s, actions, hooks);
    DrainRun(s, d, actions, hooks);
    assert (hooks + 4) * (|s.q.records| + 1) == (hooks + 4) * |s.q.records| + hooks + 4;
    ReachableAfter(s, actions, hooks);
    if AtRest(s', hooks) {
      if s'.q.consuming {
        var a := CanGoOn(s', hooks);
        assert false;
      }
      FlagDownMeansComplete(s', hooks);
    }
  }

  lemma {:induction false} OneStepRun(s: State, a: Action, hooks: nat)
    requires Enabled(s, a, hooks)
    ensures IsRun(s, [a], hooks) && After(s, [a], hooks) == Next(s, a, hooks)
  {
    hide Next, Enabled;
    var s' := Next(s, a, hooks);
    assert [a][1..] == [] && IsRun(s', [], hooks) && After(s', [], hooks) == s';
  }

  /** With any hook at all, a run can come to one that throws. */
  lemma {:induction false} HookCanThrow(rec: LogRecord, hooks: nat) returns (s: State)
    requires hooks > 0
    ensures Reachable(s, hooks) && s.dropped == [(rec, 0)] && s.inserted == [rec]
  {
    var s1 := Next(START, Insert(0, rec), hooks);
    assert IsRun(START, [], hooks) && After(START, [], hooks) == START;
    ReachableAfterStep(START, Insert(0, rec), hooks);
    var s2 := Next(s1, Submit(0, true), hooks);
    ReachableAfterStep(s1, Submit(0, true), hooks);
    var s3 := Next(s2, Lock(0), hooks);
    ReachableAfterStep(s2, Lock(0), hooks);
    s := Next(s3, HookThrows(0), hooks);
    ReachableAfterStep(s3, HookThrows(0), hooks);
  }

  lemma {:induction false} ReachableAfterStep(s: State, a: Action, hooks: nat)
    requires Reachable(s, hooks) && Enabled(s, a, hooks)
    ensures Reachable(Next(s, a, hooks), hooks)
  {
    hide Next, Enabled;
    OneStepRun(s, a, hooks);
    ReachableAfter(s, [a], hooks);
  }

  /** After a hook threw, the flag stays up and no record is ever hooked again. */
  lemma {:induction false} ThrowingHookEndsLogging(s: State, actions: seq<Action>, hooks: nat)
    requires Reachable(s, hooks) && s.dropped != []
    requires IsRun(s, actions, hooks)
    ensures var s' := After(s, actions, hooks);
            s'.q.consuming && s'.calls == s.calls && s'.hooked == s.hooked
    decreases |actions|
  {
    var d := ReachableInv(s, hooks);
    if actions != [] {
      var a := actions[0];
      assert forall t :: |Stack(s, t)| == 0;
      assert a.Insert?;
      ReachableAfterStep(s, a, hooks);
      ThrowingHookEndsLogging(Next(s, a, hooks), actions[1..], hooks);
    }
  }
}
