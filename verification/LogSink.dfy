/** The log queue as the object it is (src/stms/logging.cpp:96-186), on the default `InstaPool`
    (src/stms/async.cpp:38-48), which runs a submitted `consumeLogs` inside the submitting call. */
module LogSink {
  import opened Basics
  import opened LogPipeline

  class Logger {
    var logQueue: seq<LogRecord>
    var logConsuming: bool
    const hooks: nat

    // what the hooks have seen, and how often `consumeLogs` was entered
    var calls: seq<HookCall>
    var consumerRuns: nat

    constructor (hooks: nat)
      ensures Valid() && logQueue == [] && calls == [] && consumerRuns == 0
      ensures !logConsuming && this.hooks == hooks
    {
      logQueue, logConsuming, calls, consumerRuns := [], false, [], 0;
      this.hooks := hooks;
    }

    /** What holds whenever the lock is free and no consumer is at work. */
    ghost predicate Valid()
      reads this
    {
      !logConsuming ==> logQueue == []
    }

    function Queue(): LogQueue
      reads this
    {
      LogQueue(logQueue, logConsuming)
    }

    method LockedInsert(rec: LogRecord) returns (mustSubmit: bool)
      modifies this`logQueue, this`logConsuming
      ensures (Queue(), mustSubmit) == InsertRegion(old(Queue()), rec)
      ensures logQueue == old(logQueue) + [rec] && logConsuming && mustSubmit == !old(logConsuming)
    {
      logQueue := logQueue + [rec];
      mustSubmit := false;
      if !logConsuming {
        logConsuming := true;
        mustSubmit := true;
      }
    }

    method LockedConsume() returns (top: Option<LogRecord>)
      modifies this`logQueue, this`logConsuming
      ensures (Queue(), top) == ConsumeRegion(old(Queue()))
      ensures top.Some? ==> [top.value] + logQueue == old(logQueue) && logConsuming == old(logConsuming)
      ensures top == None ==> logQueue == old(logQueue) == [] && !logConsuming
    {
      var empty := logQueue == [];
      if !empty {
        top := Some(logQueue[0]);
        logQueue := logQueue[1..];
      } else {
        logConsuming := false;
        top := None;
      }
    }

    method CallHooks(rec: LogRecord)
      modifies this`calls
      ensures calls == old(calls) + CallsOn(rec, hooks)
    {
      for k := 0 to hooks
        invariant calls == old(calls) + CallsOn(rec, k)
      {
        CallsOnNext(rec, k);
        calls := calls + [(rec, k)];
      }
    }

    /** `consumeLogs` with the nested run that its own submit starts. */
    method ConsumeLogs()
      requires logConsuming
      modifies this
      ensures Valid() && !logConsuming
      ensures calls == old(calls) + CallsInTurn(old(logQueue), hooks)
      ensures consumerRuns == old(consumerRuns) + |old(logQueue)| + 1
      decreases |logQueue|
    {
      consumerRuns := consumerRuns + 1;
      var top := LockedConsume();
      if top.Some? {
        CallHooks(top.value);
        ConsumeLogs();
      }
    }

    method InsertImpl(rec: LogRecord)
      requires Valid()
      modifies this
      ensures Valid()
      ensures logConsuming == old(logConsuming)
      ensures if old(logConsuming) then
                logQueue == old(logQueue) + [rec] && calls == old(calls) && consumerRuns == old(consumerRuns)
              else
                logQueue == [] && calls == old(calls) + CallsOn(rec, hooks) && consumerRuns == old(consumerRuns) + 2
    {
      var mustSubmit := LockedInsert(rec);
      if mustSubmit {
        CallsInTurnOne(rec, hooks);
        ConsumeLogs();
      }
    }
  }

  /** The calls that draining a queue makes, front first. */
  function CallsInTurn(records: seq<LogRecord>, hooks: nat): seq<HookCall> {
    if records == [] then [] else CallsOn(records[0], hooks) + CallsInTurn(records[1..], hooks)
  }

  lemma CallsInTurnOne(rec: LogRecord, hooks: nat)
    ensures CallsInTurn([rec], hooks) == CallsOn(rec, hooks)
  {
    assert [rec][1..] == [];
  }

  /** The nested drain makes the calls that the transition system demands of every schedule. */
  lemma {:induction false} InTurnIsInOrder(records: seq<LogRecord>, hooks: nat)
    ensures CallsInTurn(records, hooks) == CallsFor(records, hooks)
  {
    if records != [] {
      FrontFirst(records, hooks);
      InTurnIsInOrder(records[1..], hooks);
    }
  }

  lemma {:induction false} FrontFirst(records: seq<LogRecord>, hooks: nat)
    requires records != []
    ensures CallsFor(records, hooks) == CallsOn(records[0], hooks) + CallsFor(records[1..], hooks)
  {
    var n := |records| - 1;
    if n == 0 {
      assert records[..0] == [] && records[1..] == [];
    } else {
      hide CallsFor, CallsOn;
      var first, middle, last := records[0], records[1..n], records[n];
      FrontFirst(records[..n], hooks);
      assert records[..n][1..] == middle && records == records[..n] + [last] && records[1..] == middle + [last];
      CallsForNext(records[..n], last, hooks);
      CallsForNext(middle, last, hooks);
      ConcatAssociative(CallsOn(first, hooks), CallsFor(middle, hooks), CallsOn(last, hooks));
    }
  }
}
