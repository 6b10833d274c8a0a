/** `Scheduler` and `TimedScheduler` as the objects they are (include/stms/scheduler.hpp:34-174,
    src/stms/scheduler.cpp:4-16). Each call is proved to do what `SchedulerModel.Apply` says. The
    maps are unordered, so a loop over one takes its keys in any order. */
module Scheduler {
  import opened Basics
  import opened SchedulerModel

  class Scheduler {
    var lastTick: uint64
    var idAccumulator: uint64
    var timeouts: map<Id, Timeout>
    var intervals: map<Id, Interval>
    var submitted: multiset<Submission>    // what `pool` has been given

    constructor ()
      ensures Value() == EMPTY
    {
      lastTick, idAccumulator, timeouts, intervals, submitted := 0, 0, map[], map[], multiset{};
    }

    function Value(): Sched
      reads this
    {
      Sched(lastTick, idAccumulator, timeouts, intervals, submitted)
    }

    method SetTimeout(ticks: uint64) returns (id: Id)
      modifies this`idAccumulator, this`timeouts
      ensures id == old(idAccumulator) && Value() == Apply(old(Value()), Op.SetTimeout(ticks))
    {
      id := idAccumulator;
      idAccumulator := (idAccumulator + 1) % WORD;
      timeouts := timeouts[id := Timeout(lastTick, ticks)];
    }

    method ClearTimeout(id: Id)
      modifies this`timeouts
      ensures Value() == Apply(old(Value()), Op.ClearTimeout(id))
      ensures timeouts.Keys == old(timeouts).Keys - {id}
      ensures forall other :: other in timeouts ==> timeouts[other] == old(timeouts)[other]
    {
      timeouts := timeouts - {id};
    }

    method SetInterval(ticks: uint64) returns (id: Id)
      modifies this`idAccumulator, this`intervals
      ensures id == old(idAccumulator) && Value() == Apply(old(Value()), Op.SetInterval(ticks))
    {
      id := idAccumulator;
      idAccumulator := (idAccumulator + 1) % WORD;
      intervals := intervals[id := Interval(0, ticks)];
    }

    method ClearInterval(id: Id)
      modifies this`intervals
      ensures Value() == Apply(old(Value()), Op.ClearInterval(id))
      ensures intervals.Keys == old(intervals).Keys - {id}
      ensures forall other :: other in intervals ==> intervals[other] == old(intervals)[other]
    {
      intervals := intervals - {id};
    }

    /** One turn of the first loop of `tick`. */
    method TickInterval(id: Id, inc: uint64)
      requires id in intervals
      modifies this`intervals, this`submitted
      ensures intervals == old(intervals)[id := Advance(old(intervals)[id], inc)]
      ensures submitted == old(submitted) +
                if Fires(old(intervals)[id], inc) then multiset{OfInterval(id)} else multiset{}
    {
      var i := intervals[id];
      i := i.(time := (i.time + inc) % WORD);
      if i.time >= i.interval {
        i := i.(time := i.time - i.interval);
        submitted := submitted + multiset{OfInterval(id)};
      }
      intervals := intervals[id := i];
    }

    method TickIntervals(inc: uint64)
      modifies this`intervals, this`submitted
      ensures intervals == AdvanceThose(old(intervals), old(intervals).Keys, inc)
      ensures submitted == old(submitted) + multiset(FiredIntervals(old(intervals), old(intervals).Keys, inc))
    {
      hide FiredIntervals, AdvanceThose, Advance, Fires;
      var todo := intervals.Keys;
      ghost var all := intervals;
      NoneFired(all, inc);
      while todo != {}
        invariant todo <= all.Keys
        invariant intervals == AdvanceThose(all, all.Keys - todo, inc)
        invariant submitted == old(submitted) + multiset(FiredIntervals(all, all.Keys - todo, inc))
      {
        var id :| id in todo;
        OneMore(all.Keys, todo, id);
        FiredOneMore(all, all.Keys - todo, id, inc);
        AdvanceOneMore(all, all.Keys - todo, id, inc);
        TickInterval(id, inc);
        todo := todo - {id};
      }
      assert all.Keys - {} == all.Keys;
    }

    /** One turn of the second loop of `tick`. */
    method TickTimeout(id: Id) returns (due: bool)
      requires id in timeouts
      modifies this`submitted
      ensures due == Due(timeouts[id], lastTick)
      ensures submitted == old(submitted) + if due then multiset{OfTimeout(id)} else multiset{}
    {
      due := (lastTick + WORD - timeouts[id].start) % WORD >= timeouts[id].timeout;
      if due {
        submitted := submitted + multiset{OfTimeout(id)};
      }
    }

    /** The second loop of `tick`: it submits the timeouts that are due and queues their ids. */
    method TickTimeouts() returns (clearQueue: seq<Id>)
      modifies this`submitted
      ensures Elements(clearQueue) == DueTimeouts(timeouts, timeouts.Keys, lastTick)
      ensures submitted == old(submitted) +
                multiset(TimeoutSubmissions(DueTimeouts(timeouts, timeouts.Keys, lastTick)))
    {
      hide DueTimeouts, TimeoutSubmissions, Elements, Due;
      clearQueue := [];
      var todo := timeouts.Keys;
      NoneDue(timeouts, lastTick);
      while todo != {}
        invariant todo <= timeouts.Keys
        invariant Elements(clearQueue) == DueTimeouts(timeouts, timeouts.Keys - todo, lastTick)
        invariant submitted == old(submitted) +
                    multiset(TimeoutSubmissions(DueTimeouts(timeouts, timeouts.Keys - todo, lastTick)))
      {
        var id :| id in todo;
        OneMore(timeouts.Keys, todo, id);
        DueOneMore(timeouts, timeouts.Keys - todo, id, lastTick);
        var due := TickTimeout(id);
        if due {
          ElementsAppend(clearQueue, id);
          clearQueue := clearQueue + [id];
        }
        todo := todo - {id};
      }
      assert timeouts.Keys - {} == timeouts.Keys;
    }

    method Tick(inc: uint64) returns (now: uint64)
      modifies this`lastTick, this`timeouts, this`intervals, this`submitted
      ensures Value() == Apply(old(Value()), Op.Tick(inc))
      ensures now == lastTick
    {
      hide Apply, FiredIntervals, AdvanceThose, DueTimeouts, TimeoutSubmissions, Elements;
      TickMeans(Value(), inc);
      ghost var was := Value();
      lastTick := (lastTick + inc) % WORD;
      TickIntervals(inc);
      assert intervals == AdvanceThose(was.intervals, was.intervals.Keys, inc);
      var clearQueue := TickTimeouts();
      assert Elements(clearQueue) == DueTimeouts(was.timeouts, was.timeouts.Keys, lastTick);
      EraseAll(clearQueue);
      assert timeouts == was.timeouts - DueTimeouts(was.timeouts, was.timeouts.Keys, lastTick);
      now := lastTick;
    }

    /** The last loop of `tick`. */
    method EraseAll(clearQueue: seq<Id>)
      modifies this`timeouts
      ensures timeouts == old(timeouts) - Elements(clearQueue)
    {
      for i := 0 to |clearQueue|
        invariant timeouts == old(timeouts) - Elements(clearQueue[..i])
      {
        assert clearQueue[..i + 1] == clearQueue[..i] + [clearQueue[i]];
        ElementsAppend(clearQueue[..i], clearQueue[i]);
        ClearTimeout(clearQueue[i]);
      }
      assert clearQueue[..|clearQueue|] == clearQueue;
    }
  }

  lemma TickMeans(s: Sched, inc: uint64)
    ensures var now := (s.lastTick + inc) % WORD;
            var due := DueTimeouts(s.timeouts, s.timeouts.Keys, now);
            Apply(s, Op.Tick(inc)) ==
            Sched(now, s.nextId, s.timeouts - due, AdvanceThose(s.intervals, s.intervals.Keys, inc),
                  s.submitted + multiset(FiredIntervals(s.intervals, s.intervals.Keys, inc)) +
                  multiset(TimeoutSubmissions(due)))
  {
  }

  lemma OneMore(keys: set<Id>, todo: set<Id>, id: Id)
    requires id in todo && todo <= keys
    ensures keys - (todo - {id}) == keys - todo + {id} && id in keys
  {
  }

  function Elements(ids: seq<Id>): set<Id> {
    set id | id in ids
  }

  lemma ElementsAppend(ids: seq<Id>, id: Id)
    ensures Elements(ids + [id]) == Elements(ids) + {id}
  {
  }

  lemma NoneFired(intervals: map<Id, Interval>, inc: uint64)
    ensures FiredIntervals(intervals, intervals.Keys - intervals.Keys, inc) == {}
    ensures AdvanceThose(intervals, intervals.Keys - intervals.Keys, inc) == intervals
  {
  }

  lemma NoneDue(timeouts: map<Id, Timeout>, now: uint64)
    ensures DueTimeouts(timeouts, timeouts.Keys - timeouts.Keys, now) == {}
    ensures TimeoutSubmissions({}) == {} && Elements([]) == {}
  {
  }

  /** The clock is a number of nanoseconds that never goes back. */
  class TimedScheduler {
    var lastTick: nat
    const sched: Scheduler
    ghost const created: nat

    constructor (now: nat)
      ensures Valid() && lastTick == now && fresh(sched) && sched.Value() == EMPTY && created == now
    {
      lastTick := now;
      created := now;
      sched := new Scheduler();
    }

    /** No time is lost between clock and ticks, however often `Tick` is called. */
    ghost predicate Valid()
      reads this, sched
    {
      lastTick >= created && sched.lastTick == (lastTick - created) % WORD
    }

    method Tick(now: nat)
      requires Valid() && now < lastTick + 0x8000_0000_0000_0000
      modifies this, sched
      ensures Valid() && lastTick == if now > old(lastTick) then now else old(lastTick)
      ensures sched.Value() == if now > old(lastTick) then Apply(old(sched.Value()), Op.Tick(now - old(lastTick)))
                               else old(sched.Value())
    {
      var ns := now - lastTick;
      if ns > 0 {
        ModAdd(lastTick - created, ns);
        var _ := sched.Tick(ns);
        lastTick := now;
      }
    }
  }
}
