/** `Scheduler<uint64_t>` (include/stms/scheduler.hpp:30-174) on values: what each call does to
    the scheduler, and what runs of calls do to one timeout or one interval. */
module SchedulerModel {

  import opened Basics

  type Id = nat

  datatype Timeout = Timeout(start: uint64, timeout: uint64)
  datatype Interval = Interval(time: uint64, interval: uint64)
  datatype Submission = OfTimeout(id: Id) | OfInterval(id: Id)

  datatype Sched = Sched(
    lastTick: uint64,
    nextId: uint64,
    timeouts: map<Id, Timeout>,
    intervals: map<Id, Interval>,
    submitted: multiset<Submission>)   // what the pool has been given, in no particular order

  const EMPTY := Sched(0, 0, map[], map[], multiset{})

  datatype Op =
    | SetTimeout(ticks: uint64)
    | ClearTimeout(id: Id)
    | SetInterval(ticks: uint64)
    | ClearInterval(id: Id)
    | Tick(inc: uint64)

  function Add(x: uint64, y: uint64): uint64 {
    (x + y) % WORD
  }

  /** Unsigned subtraction. */
  function Sub(x: uint64, y: uint64): uint64 {
    (x + WORD - y) % WORD
  }

  function Advance(i: Interval, inc: uint64): Interval {
    var time := Add(i.time, inc);
    i.(time := if time >= i.interval then time - i.interval else time)
  }

  predicate Fires(i: Interval, inc: uint64) {
    Add(i.time, inc) >= i.interval
  }

  predicate Due(t: Timeout, now: uint64) {
    Sub(now, t.start) >= t.timeout
  }

  /** The intervals after a tick has advanced `ids`. */
  function AdvanceThose(intervals: map<Id, Interval>, ids: set<Id>, inc: uint64): map<Id, Interval> {
    map id | id in intervals :: if id in ids then Advance(intervals[id], inc) else intervals[id]
  }

  /** Those of the intervals `ids` that a tick submits. */
  function FiredIntervals(intervals: map<Id, Interval>, ids: set<Id>, inc: uint64): set<Submission> {
    set id | id in ids && id in intervals && Fires(intervals[id], inc) :: OfInterval(id)
  }

  /** Those of the timeouts `ids` that are due. */
  function DueTimeouts(timeouts: map<Id, Timeout>, ids: set<Id>, now: uint64): set<Id> {
    set id | id in ids && id in timeouts && Due(timeouts[id], now)
  }

  function TimeoutSubmissions(ids: set<Id>): set<Submission> {
    set id | id in ids :: OfTimeout(id)
  }

  function Apply(s: Sched, op: Op): Sched {
    match op
    case SetTimeout(ticks) =>
      s.(nextId := Add(s.nextId, 1), timeouts := s.timeouts[s.nextId := Timeout(s.lastTick, ticks)])
    case ClearTimeout(id) => s.(timeouts := s.timeouts - {id})
    case SetInterval(ticks) =>
      s.(nextId := Add(s.nextId, 1), intervals := s.intervals[s.nextId := Interval(0, ticks)])
    case ClearInterval(id) => s.(intervals := s.intervals - {id})
    case Tick(inc) =>
      var now := Add(s.lastTick, inc);
      var due := DueTimeouts(s.timeouts, s.timeouts.Keys, now);
      s.(lastTick := now,
         intervals := AdvanceThose(s.intervals, s.intervals.Keys, inc),
         timeouts := s.timeouts - due,
         submitted := s.submitted + multiset(FiredIntervals(s.intervals, s.intervals.Keys, inc)) +
                      multiset(TimeoutSubmissions(due)))
  }

  lemma AdvanceOneMore(intervals: map<Id, Interval>, ids: set<Id>, id: Id, inc: uint64)
    requires id in intervals && id !in ids
    ensures AdvanceThose(intervals, ids, inc).Keys == intervals.Keys
    ensures AdvanceThose(intervals, ids, inc)[id] == intervals[id]
    ensures AdvanceThose(intervals, ids + {id}, inc) ==
            AdvanceThose(intervals, ids, inc)[id := Advance(intervals[id], inc)]
  {
  }

  lemma FiredOneMore(intervals: map<Id, Interval>, ids: set<Id>, id: Id, inc: uint64)
    requires id in intervals && id !in ids
    ensures multiset(FiredIntervals(intervals, ids + {id}, inc)) ==
            multiset(FiredIntervals(intervals, ids, inc)) +
            if Fires(intervals[id], inc) then multiset{OfInterval(id)} else multiset{}
  {
    var before := FiredIntervals(intervals, ids, inc);
    assert FiredIntervals(intervals, ids + {id}, inc) ==
           if Fires(intervals[id], inc) then before + {OfInterval(id)} else before;
    assert OfInterval(id) !in before;
  }

  lemma DueOneMore(timeouts: map<Id, Timeout>, ids: set<Id>, id: Id, now: uint64)
    requires id in timeouts && id !in ids
    ensures DueTimeouts(timeouts, ids + {id}, now) ==
            DueTimeouts(timeouts, ids, now) + if Due(timeouts[id], now) then {id} else {}
    ensures multiset(TimeoutSubmissions(DueTimeouts(timeouts, ids + {id}, now))) ==
            multiset(TimeoutSubmissions(DueTimeouts(timeouts, ids, now))) +
            if Due(timeouts[id], now) then multiset{OfTimeout(id)} else multiset{}
  {
    var before := DueTimeouts(timeouts, ids, now);
    assert DueTimeouts(timeouts, ids + {id}, now) == if Due(timeouts[id], now) then before + {id} else before;
    assert TimeoutSubmissions(before + {id}) == TimeoutSubmissions(before) + {OfTimeout(id)};
    assert OfTimeout(id) !in TimeoutSubmissions(before);
  }

  // Runs are taken apart at their last call.

  function Run(s: Sched, ops: seq<Op>): Sched {
    if ops == [] then s else Apply(Run(s, Front(ops)), Last(ops))
  }

  function Front<T>(xs: seq<T>): seq<T>
    requires xs != []
  {
    xs[..|xs| - 1]
  }

  function Last<T>(xs: seq<T>): T
    requires xs != []
  {
    xs[|xs| - 1]
  }

  predicate IsSet(op: Op) {
    op.SetTimeout? || op.SetInterval?
  }

  /** How many ids a run takes. */
  function IdsTaken(ops: seq<Op>): nat {
    if ops == [] then 0 else IdsTaken(Front(ops)) + if IsSet(Last(ops)) then 1 else 0
  }

  /** True elapsed ticks, without wrap-around. */
  function Elapsed(ops: seq<Op>): nat {
    if ops == [] then 0 else Elapsed(Front(ops)) + if Last(ops).Tick? then Last(ops).inc else 0
  }

  // ----- ids -----

  lemma ApplyCounters(s: Sched, op: Op)
    ensures var s' := Apply(s, op);
            && s'.nextId == (if IsSet(op) then Add(s.nextId, 1) else s.nextId)
            && s'.lastTick == (if op.Tick? then Add(s.lastTick, op.inc) else s.lastTick)
            && s'.timeouts.Keys <= s.timeouts.Keys + (if op.SetTimeout? then {s.nextId} else {})
            && s'.intervals.Keys <= s.intervals.Keys + (if op.SetInterval? then {s.nextId} else {})
  {
  }

  /** Below 2^64 of them, ids are never reused, within a kind or between the kinds. */
  lemma {:induction false} IdsNeverCollide(ops: seq<Op>)
    requires IdsTaken(ops) < WORD
    ensures var s := Run(EMPTY, ops);
            && s.nextId == IdsTaken(ops)
            && (forall id :: id in s.timeouts || id in s.intervals ==> id < s.nextId)
            && s.timeouts.Keys !! s.intervals.Keys
  {
    hide Apply;
    if ops != [] {
      IdsNeverCollide(Front(ops));
      ApplyCounters(Run(EMPTY, Front(ops)), Last(ops));
    }
  }

  /** No id that the run from `s` takes is `id`. */
  predicate KeepsClearOf(s: Sched, ops: seq<Op>, id: Id) {
    id < s.nextId && s.nextId + IdsTaken(ops) < WORD
  }

  lemma {:induction false} NextIdAfter(s: Sched, ops: seq<Op>, id: Id)
    requires KeepsClearOf(s, ops, id)
    ensures Run(s, ops).nextId == s.nextId + IdsTaken(ops)
  {
    hide Apply;
    if ops != [] {
      NextIdAfter(s, Front(ops), id);
      ApplyCounters(Run(s, Front(ops)), Last(ops));
    }
  }

  // ----- timeouts -----

  lemma ModAdd(x: nat, y: nat)
    ensures (x % WORD + y) % WORD == (x + y) % WORD
  {
    var q := x / WORD;
    assert x + y == x % WORD + y + q * WORD;
    ModShift(x % WORD + y, q);
  }

  lemma {:induction false} ClockAfter(s: Sched, ops: seq<Op>)
    ensures Run(s, ops).lastTick == (s.lastTick + Elapsed(ops)) % WORD
  {
    hide Apply;
    if ops != [] {
      ClockAfter(s, Front(ops));
      ApplyCounters(Run(s, Front(ops)), Last(ops));
      if Last(ops).Tick? {
        ModAdd(s.lastTick + Elapsed(Front(ops)), Last(ops).inc);
      }
    }
  }

  /** What the scheduler sees of the time since its clock stood at `start`. */
  lemma SeenElapsed(start: uint64, elapsed: nat, now: uint64)
    requires now == (start + elapsed) % WORD
    ensures Sub(now, start) == elapsed % WORD
  {
    var q := (start + elapsed) / WORD;
    assert now + WORD - start == elapsed + (1 - q) * WORD;
    ModShift(elapsed, 1 - q);
  }

  lemma ModShift(x: nat, k: int)
    requires x + k * WORD >= 0
    ensures (x + k * WORD) % WORD == x % WORD
  {
  }

  /** Some tick of the run saw at least `length` ticks pass, modulo 2^64. */
  predicate Seen(ops: seq<Op>, length: uint64) {
    ops != [] && (Seen(Front(ops), length) || (Last(ops).Tick? && Elapsed(ops) % WORD >= length))
  }

  /** Some tick of the run came when at least `length` ticks had really passed. */
  predicate Reached(ops: seq<Op>, length: uint64) {
    ops != [] && (Reached(Front(ops), length) || (Last(ops).Tick? && Elapsed(ops) >= length))
  }

  lemma TickOn(s: Sched, inc: uint64, id: Id)
    ensures var s' := Apply(s, Tick(inc));
            && s'.submitted[OfTimeout(id)] == s.submitted[OfTimeout(id)] +
                 (if id in s.timeouts && Due(s.timeouts[id], Add(s.lastTick, inc)) then 1 else 0)
            && s'.submitted[OfInterval(id)] == s.submitted[OfInterval(id)] +
                 (if id in s.intervals && Fires(s.intervals[id], inc) then 1 else 0)
            && (id in s'.timeouts <==> id in s.timeouts && !Due(s.timeouts[id], Add(s.lastTick, inc)))
            && (id in s'.timeouts ==> s'.timeouts[id] == s.timeouts[id])
            && (id in s'.intervals <==> id in s.intervals)
            && (id in s.intervals ==> s'.intervals[id] == Advance(s.intervals[id], inc))
  {
  }

  lemma UntouchedByCall(s: Sched, op: Op, id: Id)
    requires !op.Tick? && id != s.nextId
    ensures var s' := Apply(s, op);
            && s'.submitted == s.submitted
            && (id in s'.timeouts <==> id in s.timeouts && op != ClearTimeout(id))
            && (id in s'.timeouts ==> s'.timeouts[id] == s.timeouts[id])
            && (id in s'.intervals <==> id in s.intervals && op != ClearInterval(id))
            && (id in s'.intervals ==> s'.intervals[id] == s.intervals[id])
  {
  }

  lemma DueDef(t: Timeout, now: uint64)
    ensures Due(t, now) <==> Sub(now, t.start) >= t.timeout
  {
  }

  /** A timeout that nobody clears is submitted once, by the first tick that sees its length pass,
      and is then gone. */
  lemma {:induction false} TimeoutFiresOnceSeen(s: Sched, id: Id, ops: seq<Op>)
    requires id in s.timeouts && s.timeouts[id].start == s.lastTick
    requires KeepsClearOf(s, ops, id) && ClearTimeout(id) !in ops
    ensures var s' := Run(s, ops);
            var seen := Seen(ops, s.timeouts[id].timeout);
            && s'.submitted[OfTimeout(id)] == s.submitted[OfTimeout(id)] + (if seen then 1 else 0)
            && (id in s'.timeouts <==> !seen)
            && (!seen ==> s'.timeouts[id] == s.timeouts[id])
  {
    hide Apply, Due;
    if ops != [] {
      var before := Run(s, Front(ops));
      TimeoutFiresOnceSeen(s, id, Front(ops));
      NextIdAfter(s, Front(ops), id);
      ClockAfter(s, Front(ops));
      var op := Last(ops);
      assert op in ops;
      if op.Tick? {
        TickOn(before, op.inc, id);
        ClockAfter(s, ops);
        ApplyCounters(before, op);
        SeenElapsed(s.lastTick, Elapsed(ops), Add(before.lastTick, op.inc));
        assert id in before.timeouts ==>
                 (Due(before.timeouts[id], Add(before.lastTick, op.inc)) <==>
                  Elapsed(ops) % WORD >= s.timeouts[id].timeout) by {
          DueDef(s.timeouts[id], Add(before.lastTick, op.inc));
        }
      } else {
        UntouchedByCall(before, op, id);
      }
    }
  }

  /** At every tick up to the one that fires, less than 2^64 ticks have passed. */
  predicate NoFullTurn(ops: seq<Op>, length: uint64) {
    ops == [] ||
    (NoFullTurn(Front(ops), length) &&
     (Last(ops).Tick? && !Reached(Front(ops), length) ==> Elapsed(ops) < WORD))
  }

  lemma {:induction false} SeenIsReached(ops: seq<Op>, length: uint64)
    requires NoFullTurn(ops, length)
    ensures Seen(ops, length) <==> Reached(ops, length)
  {
    if ops != [] {
      SeenIsReached(Front(ops), length);
    }
  }

  /** At the first tick at which a timeout is due, it is submitted exactly if the ticks since it was
      set have not just passed a multiple of 2^64; if they have, it stays in the table. */
  lemma {:induction false} FirstDueTickFires(s: Sched, length: uint64, ops: seq<Op>)
    requires s.nextId + 1 + IdsTaken(ops) < WORD && ClearTimeout(s.nextId) !in ops
    requires ops != [] && Last(ops).Tick? && Elapsed(ops) >= length && !Reached(Front(ops), length)
    ensures var id, set0 := s.nextId, Apply(s, SetTimeout(length));
            var before, after := Run(set0, Front(ops)), Run(set0, ops);
            var fires := Elapsed(ops) % WORD >= length;
            && id in before.timeouts
            && after.submitted[OfTimeout(id)] == before.submitted[OfTimeout(id)] + (if fires then 1 else 0)
            && (id in after.timeouts <==> !fires)
  {
    hide Apply;
    var set0 := Apply(s, SetTimeout(length));
    SetTimeoutMeans(s, length);
    NotYetSeen(Front(ops), length);
    TimeoutFiresOnceSeen(set0, s.nextId, Front(ops));
    TimeoutFiresOnceSeen(set0, s.nextId, ops);
  }

  lemma SetTimeoutMeans(s: Sched, length: uint64)
    ensures var s' := Apply(s, SetTimeout(length));
            && s'.nextId == Add(s.nextId, 1) && s'.lastTick == s.lastTick && s'.submitted == s.submitted
            && s.nextId in s'.timeouts && s'.timeouts[s.nextId] == Timeout(s.lastTick, length)
  {
  }

  lemma {:induction false} NotYetSeen(ops: seq<Op>, length: uint64)
    requires !Reached(ops, length)
    ensures !Seen(ops, length)
  {
    if ops != [] {
      NotYetSeen(Front(ops), length);
    }
  }

  /** Whatever the clock stood at and however often it wraps around: a timeout is submitted exactly
      once, at the first tick at which its length has really passed, never earlier. */
  lemma {:induction false} TimeoutFiresOnTime(s: Sched, length: uint64, ops: seq<Op>)
    requires s.nextId + 1 + IdsTaken(ops) < WORD
    requires ClearTimeout(s.nextId) !in ops && NoFullTurn(ops, length)
    ensures var id := s.nextId;
            var s' := Run(Apply(s, SetTimeout(length)), ops);
            && s'.submitted[OfTimeout(id)] == s.submitted[OfTimeout(id)] + (if Reached(ops, length) then 1 else 0)
            && (id in s'.timeouts <==> !Reached(ops, length))
  {
    var set0 := Apply(s, SetTimeout(length));
    assert set0.nextId == s.nextId + 1;
    TimeoutFiresOnceSeen(set0, s.nextId, ops);
    SeenIsReached(ops, length);
  }

  /** A scheduler that misses a timeout: its length has passed, with the clock a full turn on since
      it was set, but it has not been submitted. */
  lemma {:induction false} FullTurnMissesTimeout() returns (ops: seq<Op>)
    ensures var length := WORD - 1;
            var s' := Run(Apply(EMPTY, SetTimeout(length)), ops);
            && Reached(ops, length) && IdsTaken(ops) == 0
            && s'.submitted[OfTimeout(0)] == 0 && 0 in s'.timeouts
  {
    hide Apply;
    var first := [Tick(WORD - 2)];
    ops := first + [Tick(WORD - 1)];
    assert Front(ops) == first && Front(first) == [];
    assert IdsTaken(first) == 0 && Elapsed(first) == WORD - 2 && !Reached(first, WORD - 1);
    ModShift(WORD - 3, 1);
    assert Elapsed(ops) == WORD - 3 + WORD;
    FirstDueTickFires(EMPTY, WORD - 1, ops);
    SetTimeoutMeans(EMPTY, WORD - 1);
    NotYetSeen(first, WORD - 1);
    TimeoutFiresOnceSeen(Apply(EMPTY, SetTimeout(WORD - 1)), 0, first);
  }

  /** A timeout that has fired or has been cleared is never submitted again. */
  lemma {:induction false} GoneStaysGone(s: Sched, id: Id, ops: seq<Op>)
    requires id !in s.timeouts && KeepsClearOf(s, ops, id)
    ensures id !in Run(s, ops).timeouts
    ensures Run(s, ops).submitted[OfTimeout(id)] == s.submitted[OfTimeout(id)]
  {
    if ops != [] {
      GoneStaysGone(s, id, Front(ops));
      NextIdAfter(s, Front(ops), id);
      if Last(ops).Tick? {
        TickOn(Run(s, Front(ops)), Last(ops).inc, id);
      } else {
        UntouchedByCall(Run(s, Front(ops)), Last(ops), id);
      }
      hide Apply;
    }
  }

  /** Clearing a timeout, whether or not it is due, keeps it from ever being submitted, and takes
      nothing else away. */
  lemma {:induction false} ClearedNeverFires(s: Sched, id: Id, ops: seq<Op>)
    requires KeepsClearOf(s, ops, id)
    ensures var s0 := Apply(s, ClearTimeout(id));
            && id !in Run(s0, ops).timeouts
            && Run(s0, ops).submitted[OfTimeout(id)] == s.submitted[OfTimeout(id)]
            && forall other :: other in s.timeouts && other != id ==>
                 other in s0.timeouts && s0.timeouts[other] == s.timeouts[other]
  {
    GoneStaysGone(Apply(s, ClearTimeout(id)), id, ops);
  }

  // ----- intervals -----

  /** A cleared interval never fires again, and clearing it takes nothing else away. */
  lemma {:induction false} ClearedIntervalNeverFires(s: Sched, id: Id, ops: seq<Op>)
    requires KeepsClearOf(s, ops, id)
    ensures var s0 := Apply(s, ClearInterval(id));
            && id !in Run(s0, ops).intervals
            && Run(s0, ops).submitted[OfInterval(id)] == s.submitted[OfInterval(id)]
            && forall other :: other in s.intervals && other != id ==>
                 other in s0.intervals && s0.intervals[other] == s.intervals[other]
  {
    var s0 := Apply(s, ClearInterval(id));
    if ops != [] {
      ClearedIntervalNeverFires(s, id, Front(ops));
      NextIdAfter(s0, Front(ops), id);
      if Last(ops).Tick? {
        TickOn(Run(s0, Front(ops)), Last(ops).inc, id);
      } else {
        UntouchedByCall(Run(s0, Front(ops)), Last(ops), id);
      }
    }
  }

  /** The tick sizes of a run. */
  function Ticks(ops: seq<Op>): seq<uint64> {
    if ops == [] then [] else Ticks(Front(ops)) + if Last(ops).Tick? then [Last(ops).inc] else []
  }

  function Sum(ticks: seq<uint64>): nat {
    if ticks == [] then 0 else Sum(Front(ticks)) + Last(ticks)
  }

  /** An interval of length `length` after `ticks`, and how often it has fired. */
  function After(length: uint64, ticks: seq<uint64>): (Interval, nat) {
    if ticks == [] then (Interval(0, length), 0)
    else
      var (i, fires) := After(length, Front(ticks));
      (Advance(i, Last(ticks)), fires + if Fires(i, Last(ticks)) then 1 else 0)
  }

  /** In any run an interval that nobody clears follows the ticks alone. */
  lemma {:induction false} IntervalFollowsTicks(s: Sched, length: uint64, ops: seq<Op>)
    requires s.nextId + 1 + IdsTaken(ops) < WORD && ClearInterval(s.nextId) !in ops
    ensures var id := s.nextId;
            var s' := Run(Apply(s, SetInterval(length)), ops);
            var (i, fires) := After(length, Ticks(ops));
            && id in s'.intervals && s'.intervals[id] == i
            && s'.submitted[OfInterval(id)] == s.submitted[OfInterval(id)] + fires
  {
    var set0 := Apply(s, SetInterval(length));
    assert set0.nextId == s.nextId + 1;
    if ops != [] {
      IntervalFollowsTicks(s, length, Front(ops));
      NextIdAfter(set0, Front(ops), s.nextId);
      var op := Last(ops);
      assert op in ops;
      if op.Tick? {
        var ticks := Ticks(ops);
        assert Front(ticks) == Ticks(Front(ops)) && Last(ticks) == op.inc;
        TickOn(Run(set0, Front(ops)), op.inc, s.nextId);
      } else {
        UntouchedByCall(Run(set0, Front(ops)), op, s.nextId);
        assert Ticks(ops) == Ticks(Front(ops));
      }
    }
  }

  /** The 64-bit field `time` never wraps around. */
  predicate NoOverflow(length: uint64, ticks: seq<uint64>) {
    ticks == [] ||
    (NoOverflow(length, Front(ticks)) && After(length, Front(ticks)).0.time + Last(ticks) < WORD)
  }

  /** No tick is lost exactly if `time` never wraps around: then the ticks are those of the firings
      and what `time` holds. Otherwise some are missing. */
  lemma {:induction false} TicksConserved(length: uint64, ticks: seq<uint64>)
    ensures var (i, fires) := After(length, ticks);
            && i.interval == length && Sum(ticks) >= fires * length + i.time
            && (Sum(ticks) == fires * length + i.time <==> NoOverflow(length, ticks))
  {
    if ticks != [] {
      TicksConserved(length, Front(ticks));
      var (i, fires) := After(length, Front(ticks));
      assert (fires + 1) * length == fires * length + length;
      AddOnce(i.time, Last(ticks));
    }
  }

  lemma AddOnce(x: uint64, y: uint64)
    ensures Add(x, y) == if x + y < WORD then x + y else x + y - WORD
  {
  }

  /** Ticks no longer than the interval, if that is at most 2^63, never make `time` wrap around,
      however many they are. */
  lemma {:induction false} ShortTicksNoOverflow(length: uint64, ticks: seq<uint64>)
    requires 0 < length && 2 * length <= WORD
    requires forall k :: 0 <= k < |ticks| ==> ticks[k] <= length
    ensures NoOverflow(length, ticks) && After(length, ticks).0.time < length
    ensures After(length, ticks).0.interval == length
  {
    if ticks != [] {
      ShortTicksNoOverflow(length, Front(ticks));
      assert Last(ticks) <= length;
    }
  }

  /** Beyond 2^63 two short ticks can be enough. */
  lemma {:induction false} LongIntervalOverflows(length: uint64)
    requires 2 * length > WORD
    ensures !NoOverflow(length, [length - 1, length])
  {
    var first := [length - 1];
    assert Front(first) == [] && Front([length - 1, length]) == first;
    assert After(length, []) == (Interval(0, length), 0);
    assert After(length, first).0.time == length - 1;
  }

  /** It is enough that the ticks together fit in 64 bits. */
  lemma {:induction false} SmallSumNoOverflow(length: uint64, ticks: seq<uint64>)
    requires Sum(ticks) < WORD
    ensures NoOverflow(length, ticks)
  {
    if ticks != [] {
      SmallSumNoOverflow(length, Front(ticks));
      TicksConserved(length, Front(ticks));
    }
  }

  lemma QuotientAtLeast(x: nat, n: nat, d: nat)
    requires d > 0
    ensures x / d >= n <==> x >= n * d
  {
    var q := x / d;
    assert q * d <= x < (q + 1) * d;
    if q >= n {
      assert q * d >= n * d;
    } else {
      assert (q + 1) * d <= n * d;
    }
  }

  /** One tick fires at most once, and only what the total allows. */
  lemma {:induction false} FiresStep(length: uint64, ticks: seq<uint64>)
    requires length > 0 && ticks != [] && NoOverflow(length, ticks)
    ensures After(length, ticks).1 == Min(After(length, Front(ticks)).1 + 1, Sum(ticks) / length)
  {
    var (i, fires) := After(length, Front(ticks));
    TicksConserved(length, Front(ticks));
    assert (fires + 1) * length == fires * length + length;
    QuotientAtLeast(Sum(ticks), fires + 1, length);
    QuotientAtLeast(Sum(ticks), fires, length);
  }

  /** The most often it can have fired if it was on time after the first `j` ticks. */
  function MostFires(length: uint64, ticks: seq<uint64>, j: nat): nat
    requires length > 0 && j <= |ticks|
  {
    Sum(ticks[..j]) / length + (|ticks| - j)
  }

  lemma MostFiresFront(length: uint64, ticks: seq<uint64>, j: nat)
    requires length > 0 && j < |ticks|
    ensures MostFires(length, ticks, j) == MostFires(length, Front(ticks), j) + 1
  {
    assert ticks[..j] == Front(ticks)[..j];
  }

  lemma MostFiresNow(length: uint64, ticks: seq<uint64>)
    requires length > 0
    ensures MostFires(length, ticks, |ticks|) == Sum(ticks) / length
  {
    assert ticks[..|ticks|] == ticks;
  }

  /** The closed form for any tick sizes: after n ticks with running totals S_0, ..., S_n the
      interval has fired as often as the least of S_j / length + (n - j). */
  lemma {:induction false} FiresClosedForm(length: uint64, ticks: seq<uint64>)
    requires length > 0 && NoOverflow(length, ticks)
    ensures var fires := After(length, ticks).1;
            && (forall j :: 0 <= j <= |ticks| ==> fires <= MostFires(length, ticks, j))
            && (exists j :: 0 <= j <= |ticks| && fires == MostFires(length, ticks, j))
  {
    MostFiresNow(length, ticks);
    if ticks != [] {
      var n, front, fires := |ticks|, Front(ticks), After(length, ticks).1;
      FiresClosedForm(length, front);
      FiresStep(length, ticks);
      hide After, Sum, MostFires;
      forall j | 0 <= j <= n ensures fires <= MostFires(length, ticks, j) {
        if j < n { MostFiresFront(length, ticks, j); }
      }
      if fires != Sum(ticks) / length {
        var j :| 0 <= j <= |front| && After(length, front).1 == MostFires(length, front, j);
        MostFiresFront(length, ticks, j);
        assert fires == MostFires(length, ticks, j);
      } else {
        assert fires == MostFires(length, ticks, n);
      }
    }
  }

  /** An interval is on time exactly if after no earlier tick it was too far behind to catch up by
      firing at every tick since. */
  lemma {:induction false} OnTimeExactly(length: uint64, ticks: seq<uint64>)
    requires length > 0 && NoOverflow(length, ticks)
    ensures After(length, ticks).1 == Sum(ticks) / length <==>
            forall j :: 0 <= j <= |ticks| ==> Sum(ticks) / length <= MostFires(length, ticks, j)
  {
    hide After, Sum, MostFires, NoOverflow;
    FiresClosedForm(length, ticks);
    MostFiresNow(length, ticks);
  }

  lemma {:induction false} SumIsElapsed(ops: seq<Op>)
    ensures Sum(Ticks(ops)) == Elapsed(ops)
  {
    if ops != [] {
      SumIsElapsed(Front(ops));
      var before, ticks := Ticks(Front(ops)), Ticks(ops);
      if Last(ops).Tick? {
        assert ticks == before + [Last(ops).inc] && Front(ticks) == before;
      } else {
        assert ticks == before;
      }
    }
  }

  /** All of an interval's submissions in any run of less than 2^64 ticks: their number in closed
      form, and exactly when it is the number of lengths that have passed. */
  lemma {:induction false} IntervalSubmissions(s: Sched, length: uint64, ops: seq<Op>)
    requires s.nextId + 1 + IdsTaken(ops) < WORD && ClearInterval(s.nextId) !in ops
    requires length > 0 && Elapsed(ops) < WORD
    ensures var id, ticks := s.nextId, Ticks(ops);
            var s' := Run(Apply(s, SetInterval(length)), ops);
            var fires := After(length, ticks).1;
            && s'.submitted[OfInterval(id)] == s.submitted[OfInterval(id)] + fires
            && (forall j :: 0 <= j <= |ticks| ==> fires <= MostFires(length, ticks, j))
            && (exists j :: 0 <= j <= |ticks| && fires == MostFires(length, ticks, j))
            && (fires == Elapsed(ops) / length <==>
                forall j :: 0 <= j <= |ticks| ==> Elapsed(ops) / length <= MostFires(length, ticks, j))
  {
    hide Apply, After, Sum, MostFires, NoOverflow;
    var ticks := Ticks(ops);
    SumIsElapsed(ops);
    SmallSumNoOverflow(length, ticks);
    IntervalFollowsTicks(s, length, ops);
    FiresClosedForm(length, ticks);
    OnTimeExactly(length, ticks);
  }

  lemma QuotientStep(x: nat, y: nat, d: nat)
    requires d > 0 && x <= y <= x + d
    ensures x / d <= y / d <= x / d + 1
  {
    var q := x / d;
    QuotientAtLeast(x, q, d);
    QuotientAtLeast(x, q + 1, d);
    QuotientAtLeast(y, q, d);
    QuotientAtLeast(y, q + 2, d);
    assert (q + 2) * d == (q + 1) * d + d;
  }

  /** If no tick is longer than the interval, none of its firings is late. */
  lemma {:induction false} ShortTicksFireOnTime(length: uint64, ticks: seq<uint64>)
    requires length > 0 && NoOverflow(length, ticks)
    requires forall k :: 0 <= k < |ticks| ==> ticks[k] <= length
    ensures After(length, ticks).1 == Sum(ticks) / length
  {
    if ticks != [] {
      ShortTicksFireOnTime(length, Front(ticks));
      FiresStep(length, ticks);
      assert Last(ticks) <= length;
      QuotientStep(Sum(Front(ticks)), Sum(ticks), length);
    } else {
      assert Sum(ticks) / length == 0;
    }
  }

  lemma {:induction false} TicksOf(ops: seq<Op>, bound: uint64)
    requires forall op | op in ops :: op.Tick? ==> op.inc <= bound
    ensures forall k :: 0 <= k < |Ticks(ops)| ==> Ticks(ops)[k] <= bound
  {
    if ops != [] {
      assert Last(ops) in ops;
      TicksOf(Front(ops), bound);
    }
  }

  /** In any run without long ticks an interval of at most 2^63 is submitted once for each of its
      lengths that has passed, for however many turns of the clock it goes on. */
  lemma {:induction false} ShortTicksSubmissions(s: Sched, length: uint64, ops: seq<Op>)
    requires s.nextId + 1 + IdsTaken(ops) < WORD && ClearInterval(s.nextId) !in ops
    requires 0 < length && 2 * length <= WORD
    requires forall op | op in ops :: op.Tick? ==> op.inc <= length
    ensures Run(Apply(s, SetInterval(length)), ops).submitted[OfInterval(s.nextId)] ==
            s.submitted[OfInterval(s.nextId)] + Elapsed(ops) / length
  {
    hide Apply, After, Sum, NoOverflow;
    TicksOf(ops, length);
    SumIsElapsed(ops);
    ShortTicksNoOverflow(length, Ticks(ops));
    ShortTicksFireOnTime(length, Ticks(ops));
    IntervalFollowsTicks(s, length, ops);
  }

  /** One tick of three fires an interval of one once, not three times. */
  lemma {:induction false} LongTickFiresLate()
    ensures After(1, [3]).1 == 1 && Sum([3]) / 1 == 3 && NoOverflow(1, [3])
  {
    assert Front([3]) == [] && Last([3]) == 3;
    assert After(1, []) == (Interval(0, 1), 0);
  }

  /** An interval of length zero fires at every tick. */
  lemma {:induction false} ZeroLengthFiresAlways(ticks: seq<uint64>)
    ensures After(0, ticks).1 == |ticks| && After(0, ticks).0.time == Sum(ticks) % WORD
    ensures After(0, ticks).0.interval == 0
  {
    if ticks != [] {
      ZeroLengthFiresAlways(Front(ticks));
    }
  }
}
