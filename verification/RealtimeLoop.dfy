/**
 The release schedule of the realtime loop: deadlines on a grid of one period, releases that
 were missed are skipped and counted, and sums are saturated at the largest 64-bit time.
 The clock readings and the outcome of the sleep are inputs.
 */
module RealtimeLoop {
  newtype int64 = x: int | -0x8000_0000_0000_0000 <= x < 0x8000_0000_0000_0000

  const MAX_TIME: int := 0x7FFF_FFFF_FFFF_FFFF

  // ----- Specification ----------------------------------------------------

  /** How the sleep until the deadline ended, after any interruptions. */
  datatype Wake = Slept(start: int) | SleepFailed

  /** `first` is the first deadline of the schedule, kept for the statements below only. */
  datatype Schedule = Schedule(
    period: int,
    started: bool,
    first: int,
    next: int,
    cycles: nat,
    failures: nat,
    skipped: nat,
    misses: nat)

  function Fresh(period: int): Schedule {
    Schedule(period, false, 0, 0, 0, 0, 0, 0)
  }

  predicate Time(t: int) {
    0 <= t <= MAX_TIME
  }

  function Saturate(t: int): int {
    if t > MAX_TIME then MAX_TIME else t
  }

  /** Whole periods from `from` until the first one that is later than `t`. */
  function PeriodsPast(from: int, t: int, period: int): int
    requires period > 0
  {
    if from <= t then (t - from) / period + 1 else 0
  }

  /** The length of `k` periods. */
  function Span(k: int, period: int): int {
    k * period
  }

  function Lesser(a: int, b: int): int {
    if a < b then a else b
  }

  /** The deadline before late releases are skipped. */
  function Due(s: Schedule, now: int): int {
    Saturate((if s.started then s.next else now) + s.period)
  }

  function Wait(s: Schedule, now: int, wake: Wake): (r: Schedule)
    requires s.period > 0
  {
    var due := Due(s, now);
    var late := PeriodsPast(due, now, s.period);
    var room := (MAX_TIME - due) / s.period;
    s.(started := true,
       first := if s.started then s.first else due,
       next := due + Span(Lesser(late, room), s.period),
       skipped := s.skipped + if late > 0 then late else 0,
       cycles := if wake.Slept? then s.cycles + 1 else s.cycles,
       failures := if wake.Slept? then s.failures else s.failures + 1)
  }

  function Missed(s: Schedule, finish: int): int
    requires s.period > 0
  {
    var release := Saturate(s.next + s.period);
    if finish > release then (finish - release) / s.period + 1 else 0
  }

  function Finish(s: Schedule, finish: int): Schedule
    requires s.period > 0
  {
    if s.started then s.(misses := s.misses + if Missed(s, finish) > 0 then Missed(s, finish) else 0) else s
  }

  datatype Action = DoWait(now: int, wake: Wake) | DoFinish(finish: int)

  function Apply(s: Schedule, action: Action): (r: Schedule)
    requires s.period > 0
    ensures r.period == s.period
  {
    match action
    case DoWait(now, wake) => Wait(s, now, wake)
    case DoFinish(finish) => Finish(s, finish)
  }

  function After(period: int, actions: seq<Action>, n: nat): (s: Schedule)
    requires period > 0 && n <= |actions|
    ensures s.period == period
  {
    if n == 0 then Fresh(period) else Apply(After(period, actions, n - 1), actions[n - 1])
  }

  predicate NonNegative(actions: seq<Action>) {
    forall i :: 0 <= i < |actions| ==> Time(Reading(actions[i]))
  }

  function Reading(action: Action): int {
    if action.DoWait? then action.now else action.finish
  }

  // ----- Arithmetic of periods --------------------------------------------

  lemma SpanAdds(a: int, b: int, period: int)
    ensures Span(a + b, period) == Span(a, period) + Span(b, period)
    ensures Span(1, period) == period && Span(0, period) == 0
  {
  }

  lemma {:induction false} SpanGrows(a: int, b: int, period: int)
    requires period > 0 && a < b
    ensures Span(a, period) + period <= Span(b, period)
    decreases b - a
  {
    SpanAdds(b - 1, 1, period);
    if a < b - 1 {
      SpanGrows(a, b - 1, period);
    }
  }

  lemma Quotient(x: int, period: int)
    requires period > 0 && x >= 0
    ensures x / period >= 0
    ensures Span(x / period, period) <= x < Span(x / period, period) + period
  {
  }

  lemma {:induction false} SpanIsAtLeast(k: int, period: int)
    requires period > 0 && k >= 0
    ensures Span(k, period) >= k
    decreases k
  {
    SpanAdds(k - 1, 1, period);
    if k > 0 {
      SpanIsAtLeast(k - 1, period);
    }
  }

  lemma QuotientFits(x: int, period: int)
    requires period > 0 && x >= 0
    ensures 0 <= x / period <= x
  {
    Quotient(x, period);
    SpanIsAtLeast(x / period, period);
  }

  /** The count of late periods steps just beyond `t`. */
  lemma JustPast(from: int, t: int, period: int)
    requires period > 0
    ensures var k := PeriodsPast(from, t, period);
            && k >= 0 && (k == 0 <==> t < from)
            && t < from + Span(k, period)
            && (k > 0 ==> from + Span(k, period) - period <= t)
  {
    if from <= t {
      Quotient(t - from, period);
      SpanAdds((t - from) / period, 1, period);
    }
  }

  /** As many periods as there is room for end no later than the largest time, and one more would not. */
  lemma RoomIsExact(due: int, period: int, k: int)
    requires period > 0 && Time(due) && k >= 0
    ensures var room := (MAX_TIME - due) / period;
            var taken := Lesser(k, room);
            && 0 <= room && 0 <= Span(taken, period) <= Span(k, period)
            && due + Span(taken, period) <= MAX_TIME
            && (due + Span(k, period) <= MAX_TIME <==> taken == k)
            && (taken < k ==> Span(taken, period) < Span(k, period))
  {
    var room := (MAX_TIME - due) / period;
    Quotient(MAX_TIME - due, period);
    SpanAdds(0, 0, period);
    if k > 0 { SpanGrows(0, k, period); }
    if room > 0 { SpanGrows(0, room, period); }
    if k < room { SpanGrows(k, room, period); }
    if room < k { SpanGrows(room, k, period); }
  }

  // ----- The grid ---------------------------------------------------------

  /** The deadline the counters stand for: every wait moves one period on, every skipped release another. */
  function GridPoint(s: Schedule): int {
    s.first + Span(s.cycles + s.failures + s.skipped - 1, s.period)
  }

  /** On the grid exactly while the grid point is a 64-bit time; the deadline never passes it. */
  predicate OnGrid(s: Schedule) {
    && Time(s.next)
    && (s.started ==>
          && s.cycles + s.failures >= 1
          && s.next <= GridPoint(s)
          && (s.next == GridPoint(s) <==> GridPoint(s) <= MAX_TIME))
    && (!s.started ==> s.cycles + s.failures + s.skipped == 0)
  }

  lemma WaitMoves(s: Schedule, now: int, wake: Wake)
    requires s.period > 0 && Time(now) && Time(s.next)
    ensures var r, due := Wait(s, now, wake), Due(s, now);
            var late := PeriodsPast(due, now, s.period);
            && Time(due) && late >= 0 && Span(late, s.period) >= 0
            && (late == 0 <==> now < due)
            && Time(r.next) && due <= r.next <= due + Span(late, s.period)
            && (due + Span(late, s.period) <= MAX_TIME <==> r.next == due + Span(late, s.period))
            && now < due + Span(late, s.period)
            && (late > 0 ==> due + Span(late, s.period) - s.period <= now)
  {
    var due := Due(s, now);
    JustPast(due, now, s.period);
    RoomIsExact(due, s.period, PeriodsPast(due, now, s.period));
  }

  lemma WaitMovesGrid(s: Schedule, now: int, wake: Wake)
    requires s.period > 0 && Time(now) && OnGrid(s)
    ensures var late := PeriodsPast(Due(s, now), now, s.period);
            GridPoint(Wait(s, now, wake)) ==
              (if s.started then GridPoint(s) + s.period else Due(s, now)) + Span(late, s.period)
  {
    var late := PeriodsPast(Due(s, now), now, s.period);
    WaitMoves(s, now, wake);
    SpanAdds(1, late, s.period);
    SpanAdds(s.cycles + s.failures + s.skipped - 1, 1 + late, s.period);
    SpanAdds(0, late, s.period);
  }

  lemma WaitKeepsGrid(s: Schedule, now: int, wake: Wake)
    requires s.period > 0 && Time(now) && OnGrid(s)
    ensures OnGrid(Wait(s, now, wake))
    ensures GridPoint(Wait(s, now, wake)) > now
  {
    WaitMoves(s, now, wake);
    WaitMovesGrid(s, now, wake);
  }

  lemma {:induction false} RunOnGrid(period: int, actions: seq<Action>, n: nat)
    requires period > 0 && NonNegative(actions) && n <= |actions|
    ensures OnGrid(After(period, actions, n))
    decreases n
  {
    if n > 0 {
      RunOnGrid(period, actions, n - 1);
      var s, action := After(period, actions, n - 1), actions[n - 1];
      assert Time(Reading(action));
      if action.DoWait? {
        WaitKeepsGrid(s, action.now, action.wake);
      }
    }
  }

  lemma Commutes(k: int, period: int)
    ensures Span(k, period) == period * k
  {
  }

  /**
   In every run on non-negative readings the deadline is a 64-bit time, and it is the grid
   point its counters stand for exactly while that point is one.
   */
  lemma DeadlineIsOnGrid(period: int, actions: seq<Action>)
    requires period > 0 && NonNegative(actions)
    ensures var s := After(period, actions, |actions|);
            && Time(s.next)
            && (s.started ==>
                  (s.next == s.first + s.period * (s.cycles + s.failures + s.skipped - 1)
                   <==> s.first + s.period * (s.cycles + s.failures + s.skipped - 1) <= MAX_TIME))
  {
    RunOnGrid(period, actions, |actions|);
    var s := After(period, actions, |actions|);
    Commutes(s.cycles + s.failures + s.skipped - 1, s.period);
  }

  /**
   Each wait of a run leaves an unsaturated deadline that is later than the time it was called;
   if releases were skipped, it is the first grid point that is, and no release is skipped needlessly.
   */
  lemma DeadlineIsAhead(period: int, actions: seq<Action>, n: nat)
    requires period > 0 && NonNegative(actions) && n < |actions| && actions[n].DoWait?
    ensures var s, r, now := After(period, actions, n), After(period, actions, n + 1), actions[n].now;
            GridPoint(r) <= MAX_TIME ==>
              && r.next > now
              && (r.skipped > s.skipped ==> r.next - period <= now)
              && (r.skipped == s.skipped ==> r.next == if s.started then s.next + period else Saturate(now + period))
  {
    RunOnGrid(period, actions, n);
    RunOnGrid(period, actions, n + 1);
    var s, now, wake := After(period, actions, n), actions[n].now, actions[n].wake;
    assert Time(Reading(actions[n]));
    WaitMoves(s, now, wake);
    WaitMovesGrid(s, now, wake);
    SpanAdds(0, 0, period);
  }

  // ----- What the counters count ------------------------------------------

  /** The waits among the first `n` actions whose sleep ended as asked. */
  function WaitsEnding(actions: seq<Action>, n: nat, slept: bool): nat
    requires n <= |actions|
  {
    if n == 0 then 0
    else
      var a := actions[n - 1];
      WaitsEnding(actions, n - 1, slept) + if a.DoWait? && a.wake.Slept? == slept then 1 else 0
  }

  /** In every run `cycles` counts the waits that slept to their deadline and `failures` those that could not. */
  lemma {:induction false} WaitsAreCounted(period: int, actions: seq<Action>, n: nat)
    requires period > 0 && n <= |actions|
    ensures var s := After(period, actions, n);
            s.cycles == WaitsEnding(actions, n, true) && s.failures == WaitsEnding(actions, n, false)
    decreases n
  {
    if n > 0 {
      WaitsAreCounted(period, actions, n - 1);
    }
  }

  /** A finish misses the next release and every later one that it lies at or behind; on the release itself, none. */
  lemma MissesCountReleases(s: Schedule, finish: int)
    requires s.period > 0
    ensures var release, k := Saturate(s.next + s.period), Missed(s, finish);
            && (k > 0 <==> finish > release) && k >= 0
            && (k > 0 ==> release + Span(k - 1, s.period) <= finish < release + Span(k, s.period))
  {
    var release := Saturate(s.next + s.period);
    if finish > release {
      Quotient(finish - release, s.period);
      SpanAdds((finish - release) / s.period, 1, s.period);
    }
  }

  // ----- Misses are skipped -----------------------------------------------

  /** Readings never go back. */
  predicate Monotone(actions: seq<Action>) {
    forall i :: 0 <= i < |actions| - 1 ==> Reading(actions[i]) <= Reading(actions[i + 1])
  }

  function WaitCount(actions: seq<Action>, n: nat): nat
    requires n <= |actions|
  {
    if n == 0 then 0 else WaitCount(actions, n - 1) + if actions[n - 1].DoWait? then 1 else 0
  }

  /** Two finishes follow each other in a schedule that has started. */
  predicate FinishesTwice(actions: seq<Action>, i: nat)
    requires i < |actions|
  {
    i + 1 < |actions| && actions[i].DoFinish? && actions[i + 1].DoFinish? && WaitCount(actions, i) > 0
  }

  /** Between two waits there is at most one finish. */
  predicate OneFinishPerWait(actions: seq<Action>) {
    forall i, n :: 0 <= i && i + 1 < n < |actions| && FinishesTwice(actions, i) ==> actions[n].DoFinish?
  }

  lemma {:induction false} StartedMeansWaited(period: int, actions: seq<Action>, n: nat)
    requires period > 0 && n <= |actions|
    ensures After(period, actions, n).started <==> WaitCount(actions, n) > 0
    decreases n
  {
    if n > 0 {
      StartedMeansWaited(period, actions, n - 1);
    }
  }

  /** The misses of the finish just observed that no wait has skipped yet. */
  function Owed(s: Schedule, last: Action): int
    requires s.period > 0
  {
    if last.DoFinish? && s.started then Missed(s, last.finish) else 0
  }

  lemma FinishOwesNoMoreThanWaitSkips(s: Schedule, finish: int, now: int, wake: Wake)
    requires s.period > 0 && s.started && Time(s.next) && Time(finish) && finish <= now <= MAX_TIME
    ensures 0 <= Missed(s, finish) <= Wait(s, now, wake).skipped - s.skipped
  {
    var release := Due(s, now);
    JustPast(release, now, s.period);
    if finish > release {
      Quotient(finish - release, s.period);
      Quotient(now - release, s.period);
      var a, b := (finish - release) / s.period, (now - release) / s.period;
      if b < a {
        SpanGrows(b, a, s.period);
      }
    }
  }

  lemma {:induction false} MissesAreOwed(period: int, actions: seq<Action>, n: nat)
    requires period > 0 && NonNegative(actions) && Monotone(actions) && 0 < n <= |actions|
    requires forall i :: 0 <= i < n - 1 ==> !FinishesTwice(actions, i)
    ensures var s := After(period, actions, n);
            s.misses <= s.skipped + Owed(s, actions[n - 1]) && Owed(s, actions[n - 1]) >= 0
    decreases n
  {
    var s, action := After(period, actions, n - 1), actions[n - 1];
    RunOnGrid(period, actions, n - 1);
    assert Time(Reading(action));
    if n > 1 {
      MissesAreOwed(period, actions, n - 1);
      assert Time(Reading(actions[n - 2])) && Reading(actions[n - 2]) <= Reading(actions[n - 1]);
    }
    if action.DoWait? {
      WaitMoves(s, action.now, action.wake);
      if n > 1 && actions[n - 2].DoFinish? && s.started {
        FinishOwesNoMoreThanWaitSkips(s, actions[n - 2].finish, action.now, action.wake);
      }
    } else if s.started {
      FinishOwesNoMoreThanWaitSkips(s, action.finish, action.finish, SleepFailed);
      StartedMeansWaited(period, actions, n - 1);
      if n > 1 {
        assert !FinishesTwice(actions, n - 2);
      }
    }
  }

  /** With at most one finish between two waits, no more deadlines are missed than releases skipped. */
  lemma MissesNeverExceedSkips(period: int, actions: seq<Action>, n: nat)
    requires period > 0 && NonNegative(actions) && Monotone(actions) && OneFinishPerWait(actions)
    requires 0 < n <= |actions| && actions[n - 1].DoWait?
    ensures After(period, actions, n).misses <= After(period, actions, n).skipped
  {
    forall i | 0 <= i < n - 1
      ensures !FinishesTwice(actions, i)
    {
      assert actions[n - 1].DoWait?;
    }
    MissesAreOwed(period, actions, n);
  }

  // ----- More than one finish breaks the bound -----------------------------

  predicate BoundHolds(period: int, actions: seq<Action>)
    requires period > 0
  {
    forall n :: 0 < n <= |actions| && actions[n - 1].DoWait? ==>
      After(period, actions, n).misses <= After(period, actions, n).skipped
  }

  /** The same waits and finishes, read at other times. */
  predicate SameShape(a: seq<Action>, b: seq<Action>) {
    |a| == |b| && forall i :: 0 <= i < |a| ==> a[i].DoWait? == b[i].DoWait?
  }

  function WithReading(action: Action, reading: int): Action {
    if action.DoWait? then action.(now := reading) else action.(finish := reading)
  }

  /** Time 0 for the first `p` actions, time `late` for the others. */
  function Retimed(actions: seq<Action>, p: nat, late: int): (r: seq<Action>)
    ensures SameShape(actions, r)
    ensures forall k :: 0 <= k < |r| ==> Reading(r[k]) == if k < p then 0 else late
  {
    seq(|actions|, k requires 0 <= k < |actions| => WithReading(actions[k], if k < p then 0 else late))
  }

  lemma {:induction false} SameCount(a: seq<Action>, b: seq<Action>, n: nat)
    requires SameShape(a, b) && n <= |a|
    ensures WaitCount(a, n) == WaitCount(b, n)
    decreases n
  {
    if n > 0 {
      SameCount(a, b, n - 1);
    }
  }

  lemma {:induction false} CountGrows(actions: seq<Action>, m: nat, n: nat)
    requires m <= n <= |actions|
    ensures WaitCount(actions, m) <= WaitCount(actions, n)
    decreases n
  {
    if m < n {
      CountGrows(actions, m, n - 1);
    }
  }

  /** One period later than `k` waits at time 0 is still a time. */
  predicate Room(k: nat, period: int) {
    Span(k + 1, period) < MAX_TIME
  }

  lemma RoomShrinks(m: nat, n: nat, period: int)
    requires period > 0 && m <= n && Room(n, period)
    ensures Room(m, period)
  {
    if m < n {
      SpanGrows(m + 1, n + 1, period);
    }
  }

  lemma WaitAtZero(s: Schedule, wake: Wake, w: nat)
    requires s.period > 0 && Room(w, s.period)
    requires s.started == (w > 0) && (s.started ==> s.next == Span(w, s.period))
    ensures var r := Wait(s, 0, wake);
            r.started && r.next == Span(w + 1, s.period) && r.skipped == s.skipped && r.misses == s.misses
  {
    SpanAdds(w, 1, s.period);
    SpanGrows(0, w + 1, s.period);
    SpanAdds(0, 0, s.period);
    Quotient(MAX_TIME - Due(s, 0), s.period);
  }

  lemma FinishAtZero(s: Schedule, w: nat)
    requires s.period > 0 && Room(w, s.period) && (s.started ==> s.next == Span(w, s.period))
    ensures Finish(s, 0) == s
  {
    SpanAdds(w, 1, s.period);
    SpanAdds(0, 0, s.period);
    SpanGrows(0, w + 1, s.period);
  }

  /** As long as time stands at 0, nothing is late. */
  lemma {:induction false} NothingIsLateAtZero(period: int, actions: seq<Action>, n: nat)
    requires period > 0 && n <= |actions| && Room(WaitCount(actions, n), period)
    requires forall k :: 0 <= k < n ==> Reading(actions[k]) == 0
    ensures var s, w := After(period, actions, n), WaitCount(actions, n);
            s.started == (w > 0) && (s.started ==> s.next == Span(w, period)) && s.skipped == 0 && s.misses == 0
    decreases n
  {
    if n > 0 {
      var action, w := actions[n - 1], WaitCount(actions, n - 1);
      RoomShrinks(w, WaitCount(actions, n), period);
      NothingIsLateAtZero(period, actions, n - 1);
      assert Reading(action) == 0;
      if action.DoWait? {
        WaitAtZero(After(period, actions, n - 1), action.wake, w);
      } else {
        FinishAtZero(After(period, actions, n - 1), w);
      }
    }
  }

  /** The misses that one finish just after the next release counts, and the releases a wait skips there. */
  function LateBy(period: int): int
    requires period > 0
  {
    1 / period + 1
  }

  lemma FinishIsLate(s: Schedule, w: nat)
    requires s.period > 0 && s.started && s.next == Span(w, s.period) && Room(w, s.period)
    ensures Finish(s, Span(w + 1, s.period) + 1) == s.(misses := s.misses + LateBy(s.period)) && LateBy(s.period) >= 1
  {
    SpanAdds(w, 1, s.period);
    Quotient(1, s.period);
  }

  lemma WaitIsLate(s: Schedule, wake: Wake, w: nat)
    requires s.period > 0 && s.started && s.next == Span(w, s.period) && Room(w, s.period) && w > 0
    ensures var r := Wait(s, Span(w + 1, s.period) + 1, wake);
            r.skipped == s.skipped + LateBy(s.period) && r.misses == s.misses && LateBy(s.period) >= 1
  {
    SpanAdds(w, 1, s.period);
    Quotient(1, s.period);
  }

  /** Finishes from action `p` on, all just after the next release: each counts the same releases again. */
  lemma {:induction false} EachFinishCountsAgain(period: int, actions: seq<Action>, p: nat, n: nat)
    requires period > 0 && p <= n <= |actions|
    requires var w := WaitCount(actions, p);
             && w > 0 && Room(w, period)
             && (forall k :: 0 <= k < p ==> Reading(actions[k]) == 0)
             && forall k :: p <= k < n ==> actions[k].DoFinish? && Reading(actions[k]) == Span(w + 1, period) + 1
    ensures var s, w, c := After(period, actions, n), WaitCount(actions, p), LateBy(period);
            && s.started && s.next == Span(w, period) && s.skipped == 0 && c >= 1
            && s.misses >= (if n == p then 0 else if n == p + 1 then c else c + c)
    decreases n
  {
    if n == p {
      NothingIsLateAtZero(period, actions, n);
      Quotient(1, period);
    } else {
      EachFinishCountsAgain(period, actions, p, n - 1);
      assert actions[n - 1].DoFinish? && Reading(actions[n - 1]) == Span(WaitCount(actions, p) + 1, period) + 1;
      FinishIsLate(After(period, actions, n - 1), WaitCount(actions, p));
    }
  }

  lemma {:induction false} LastWait(actions: seq<Action>, i: nat) returns (p: nat)
    requires i <= |actions| && WaitCount(actions, i) > 0
    ensures p < i && actions[p].DoWait? && forall k :: p < k < i ==> actions[k].DoFinish?
    decreases i
  {
    if actions[i - 1].DoWait? {
      p := i - 1;
    } else {
      p := LastWait(actions, i - 1);
    }
  }

  lemma {:induction false} FirstWait(actions: seq<Action>, i: nat, n: nat) returns (q: nat)
    requires i <= n < |actions| && actions[n].DoWait?
    ensures i <= q <= n && actions[q].DoWait? && forall k :: i <= k < q ==> actions[k].DoFinish?
    decreases n - i
  {
    if actions[i].DoWait? {
      q := i;
    } else {
      q := FirstWait(actions, i + 1, n);
    }
  }

  lemma RetimedIsOrdered(actions: seq<Action>, p: nat, late: int)
    requires Time(late)
    ensures NonNegative(Retimed(actions, p, late)) && Monotone(Retimed(actions, p, late))
  {
  }

  /** Whatever has two finishes between two waits can be timed so that the bound breaks. */
  lemma SecondFinishBreaksTheBound(period: int, shape: seq<Action>, i: nat, n: nat) returns (actions: seq<Action>)
    requires period > 0 && Room(WaitCount(shape, |shape|), period)
    requires i + 1 < n < |shape| && FinishesTwice(shape, i) && shape[n].DoWait?
    ensures SameShape(shape, actions) && NonNegative(actions) && Monotone(actions) && !BoundHolds(period, actions)
  {
    var p := LastWait(shape, i);
    var q := FirstWait(shape, i + 2, n);
    var w := WaitCount(shape, p + 1);
    CountGrows(shape, p + 1, |shape|);
    RoomShrinks(w, WaitCount(shape, |shape|), period);
    SpanGrows(0, w + 1, period);
    SpanAdds(0, 0, period);
    actions := Retimed(shape, p + 1, Span(w + 1, period) + 1);
    RetimedIsOrdered(shape, p + 1, Span(w + 1, period) + 1);
    SameCount(shape, actions, p + 1);
    EachFinishCountsAgain(period, actions, p + 1, q);
    WaitIsLate(After(period, actions, q), actions[q].wake, w);
    assert After(period, actions, q + 1) == Apply(After(period, actions, q), actions[q]);
  }

  /**
   Exactly when misses are bounded by skips: the bound holds after every wait, however the waits
   and finishes are timed on a monotone clock, if and only if no two finishes fall between two waits.
   */
  lemma BoundIsExact(period: int, shape: seq<Action>)
    requires period > 0 && Room(WaitCount(shape, |shape|), period)
    ensures (forall actions: seq<Action> ::
               SameShape(shape, actions) && NonNegative(actions) && Monotone(actions) ==> BoundHolds(period, actions))
            <==> OneFinishPerWait(shape)
  {
    if OneFinishPerWait(shape) {
      forall actions: seq<Action> | SameShape(shape, actions) && NonNegative(actions) && Monotone(actions)
        ensures BoundHolds(period, actions)
      {
        SameAlternation(shape, actions);
        forall n | 0 < n <= |actions| && actions[n - 1].DoWait?
          ensures After(period, actions, n).misses <= After(period, actions, n).skipped
        {
          MissesNeverExceedSkips(period, actions, n);
        }
      }
    } else {
      var i, n :| 0 <= i && i + 1 < n < |shape| && FinishesTwice(shape, i) && !shape[n].DoFinish?;
      var actions := SecondFinishBreaksTheBound(period, shape, i, n);
    }
  }

  lemma SameAlternation(a: seq<Action>, b: seq<Action>)
    requires SameShape(a, b) && OneFinishPerWait(a)
    ensures OneFinishPerWait(b)
  {
    forall i, n | 0 <= i && i + 1 < n < |b| && FinishesTwice(b, i)
      ensures b[n].DoFinish?
    {
      SameCount(a, b, i);
      assert FinishesTwice(a, i);
      assert a[n].DoFinish?;
    }
  }

  /** Two finishes in a row, written out: two misses and one skipped release. */
  lemma RepeatedFinishBreaksTheBound()
    ensures var actions := [DoWait(0, Slept(10)), DoFinish(21), DoFinish(21), DoWait(21, Slept(30))];
            && NonNegative(actions) && Monotone(actions) && !OneFinishPerWait(actions)
            && After(10, actions, 4).misses == 2 && After(10, actions, 4).skipped == 1
  {
    var actions := [DoWait(0, Slept(10)), DoFinish(21), DoFinish(21), DoWait(21, Slept(30))];
    assert After(10, actions, 1) == Schedule(10, true, 10, 10, 1, 0, 0, 0);
    assert After(10, actions, 2) == Schedule(10, true, 10, 10, 1, 0, 0, 1);
    assert After(10, actions, 3) == Schedule(10, true, 10, 10, 1, 0, 0, 2);
    assert WaitCount(actions, 1) == 1 && FinishesTwice(actions, 1) && actions[3].DoWait?;
  }

  // ----- The loop object --------------------------------------------------

  function SaturatingAdd(value: int64, increment: int64): (r: int64)
    requires value as int + increment as int >= -0x8000_0000_0000_0000
    ensures r as int == Saturate(value as int + increment as int)
  {
    if increment > 0 && value > 0x7FFF_FFFF_FFFF_FFFF - increment then 0x7FFF_FFFF_FFFF_FFFF else value + increment
  }

  function PeriodsIn(x: int64, period: int64): (r: int64)
    requires x >= 0 && period > 0
    ensures r as int == x as int / period as int && r >= 0
  {
    QuotientFits(x as int, period as int);
    x / period
  }

  function Length(k: int64, period: int64): (r: int64)
    requires 0 <= Span(k as int, period as int) <= MAX_TIME
    ensures r as int == Span(k as int, period as int)
  {
    k * period
  }

  /** Times are 64-bit integers: that no sum, difference or product overflows is part of the proof. */
  class Loop {
    const period: int64
    var started: bool
    ghost var first: int
    var next: int64
    var previousStart: int64
    var currentStart: int64
    var cycles: nat
    var failures: nat
    var skipped: nat
    var misses: nat
    var actualPeriod: int64
    var wakeLatency: int64
    var wakeLatencyMaximum: int64
    var executionTime: int64
    var executionTimeMaximum: int64

    ghost predicate Valid()
      reads this
    {
      period > 0 && next >= 0 && previousStart >= 0 && currentStart >= 0
    }

    ghost function View(): Schedule
      reads this
    {
      Schedule(period as int, started, first, next as int, cycles, failures, skipped, misses)
    }

    constructor (period: int64)
      requires period > 0
      ensures Valid() && View() == Fresh(period as int)
    {
      this.period := period;
      started, first, next, previousStart, currentStart := false, 0, 0, 0, 0;
      cycles, failures, skipped, misses := 0, 0, 0, 0;
      actualPeriod, wakeLatency, wakeLatencyMaximum := 0, 0, 0;
      executionTime, executionTimeMaximum := 0, 0;
    }

    /** Skip the releases that are not later than `now`. */
    method SkipLate(now: int64)
      requires Valid() && 0 <= next <= now
      modifies this`next, this`skipped
      ensures Valid()
      ensures var due := old(next) as int;
              var late, room := PeriodsPast(due, now as int, period as int), (MAX_TIME - due) / period as int;
              next as int == due + Span(Lesser(late, room), period as int) && skipped == old(skipped) + late
    {
      var late := PeriodsIn(now - next, period) as int + 1;
      var room := PeriodsIn(0x7FFF_FFFF_FFFF_FFFF - next, period);
      var increments := if late < room as int then late as int64 else room;
      RoomIsExact(next as int, period as int, late);
      assert increments as int == Lesser(late, room as int);
      next := next + Length(increments, period);
      skipped := skipped + late;
    }

    method AdvanceDeadline(now: int64)
      requires Valid() && now >= 0
      modifies this`started, this`first, this`next, this`skipped
      ensures Valid()
      ensures var r := Wait(old(View()), now as int, SleepFailed);
              started && first == r.first && next as int == r.next && skipped == r.skipped
    {
      ghost var before := View();
      WaitMoves(before, now as int, SleepFailed);
      SpanAdds(0, 0, period as int);
      next := SaturatingAdd(if started then next else now, period);
      first := if started then first else next as int;
      started := true;
      if next <= now {
        SkipLate(now);
      }
    }

    /** The sleep is repeated until it ends otherwise than by an interruption. */
    method SleepUninterrupted(sleeps: seq<int>) returns (error: int)
      requires EndsAtLast(sleeps)
      ensures error == sleeps[|sleeps| - 1]
    {
      var i := 0;
      error := sleeps[0];
      while error == INTERRUPTED
        invariant 0 <= i < |sleeps| && error == sleeps[i]
        decreases |sleeps| - i
      {
        i := i + 1;
        error := sleeps[i];
      }
    }

    /** `sleeps` are the results of the sleeps in turn; `start` is the time read after one that did not fail. */
    method WaitNext(now: int64, sleeps: seq<int>, start: int64) returns (sequence: nat, deadline: int64, error: int)
      requires Valid() && now >= 0 && start >= 0 && EndsAtLast(sleeps)
      modifies this
      ensures Valid()
      ensures error == sleeps[|sleeps| - 1] && sequence == old(cycles) + 1 && deadline == next
      ensures View() == Wait(old(View()), now as int, if error == 0 then Slept(start as int) else SleepFailed)
      ensures error == 0 ==>
                && wakeLatency as int == Positive(start as int - next as int)
                && wakeLatencyMaximum == Greater(old(wakeLatencyMaximum), wakeLatency)
                && previousStart == currentStart == start
      ensures error == 0 && old(cycles) != 0 ==> actualPeriod as int == start as int - old(previousStart) as int
    {
      AdvanceDeadline(now);
      error := SleepUninterrupted(sleeps);
      sequence, deadline := cycles + 1, next;
      if error != 0 {
        failures := failures + 1;
        return;
      }
      if cycles != 0 {
        actualPeriod := start - previousStart;
      }
      previousStart, currentStart := start, start;
      wakeLatency := if start > next then start - next else 0;
      wakeLatencyMaximum := Greater(wakeLatencyMaximum, wakeLatency);
      cycles := cycles + 1;
    }

    method ObserveFinish(finish: int64)
      requires Valid() && finish >= 0
      modifies this
      ensures Valid()
      ensures View() == Finish(old(View()), finish as int)
      ensures old(started) ==>
                && executionTime as int == Positive(finish as int - old(currentStart) as int)
                && executionTimeMaximum == Greater(old(executionTimeMaximum), executionTime)
    {
      if !started {
        return;
      }
      executionTime := if finish > currentStart then finish - currentStart else 0;
      executionTimeMaximum := Greater(executionTimeMaximum, executionTime);
      var release := SaturatingAdd(next, period);
      if finish > release {
        misses := misses + PeriodsIn(finish - release, period) as int + 1;
      }
    }
  }

  function Positive(x: int): int {
    if x > 0 then x else 0
  }

  function Greater(a: int64, b: int64): int64 {
    if a < b then b else a
  }

  /** EINTR. */
  const INTERRUPTED := 4

  /** Every sleep but the last was interrupted. */
  predicate EndsAtLast(sleeps: seq<int>) {
    sleeps != [] && sleeps[|sleeps| - 1] != INTERRUPTED
    && forall i :: 0 <= i < |sleeps| - 1 ==> sleeps[i] == INTERRUPTED
  }
}
