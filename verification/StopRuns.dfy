/** How an axis stops, restarts and shuts down, over every run. */
module StopRuns {
  import opened Cia402
  import opened SafetySupervisor
  import opened SafetyRuns

  // ----- One cycle of the stop phase --------------------------------------

  /** The drive's speed, whatever its direction, is within the threshold. */
  predicate Standstill(options: Options, pdo: Pdo) {
    var velocity: int := pdo.actualVelocity;
    (if velocity < 0 then -velocity else velocity) <= options.zeroVelocityThreshold
  }

  predicate StopOverdue(options: Options, state: AxisState, now: int) {
    state.stopStarted <= now && state.stopStarted + options.safeStopTimeout <= now
  }

  /** The only moves of the stop phase, with the request each one goes with. */
  ghost predicate PhaseMove(options: Options, sequence: nat, from: AxisState, to: AxisState,
                            request: AxisRequest, pdo: Pdo, now: int)
  {
    match from.phase
    case Running =>
      to.phase == Running
      || (to.phase == Stopping && to.stopStarted == now && to.zeroCycles == 0
          && to.stoppedSequence == sequence && request in {QuickStop, FaultReset})
    case Stopping =>
      && to.stopStarted == from.stopStarted
      && to.stoppedSequence == from.stoppedSequence
      && if request == FaultReset then to.phase == Stopping && to.zeroCycles == from.zeroCycles
         else
           && to.zeroCycles == (if Standstill(options, pdo) then from.zeroCycles + 1 else 0)
           && if to.zeroCycles >= options.zeroVelocityCycles || StopOverdue(options, from, now)
              then to.phase == Disabled && request == Disable
              else to.phase == Stopping && request == QuickStop
    case Disabled =>
      (to.phase == Disabled && to.stoppedSequence == from.stoppedSequence && request in {Disable, FaultReset})
      || (to.phase == Running && request == Enable && sequence > from.stoppedSequence)
  }

  lemma DecideMoves(options: Options, s: State, assessed: AxisState, requested: AxisRequest,
                    reasons: set<Reason>, triggered: bool, pdo: Pdo, now: int)
    ensures var v := Decide(options, s, assessed, requested, reasons, triggered, pdo, now);
            PhaseMove(options, s.lastSequence, assessed, v.state, v.request, pdo, now)
  {
  }

  lemma RobotMoves(env: Env, r: Robot, e: Event, i: nat)
    requires Shaped(env, r) && Drives(env, e) && i < |env.configs|
    ensures Step(env, r, e).sup.lastSequence == r.sup.lastSequence
    ensures PhaseMove(env.options, r.sup.lastSequence, r.sup.axes[i], Step(env, r, e).sup.axes[i],
                      SupervisorOutput(env, r, e).requests[i], e.pdos[i], e.now)
  {
    SupervisorMoves(env, r.sup, e.bus, e.pdos, e.now, i);
  }

  lemma SupervisorMoves(env: Env, s: State, bus: Bus, pdos: seq<Pdo>, now: int, i: nat)
    requires i < |s.axes| == |s.commands| == |env.configs| == |pdos|
    ensures var (s', out) := Evaluate(env, s, bus, pdos, now);
            s'.lastSequence == s.lastSequence
            && PhaseMove(env.options, s.lastSequence, s.axes[i], s'.axes[i], out.requests[i], pdos[i], now)
  {
    var a := Assessments(env, s, bus, pdos, now);
    DecideMoves(env.options, s, a[i].state, Requested(s, i), FinalReasons(env, a, i), FinalTrigger(env, a, i),
                pdos[i], now);
    SamePhaseMoves(env.options, s.lastSequence, a[i].state, s.axes[i], VerdictFor(env, s, a, pdos[i], now, i),
                   a[i].target,
                   pdos[i], now);
  }

  /** The assessment touches nothing that the stop phase depends on, and neither does remembering the target. */
  lemma SamePhaseMoves(options: Options, sequence: nat, assessed: AxisState, from: AxisState, verdict: Verdict,
                       target: TargetEvaluation, pdo: Pdo, now: int)
    requires PhaseMove(options, sequence, assessed, verdict.state, verdict.request, pdo, now)
    requires from.phase == assessed.phase && from.stopStarted == assessed.stopStarted
    requires from.zeroCycles == assessed.zeroCycles && from.stoppedSequence == assessed.stoppedSequence
    ensures PhaseMove(options, sequence, from, Remember(verdict, target), verdict.request, pdo, now)
  {
  }

  // ----- The trace of one axis --------------------------------------------

  /** One axis before an event, and, when the event is a driven cycle, what it was told and shown. */
  datatype Moment =
    | Idle(state: AxisState, sequence: nat)
    | Driven(state: AxisState, sequence: nat, request: AxisRequest, pdo: Pdo, now: int)

  function MomentOf(env: Env, events: seq<Event>, i: nat, k: nat): Moment
    requires |env.configs| <= MAX_AXES && k <= |events| && i < |env.configs|
  {
    var r := At(env, events, k);
    if k < |events| && Drives(env, events[k])
    then Driven(r.sup.axes[i], r.sup.lastSequence, SupervisorOutput(env, r, events[k]).requests[i],
                events[k].pdos[i], events[k].now)
    else Idle(r.sup.axes[i], r.sup.lastSequence)
  }

  /** The trace of axis `i`, with one moment before each event and one at the end. */
  function Trace(env: Env, events: seq<Event>, i: nat): (tr: seq<Moment>)
    requires |env.configs| <= MAX_AXES && i < |env.configs|
    ensures |tr| == |events| + 1
  {
    seq(|events| + 1, k requires 0 <= k <= |events| => MomentOf(env, events, i, k))
  }

  ghost predicate MomentMove(options: Options, m: Moment, next: Moment) {
    && m.sequence <= next.sequence
    && (m.Driven? ==>
          && next.sequence == m.sequence
          && PhaseMove(options, m.sequence, m.state, next.state, m.request, m.pdo, m.now))
    && (m.Idle? ==> next.state == m.state)
  }

  ghost predicate Moves(options: Options, tr: seq<Moment>) {
    forall k :: 0 <= k < |tr| - 1 ==> MomentMove(options, tr[k], tr[k + 1])
  }

  lemma {:induction false} CommandHistory(env: Env, events: seq<Event>, k: nat)
    requires |env.configs| <= MAX_AXES && k <= |events|
    ensures At(env, events, k).sup.hasCommand || At(env, events, k).sup.lastSequence == 0
  {
    if k > 0 {
      CommandHistory(env, events, k - 1);
    }
  }

  /** Every run leaves a trace that moves only as `MomentMove` allows. */
  lemma RunMoves(env: Env, events: seq<Event>, i: nat)
    requires |env.configs| <= MAX_AXES && i < |env.configs|
    ensures Moves(env.options, Trace(env, events, i))
  {
    var tr := Trace(env, events, i);
    forall k | 0 <= k < |tr| - 1
      ensures MomentMove(env.options, tr[k], tr[k + 1])
    {
      TraceMove(env, events, i, k);
    }
  }

  lemma TraceMove(env: Env, events: seq<Event>, i: nat, k: nat)
    requires |env.configs| <= MAX_AXES && i < |env.configs| && k < |events|
    ensures MomentMove(env.options, Trace(env, events, i)[k], Trace(env, events, i)[k + 1])
  {
    EventMoves(env, events, i, k);
    var m, next := MomentOf(env, events, i, k), MomentOf(env, events, i, k + 1);
    assert Trace(env, events, i)[k] == m && Trace(env, events, i)[k + 1] == next;
  }

  lemma EventMoves(env: Env, events: seq<Event>, i: nat, k: nat)
    requires |env.configs| <= MAX_AXES && i < |env.configs| && k < |events|
    ensures MomentMove(env.options, MomentOf(env, events, i, k), MomentOf(env, events, i, k + 1))
  {
    CommandHistory(env, events, k);
    if Drives(env, events[k]) {
      RobotMoves(env, At(env, events, k), events[k], i);
    } else {
      IdleStep(env, At(env, events, k), events[k]);
    }
  }

  lemma {:induction false} SequenceNeverFalls(options: Options, tr: seq<Moment>, j: nat, k: nat)
    requires Moves(options, tr) && j <= k < |tr|
    ensures tr[j].sequence <= tr[k].sequence
    decreases k
  {
    if j < k {
      SequenceNeverFalls(options, tr, j, k - 1);
      assert MomentMove(options, tr[k - 1], tr[k]);
    }
  }

  // ----- Restarting after a stop ------------------------------------------

  ghost predicate LeavesRunning(tr: seq<Moment>, j: nat) {
    j + 1 < |tr| && tr[j].Driven? && tr[j].state.phase == Running && tr[j + 1].state.phase == Stopping
  }

  ghost predicate DisablesAt(tr: seq<Moment>, m: nat) {
    m < |tr| && tr[m].Driven? && tr[m].request == Disable
  }

  /** What is known of an axis at moment `k` when it left running at `j`. */
  ghost predicate SinceStop(tr: seq<Moment>, j: nat, k: nat)
    requires j < k < |tr|
  {
    var held, now := tr[j].sequence, tr[k];
    (now.state.phase == Stopping && now.state.stoppedSequence == held)
    || ((exists m :: j < m < k && DisablesAt(tr, m))
        && ((now.state.phase == Disabled && now.state.stoppedSequence == held) || now.sequence > held))
  }

  lemma {:induction false} SinceStopHolds(options: Options, tr: seq<Moment>, j: nat, k: nat)
    requires Moves(options, tr) && j < k < |tr| && LeavesRunning(tr, j)
    ensures SinceStop(tr, j, k)
    decreases k
  {
    assert MomentMove(options, tr[k - 1], tr[k]);
    if k > j + 1 {
      SinceStopHolds(options, tr, j, k - 1);
      if DisablesAt(tr, k - 1) {
        assert SinceStop(tr, j, k);
      }
    }
  }

  /**
   Once an axis leaves running, it is enabled again only after a disable output and
   only by a command newer than the one held when it stopped.
   */
  lemma RestartNeedsDisableAndNewCommand(env: Env, events: seq<Event>, i: nat, j: nat, k: nat)
    requires |env.configs| <= MAX_AXES && i < |env.configs| && j < k <= |events|
    ensures var tr := Trace(env, events, i);
            LeavesRunning(tr, j) && tr[k].Driven? && tr[k].request == Enable ==>
              (exists m :: j < m < k && DisablesAt(tr, m)) && tr[k].sequence > tr[j].sequence
  {
    RunMoves(env, events, i);
    var tr := Trace(env, events, i);
    if LeavesRunning(tr, j) && tr[k].Driven? && tr[k].request == Enable {
      TraceRestart(env.options, tr, j, k);
    }
  }

  lemma TraceRestart(options: Options, tr: seq<Moment>, j: nat, k: nat)
    requires Moves(options, tr) && j < k && k + 1 < |tr| && LeavesRunning(tr, j)
    requires tr[k].Driven? && tr[k].request == Enable
    ensures exists m :: j < m < k && DisablesAt(tr, m)
    ensures tr[k].sequence > tr[j].sequence
  {
    SinceStopHolds(options, tr, j, k);
    assert MomentMove(options, tr[k], tr[k + 1]);
  }

  // ----- When a stop may end in disable -----------------------------------

  /** The standstill observations of the evaluations from `j` up to `k` that were not fault resets. */
  function RestSamples(options: Options, tr: seq<Moment>, j: nat, k: nat): seq<bool>
    requires j <= k <= |tr|
    decreases k
  {
    if j == k then []
    else
      RestSamples(options, tr, j, k - 1)
      + if tr[k - 1].Driven? && tr[k - 1].request != FaultReset then [Standstill(options, tr[k - 1].pdo)] else []
  }

  ghost predicate EndsAtRest(samples: seq<bool>, count: nat) {
    count <= |samples| && forall t :: |samples| - count <= t < |samples| ==> samples[t]
  }

  /** `count` is the length of the whole stretch of standstill at the end. */
  ghost predicate RestCount(samples: seq<bool>, count: nat) {
    EndsAtRest(samples, count) && (count < |samples| ==> !samples[|samples| - 1 - count])
  }

  lemma RestCountDecides(samples: seq<bool>, count: nat, n: nat)
    requires RestCount(samples, count)
    ensures EndsAtRest(samples, n) <==> n <= count
  {
    if count < n <= |samples| {
      assert !samples[|samples| - 1 - count];
    }
  }

  lemma OneMoreSample(samples: seq<bool>, count: nat, rest: bool)
    requires RestCount(samples, count)
    ensures RestCount(samples + [rest], if rest then count + 1 else 0)
  {
  }

  ghost predicate StoppingThroughout(tr: seq<Moment>, j: nat, k: nat)
    requires j <= k < |tr|
  {
    forall t :: j < t <= k ==> tr[t].state.phase == Stopping
  }

  lemma {:induction false} StopCountsRest(options: Options, tr: seq<Moment>, j: nat, k: nat)
    requires Moves(options, tr) && j < k < |tr|
    requires LeavesRunning(tr, j) && StoppingThroughout(tr, j, k)
    ensures tr[k].state.stopStarted == tr[j].now
    ensures RestCount(RestSamples(options, tr, j + 1, k), tr[k].state.zeroCycles)
    decreases k
  {
    assert MomentMove(options, tr[k - 1], tr[k]);
    if k > j + 1 {
      StopCountsRest(options, tr, j, k - 1);
      var m := tr[k - 1];
      if m.Driven? && m.request != FaultReset {
        OneMoreSample(RestSamples(options, tr, j + 1, k - 1), m.state.zeroCycles, Standstill(options, m.pdo));
      }
    }
  }

  /** The stop that began at `j` has not ended before `m`. */
  ghost predicate NoDisableBetween(tr: seq<Moment>, j: nat, m: nat) {
    forall t :: j < t < m ==> !DisablesAt(tr, t)
  }

  /** Until its first disable, an axis that left running is stopping. */
  lemma StopsUntilDisable(options: Options, tr: seq<Moment>, j: nat, m: nat)
    requires Moves(options, tr) && j < m < |tr| && LeavesRunning(tr, j) && NoDisableBetween(tr, j, m)
    ensures StoppingThroughout(tr, j, m)
  {
    forall t | j < t <= m
      ensures tr[t].state.phase == Stopping
    {
      SinceStopHolds(options, tr, j, t);
    }
  }

  /** Rest was confirmed, or the safe-stop timeout has run since the stop began at `j`. */
  ghost predicate StopMayEnd(options: Options, tr: seq<Moment>, j: nat, m: nat)
    requires j < m < |tr| && tr[m].Driven? && tr[j].Driven?
  {
    || EndsAtRest(RestSamples(options, tr, j + 1, m + 1), options.zeroVelocityCycles)
    || (tr[m].now >= tr[j].now && tr[m].now - tr[j].now >= options.safeStopTimeout)
  }

  /**
   Exactly when a stop ends: of the evaluations after an axis left running at `j`, fault resets
   aside, the first disable is the first one at which the configured number of latest evaluations
   all saw standstill, or the safe-stop timeout has run since the stop began.
   */
  lemma DisableNeedsRestOrTimeout(env: Env, events: seq<Event>, i: nat, j: nat, m: nat)
    requires |env.configs| <= MAX_AXES && i < |env.configs| && j < m < |events|
    ensures var tr := Trace(env, events, i);
            LeavesRunning(tr, j) && NoDisableBetween(tr, j, m) && tr[m].Driven? && tr[m].request != FaultReset ==>
              (DisablesAt(tr, m) <==> StopMayEnd(env.options, tr, j, m))
  {
    RunMoves(env, events, i);
    var tr := Trace(env, events, i);
    if LeavesRunning(tr, j) && NoDisableBetween(tr, j, m) && tr[m].Driven? && tr[m].request != FaultReset {
      TraceDisable(env.options, tr, j, m);
    }
  }

  lemma TraceDisable(options: Options, tr: seq<Moment>, j: nat, m: nat)
    requires Moves(options, tr) && j < m && m + 1 < |tr|
    requires LeavesRunning(tr, j) && NoDisableBetween(tr, j, m) && tr[m].Driven? && tr[m].request != FaultReset
    ensures DisablesAt(tr, m) <==> StopMayEnd(options, tr, j, m)
  {
    StopsUntilDisable(options, tr, j, m);
    StopCountsRest(options, tr, j, m);
    assert MomentMove(options, tr[m], tr[m + 1]);
    var samples, rest := RestSamples(options, tr, j + 1, m), Standstill(options, tr[m].pdo);
    OneMoreSample(samples, tr[m].state.zeroCycles, rest);
    RestCountDecides(samples + [rest], tr[m + 1].state.zeroCycles, options.zeroVelocityCycles);
  }

  // ----- Shutdown ---------------------------------------------------------

  /** Under a shutdown request no axis runs, resets or restarts. */
  lemma ShutdownMove(env: Env, r: Robot, e: Event, i: nat)
    requires Shaped(env, r) && Drives(env, e) && i < |env.configs| && r.sup.shutdownRequested
    ensures var from, to := r.sup.axes[i], Step(env, r, e).sup.axes[i];
            var request := SupervisorOutput(env, r, e).requests[i];
            && to.phase != Running && request in {QuickStop, Disable}
            && (from.phase == Running ==> to.phase == Stopping && to.stopStarted == e.now)
            && (from.phase == Stopping ==> to.stopStarted == from.stopStarted)
            && (from.phase == Stopping && StopOverdue(env.options, from, e.now) ==> request == Disable)
            && (from.phase == Disabled ==> request == Disable)
            && (request == Disable <==> to.phase == Disabled)
  {
    var s, a := r.sup, Assessments(env, r.sup, e.bus, e.pdos, e.now);
    assert Shutdown in Assess(env, s, e.bus, e.pdos[i], e.now, i).reasons;
    assert a[i].trigger && SameGroup(env.configs, i, i) && Triggers(a)[i];
    assert FinalTrigger(env, a, i) && Shutdown in FinalReasons(env, a, i);
    ShutdownDecision(env.options, s, a[i].state, Requested(s, i), FinalReasons(env, a, i), e.pdos[i], e.now);
  }

  lemma ShutdownDecision(options: Options, s: State, from: AxisState, requested: AxisRequest,
                         reasons: set<Reason>, pdo: Pdo, now: int)
    requires reasons != {}
    ensures var v := Decide(options, s, from, requested, reasons, true, pdo, now);
            && v.state.phase != Running && v.request in {QuickStop, Disable}
            && (from.phase == Running ==> v.state.phase == Stopping && v.state.stopStarted == now)
            && (from.phase == Stopping ==> v.state.stopStarted == from.stopStarted)
            && (from.phase == Stopping && StopOverdue(options, from, now) ==> v.request == Disable)
            && (from.phase == Disabled ==> v.request == Disable)
            && (v.request == Disable <==> v.state.phase == Disabled)
  {
  }

  /** Every stop in progress began no later than `t`. */
  ghost predicate StoppedBy(r: Robot, t: int) {
    forall i :: 0 <= i < |r.sup.axes| && r.sup.axes[i].phase == Stopping ==> r.sup.axes[i].stopStarted <= t
  }

  ghost predicate NoneRunning(r: Robot) {
    forall i :: 0 <= i < |r.sup.axes| ==> r.sup.axes[i].phase != Running
  }

  ghost predicate AllOff(r: Robot) {
    r.sup.shutdownRequested && forall i :: 0 <= i < |r.sup.axes| ==> r.sup.axes[i].phase == Disabled
  }

  /** Device cycles carry non-decreasing times. */
  ghost predicate TimeOrdered(env: Env, events: seq<Event>) {
    forall j, k :: 0 <= j < k < |events| ==> InOrder(env, events, j, k)
  }

  predicate InOrder(env: Env, events: seq<Event>, j: nat, k: nat)
    requires j < |events| && k < |events|
  {
    Drives(env, events[j]) && Drives(env, events[k]) ==> events[j].now <= events[k].now
  }

  lemma StopTimesStep(env: Env, r: Robot, e: Event, t: int)
    requires Shaped(env, r) && StoppedBy(r, t) && (Drives(env, e) ==> e.now <= t)
    ensures StoppedBy(Step(env, r, e), t)
  {
    if Drives(env, e) {
      forall i | 0 <= i < |r.sup.axes| && Step(env, r, e).sup.axes[i].phase == Stopping
        ensures Step(env, r, e).sup.axes[i].stopStarted <= t
      {
        RobotMoves(env, r, e, i);
      }
    } else {
      IdleStep(env, r, e);
    }
  }

  lemma {:induction false} StopsBeganBefore(env: Env, events: seq<Event>, k: nat, t: int)
    requires |env.configs| <= MAX_AXES && k <= |events|
    requires forall j :: 0 <= j < k && Drives(env, events[j]) ==> events[j].now <= t
    ensures StoppedBy(At(env, events, k), t)
  {
    if k > 0 {
      StopsBeganBefore(env, events, k - 1, t);
      StopTimesStep(env, At(env, events, k - 1), events[k - 1], t);
    }
  }

  /** A driven cycle under shutdown: every axis is stopping since `t` at the latest, or off. */
  lemma ShutdownCycle(env: Env, r: Robot, e: Event, t: int)
    requires Shaped(env, r) && Drives(env, e) && r.sup.shutdownRequested
    requires StoppedBy(r, t) && (NoneRunning(r) || e.now <= t)
    ensures var r' := Step(env, r, e);
            && r'.sup.shutdownRequested && NoneRunning(r') && StoppedBy(r', t)
            && (NoneRunning(r) && e.now - t >= env.options.safeStopTimeout > 0 ==>
                  AllOff(r') && r'.sup.shutdownComplete)
            && (AllOff(r) ==> AllOff(r'))
            && (r'.sup.shutdownComplete <==> AllOff(r'))
            && SupervisorOutput(env, r, e).shutdownComplete == r'.sup.shutdownComplete
            && (AllOff(r') ==> AllDisable(SupervisorOutput(env, r, e).requests))
  {
    var r' := Step(env, r, e);
    var requests := SupervisorOutput(env, r, e).requests;
    forall i | 0 <= i < |r.sup.axes|
      ensures r'.sup.axes[i].phase != Running
      ensures r'.sup.axes[i].phase == Stopping ==> r'.sup.axes[i].stopStarted <= t
      ensures requests[i] == Disable <==> r'.sup.axes[i].phase == Disabled
      ensures r.sup.axes[i].phase == Disabled ==> requests[i] == Disable
      ensures NoneRunning(r) && e.now - t >= env.options.safeStopTimeout > 0 ==> requests[i] == Disable
    {
      ShutdownMove(env, r, e, i);
    }
  }

  lemma ShutdownIdle(env: Env, r: Robot, e: Event, t: int)
    requires Shaped(env, r) && !Drives(env, e) && r.sup.shutdownRequested
    requires NoneRunning(r) && StoppedBy(r, t)
    ensures var r' := Step(env, r, e);
            && r'.sup.shutdownRequested && NoneRunning(r') && StoppedBy(r', t)
            && (AllOff(r) ==> AllOff(r'))
            && r'.sup.shutdownComplete == r.sup.shutdownComplete
  {
    IdleStep(env, r, e);
  }

  ghost predicate ShuttingDown(r: Robot, t: int) {
    r.sup.shutdownRequested && NoneRunning(r) && StoppedBy(r, t)
  }

  lemma ShuttingDownStep(env: Env, r: Robot, e: Event, t: int)
    requires Shaped(env, r) && ShuttingDown(r, t)
    ensures ShuttingDown(Step(env, r, e), t)
  {
    if Drives(env, e) {
      ShutdownCycle(env, r, e, t);
    } else {
      ShutdownIdle(env, r, e, t);
    }
  }

  lemma FirstShutdownCycle(env: Env, events: seq<Event>, f: nat)
    requires |env.configs| <= MAX_AXES && f < |events| && TimeOrdered(env, events)
    requires Drives(env, events[f]) && At(env, events, f).sup.shutdownRequested
    ensures ShuttingDown(At(env, events, f + 1), events[f].now)
  {
    forall j | 0 <= j < f && Drives(env, events[j])
      ensures events[j].now <= events[f].now
    {
      assert InOrder(env, events, j, f);
    }
    StopsBeganBefore(env, events, f, events[f].now);
    ShutdownCycle(env, At(env, events, f), events[f], events[f].now);
  }

  lemma {:induction false} StaysShuttingDown(env: Env, events: seq<Event>, j: nat, k: nat, t: int)
    requires |env.configs| <= MAX_AXES && j <= k <= |events| && ShuttingDown(At(env, events, j), t)
    ensures ShuttingDown(At(env, events, k), t)
    decreases k
  {
    if j < k {
      StaysShuttingDown(env, events, j, k - 1, t);
      ShuttingDownStep(env, At(env, events, k - 1), events[k - 1], t);
    }
  }

  lemma LateCycleEnds(env: Env, r: Robot, e: Event, t: int)
    requires Shaped(env, r) && Drives(env, e) && ShuttingDown(r, t)
    requires ValidOptions(env.options) && e.now >= t + env.options.safeStopTimeout
    ensures var out := SupervisorOutput(env, r, e); AllDisable(out.requests) && out.shutdownComplete
  {
    ShutdownCycle(env, r, e, t);
  }

  lemma ShutdownEndsBy(env: Env, events: seq<Event>, j: nat, k: nat, t: int)
    requires |env.configs| <= MAX_AXES && ValidOptions(env.options) && j <= k < |events|
    requires ShuttingDown(At(env, events, j), t)
    requires Drives(env, events[k]) && events[k].now >= t + env.options.safeStopTimeout
    ensures var out := SupervisorOutput(env, At(env, events, k), events[k]);
            AllDisable(out.requests) && out.shutdownComplete
  {
    StaysShuttingDown(env, events, j, k, t);
    LateCycleEnds(env, At(env, events, k), events[k], t);
  }

  /**
   Shutdown terminates: with non-decreasing cycle times, every cycle at least the
   safe-stop timeout after the first cycle that saw the request disables every axis
   and reports completion.
   */
  lemma ShutdownTerminates(env: Env, events: seq<Event>, f: nat, k: nat)
    requires |env.configs| <= MAX_AXES && ValidOptions(env.options) && f < k < |events| && TimeOrdered(env, events)
    requires Drives(env, events[f]) && At(env, events, f).sup.shutdownRequested
    requires Drives(env, events[k]) && events[k].now >= events[f].now + env.options.safeStopTimeout
    ensures var out := SupervisorOutput(env, At(env, events, k), events[k]);
            AllDisable(out.requests) && out.shutdownComplete
  {
    FirstShutdownCycle(env, events, f);
    ShutdownEndsBy(env, events, f + 1, k, events[f].now);
  }

  lemma {:induction false} CompleteMeansOff(env: Env, events: seq<Event>, k: nat)
    requires |env.configs| <= MAX_AXES && k <= |events|
    ensures At(env, events, k).sup.shutdownComplete ==> AllOff(At(env, events, k))
  {
    if k > 0 {
      CompleteMeansOff(env, events, k - 1);
      CompleteStep(env, At(env, events, k - 1), events[k - 1]);
    }
  }

  lemma CompleteStep(env: Env, r: Robot, e: Event)
    requires Shaped(env, r) && (r.sup.shutdownComplete ==> AllOff(r))
    ensures Step(env, r, e).sup.shutdownComplete ==> AllOff(Step(env, r, e))
    ensures AllOff(r) && (Drives(env, e) || r.sup.shutdownComplete) ==>
              AllOff(Step(env, r, e)) && Step(env, r, e).sup.shutdownComplete
    ensures AllOff(r) && Drives(env, e) ==> AllDisable(SupervisorOutput(env, r, e).requests)
  {
    if Drives(env, e) {
      if r.sup.shutdownRequested {
        forall i | 0 <= i < |r.sup.axes|
          ensures SupervisorOutput(env, r, e).requests[i] == Disable <==> Step(env, r, e).sup.axes[i].phase == Disabled
          ensures r.sup.axes[i].phase == Disabled ==> SupervisorOutput(env, r, e).requests[i] == Disable
        {
          ShutdownMove(env, r, e, i);
        }
      }
    } else {
      IdleStep(env, r, e);
    }
  }

  /** Completion is stable: whatever the bus, the PDOs and the commands do later, every axis stays disabled. */
  lemma {:induction false} ShutdownIsStable(env: Env, events: seq<Event>, j: nat, k: nat)
    requires |env.configs| <= MAX_AXES && j <= k <= |events|
    requires At(env, events, j).sup.shutdownComplete
    ensures At(env, events, k).sup.shutdownComplete && AllOff(At(env, events, k))
    ensures k < |events| && Drives(env, events[k]) ==>
              AllDisable(SupervisorOutput(env, At(env, events, k), events[k]).requests)
    decreases k
  {
    CompleteMeansOff(env, events, k);
    if j < k {
      ShutdownIsStable(env, events, j, k - 1);
      CompleteStep(env, At(env, events, k - 1), events[k - 1]);
    }
    if k < |events| {
      CompleteStep(env, At(env, events, k), events[k]);
    }
  }
}
