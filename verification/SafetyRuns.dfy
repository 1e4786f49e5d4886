/**
 Whole runs of the supervisor composed with its axes: every theorem below is
 about every sequence of command snapshots, shutdown requests and device cycles.
 */
module SafetyRuns {
  import opened Wrappers
  import opened Cia402
  import opened SafetySupervisor

  datatype Robot = Robot(sup: State, axes: seq<AxisMemory>)

  datatype Event =
    | Commands(snapshot: Snapshot, at: int)
    | ShutdownRequest
    | Cycle(bus: Bus, pdos: seq<Pdo>, now: int)

  ghost predicate ValidEnv(env: Env) {
    && ValidOptions(env.options)
    && |env.configs| <= MAX_AXES
    && forall i :: 0 <= i < |env.configs| ==> ValidLimits(env.configs[i].limits)
  }

  ghost predicate Shaped(env: Env, r: Robot) {
    |r.sup.axes| == |r.sup.commands| == |r.axes| == |env.configs| <= MAX_AXES
  }

  function Start(env: Env): Robot {
    Robot(InitialState(|env.configs|), seq(|env.configs|, _ => AxisMemory(0.0, false, false)))
  }

  /** The daemon drives a cycle only when it has one PDO per axis. */
  predicate Drives(env: Env, e: Event) {
    e.Cycle? && |e.pdos| == |env.configs|
  }

  function SupervisorOutput(env: Env, r: Robot, e: Event): Evaluation
    requires Shaped(env, r) && Drives(env, e)
  {
    Evaluate(env, r.sup, e.bus, e.pdos, e.now).1
  }

  function AxisOutput(env: Env, r: Robot, e: Event, i: nat): AxisOutcome
    requires Shaped(env, r) && Drives(env, e) && i < |env.configs|
  {
    AxisCycle(env.configs[i].limits, r.axes[i], SupervisorOutput(env, r, e).commands[i], e.pdos[i])
  }

  function Step(env: Env, r: Robot, e: Event): (r': Robot)
    requires Shaped(env, r)
    ensures Shaped(env, r')
  {
    match e
    case Commands(snapshot, at) => r.(sup := Accept(r.sup, snapshot, at).0)
    case ShutdownRequest => r.(sup := r.sup.(shutdownRequested := true))
    case Cycle(bus, pdos, now) =>
      if |pdos| != |env.configs| then r
      else Robot(Evaluate(env, r.sup, bus, pdos, now).0,
                 seq(|r.axes|, i requires 0 <= i < |r.axes| => AxisOutput(env, r, e, i).memory))
  }

  /** The robot after the first `k` events. */
  function At(env: Env, events: seq<Event>, k: nat): (r: Robot)
    requires |env.configs| <= MAX_AXES && k <= |events|
    ensures Shaped(env, r)
  {
    if k == 0 then Start(env) else Step(env, At(env, events, k - 1), events[k - 1])
  }

  /** Only a driven cycle touches the per-axis state; a command snapshot never lowers the sequence. */
  lemma IdleStep(env: Env, r: Robot, e: Event)
    requires Shaped(env, r) && !Drives(env, e)
    ensures Step(env, r, e).sup.axes == r.sup.axes && Step(env, r, e).axes == r.axes
    ensures Step(env, r, e).sup.shutdownComplete == r.sup.shutdownComplete
    ensures r.sup.shutdownRequested ==> Step(env, r, e).sup.shutdownRequested
    ensures (r.sup.hasCommand || r.sup.lastSequence == 0) ==>
              Step(env, r, e).sup.lastSequence >= r.sup.lastSequence
  {
  }

  // ----- Group safety -----------------------------------------------------

  /**
   An axis is enabled only when no axis of its safety group has any safety reason,
   asks for a quick stop, or pulses a fault reset in the same cycle.
   */
  lemma GroupSafety(env: Env, r: Robot, e: Event, i: nat, j: nat)
    requires Shaped(env, r) && Drives(env, e)
    requires i < |env.configs| && j < |env.configs| && SameGroup(env.configs, i, j)
    ensures SupervisorOutput(env, r, e).requests[i] == Enable ==>
              && SupervisorOutput(env, r, e).reasons[j] == {}
              && Requested(r.sup, j) != QuickStop
              && SupervisorOutput(env, r, e).requests[j] != FaultReset
  {
    if SupervisorOutput(env, r, e).requests[i] == Enable {
      EnabledMeansQuiet(env, r.sup, e.bus, e.pdos, e.now, i);
      QuietPeer(env, Assessments(env, r.sup, e.bus, e.pdos, e.now), i, j);
    }
  }

  /** Where nothing in a group triggers or resets, no axis of the group is given a reason. */
  lemma QuietPeer(env: Env, a: seq<Assessment>, i: nat, j: nat)
    requires |a| == |env.configs| && i < |a| && j < |a| && SameGroup(env.configs, i, j)
    requires forall d :: 0 <= d < |a| && SameGroup(env.configs, i, d) ==> !Triggers(a)[d] && !Candidates(a)[d]
    ensures FinalReasons(env, a, j) == a[j].reasons && !a[j].trigger && !a[j].candidate
  {
    ScanIsGroupClosure(env.configs, Triggers(a), j);
    forall d | 0 <= d < |a| && SameGroup(env.configs, j, d)
      ensures !Triggers(a)[d] && !Candidates(a)[d]
    {
      assert SameGroup(env.configs, i, d);
    }
    assert !Reached(env.configs, Triggers(a), |a|, j);
    assert !PeerResets(env.configs, Candidates(a), j);
    assert !Triggers(a)[j] && !Candidates(a)[j];
  }

  /** If axis `i` is enabled then its group neither triggered nor holds a reset candidate. */
  lemma EnabledMeansQuiet(env: Env, s: State, bus: Bus, pdos: seq<Pdo>, now: int, i: nat)
    requires i < |s.axes| == |s.commands| == |env.configs| == |pdos|
    requires Evaluate(env, s, bus, pdos, now).1.requests[i] == Enable
    ensures Requested(s, i) == Enable
    ensures var a := Assessments(env, s, bus, pdos, now);
            && !FinalTrigger(env, a, i)
            && !a[i].candidate
            && (forall d :: 0 <= d < |a| && SameGroup(env.configs, i, d) ==> !Triggers(a)[d])
            && (forall c :: 0 <= c < |a| && SameGroup(env.configs, i, c) ==> !Candidates(a)[c])
  {
    var a := Assessments(env, s, bus, pdos, now);
    DecideEnableExactly(env.options, s, a[i].state, Requested(s, i), FinalReasons(env, a, i),
                        FinalTrigger(env, a, i), pdos[i], now);
    assert !a[i].candidate;
    QuietGroup(env, a, i);
  }

  lemma QuietGroup(env: Env, a: seq<Assessment>, i: nat)
    requires i < |a| == |env.configs| && !FinalTrigger(env, a, i) && !a[i].candidate
    ensures forall d :: 0 <= d < |a| && SameGroup(env.configs, i, d) ==> !Triggers(a)[d]
    ensures forall c :: 0 <= c < |a| && SameGroup(env.configs, i, c) ==> !Candidates(a)[c]
  {
    assert !PeerResets(env.configs, Candidates(a), i);
  }

  // ----- When an axis is enabled ------------------------------------------

  /** The accepted command is present, trusted and fresh, and no shutdown was asked for. */
  predicate CommandIsCurrent(s: State, timeout: int, now: int) {
    s.hasCommand && s.commandsValid && !s.shutdownRequested && s.lastTimestamp <= now <= s.lastTimestamp + timeout
  }

  /** The frame came back incomplete, or with another counter than the one expected. */
  predicate FrameIncomplete(bus: Bus) {
    !(bus.workingCounterComplete
      && (bus.expectedWorkingCounter == None || bus.expectedWorkingCounter == Some(bus.workingCounter)))
  }

  /** `failures` is the number of incomplete frames in a row before this one, counted up to 2^32 - 1. */
  predicate BusIsHealthy(options: Options, failures: nat, bus: Bus, axis: nat) {
    && axis !in bus.externalStops && bus.linkUp && (bus.allOperational || axis in bus.operationalAxes)
    && if FrameIncomplete(bus) then failures + (if failures < 0xFFFF_FFFF then 1 else 0) < options.wkcLimit
       else bus.processDataValid && options.wkcLimit > 0
  }

  /** The status words that the table lists for fault and for fault reaction active. */
  predicate DriveFaulty(statusWord: bv16) {
    statusWord & 0x004F == 0x0008 || statusWord & 0x004F == 0x000F
  }

  lemma FaultyMeans(statusWord: bv16)
    ensures Decode(statusWord) == Fault <==> statusWord & 0x004F == 0x0008
    ensures Decode(statusWord) == FaultReactionActive <==> statusWord & 0x004F == 0x000F
  {
    DecodeIsTheTable(statusWord, Fault);
    DecodeIsTheTable(statusWord, FaultReactionActive);
  }

  /** An enabled drive with power is further from its next target than its following-error limit. */
  predicate Strays(limits: Limits, last: real, command: AxisCommand, pdo: Pdo) {
    && limits.scale > 0.0 && RequestFromFlags(command.flags) == Enable
    && PoweredStatus(pdo.statusWord)
    && MeasuredApart(limits, pdo, SlewedTarget(limits, last, command.target))
  }

  lemma TooFarMeansStrays(limits: Limits, last: real, command: AxisCommand, pdo: Pdo)
    ensures EvaluateTarget(limits, last, command, pdo).tooFar <==> Strays(limits, last, command, pdo)
  {
    FollowingErrorActiveOn(pdo.statusWord);
  }

  function LastTarget(env: Env, s: State, pdo: Pdo, axis: nat): real
    requires axis < |s.axes| == |env.configs|
  {
    if s.axes[axis].hasLastTarget then s.axes[axis].lastTarget else AxisActual(env.configs[axis].limits, pdo)
  }

  /** The pulse of this fault episode goes on, or the episode has pulses left. */
  predicate BudgetLeft(options: Options, state: AxisState) {
    (state.episodeActive && state.resetOutput) || EpisodeEdges(state) < options.maximumFaultResets
  }

  /** Nothing about this axis stops its safety group: a fault does not while a reset of it is asked for and
      affordable. */
  predicate Untroubled(env: Env, s: State, bus: Bus, pdo: Pdo, now: int, axis: nat)
    requires axis < |s.axes| == |s.commands| == |env.configs|
  {
    var limits := env.configs[axis].limits;
    && CommandIsCurrent(s, env.configs[axis].commandTimeout, now)
    && BusIsHealthy(env.options, s.wkcFailures, bus, axis)
    && (limits.mode, pdo.modeDisplay) in {(Csp, 8), (Csv, 9), (Cst, 10)}
    && !Strays(limits, LastTarget(env, s, pdo, axis), s.commands[axis], pdo)
    && Requested(s, axis) != QuickStop
    && (DriveFaulty(pdo.statusWord) ==>
          pdo.statusWord & 0x004F == 0x0008 && Requested(s, axis) == FaultReset
          && BudgetLeft(env.options, s.axes[axis]))
  }

  predicate MayMove(env: Env, s: State, bus: Bus, pdo: Pdo, now: int, axis: nat)
    requires axis < |s.axes| == |s.commands| == |env.configs|
  {
    Untroubled(env, s, bus, pdo, now, axis) && !DriveFaulty(pdo.statusWord)
  }

  lemma TriggerMeansTroubled(env: Env, s: State, bus: Bus, pdo: Pdo, now: int, axis: nat)
    requires axis < |s.axes| == |s.commands| == |env.configs|
    ensures var a := Assess(env, s, bus, pdo, now, axis);
            && (!a.trigger <==> Untroubled(env, s, bus, pdo, now, axis))
            && (a.candidate <==> Untroubled(env, s, bus, pdo, now, axis) && Decode(pdo.statusWord) == Fault)
  {
    NoCommandReasons(s, env.configs[axis].commandTimeout, now);
    NoBusReasons(env, s, bus, axis);
    BudgetIsAffordable(env.options, KnownTarget(s.axes[axis], env.configs[axis].limits, pdo));
    FaultyMeans(pdo.statusWord);
    TooFarMeansStrays(env.configs[axis].limits, LastTarget(env, s, pdo, axis), s.commands[axis], pdo);
    assert DriveFaulty(pdo.statusWord) ==> !FaultClearObserved(bus, axis, pdo.statusWord);
  }

  lemma BudgetIsAffordable(options: Options, state: AxisState)
    ensures ResetAffordable(options, ObserveEpisode(state, false)) <==> BudgetLeft(options, state)
  {
  }

  lemma NoCommandReasons(s: State, timeout: int, now: int)
    ensures CommandReasons(s, timeout, now) == {} <==> CommandIsCurrent(s, timeout, now)
  {
    var reasons := CommandReasons(s, timeout, now);
    assert Timeout in reasons <==> !s.hasCommand || now < s.lastTimestamp || now - s.lastTimestamp > timeout;
    assert InvalidCommands in reasons <==> !s.commandsValid;
    assert Shutdown in reasons <==> s.shutdownRequested;
  }

  lemma NoBusReasons(env: Env, s: State, bus: Bus, axis: nat)
    ensures BusReasons(env, bus, NextWkcFailures(s.wkcFailures, bus), axis) == {} <==>
              BusIsHealthy(env.options, s.wkcFailures, bus, axis)
  {
    var reasons := BusReasons(env, bus, NextWkcFailures(s.wkcFailures, bus), axis);
    assert Serial in reasons <==> axis in bus.externalStops;
    assert LinkDown in reasons <==> !bus.linkUp;
    assert Wkc in reasons <==> NextWkcFailures(s.wkcFailures, bus) >= env.options.wkcLimit;
    assert SlaveDown in reasons <==> !Operational(bus, axis);
    assert ProcessData in reasons <==> !bus.processDataValid && !CounterBad(bus) && bus.linkUp;
  }

  /** A decision to enable, before the safety group is taken into account. */
  predicate WantsToMove(s: State, axis: nat)
    requires axis < |s.axes| == |s.commands|
  {
    && Requested(s, axis) == Enable
    && (s.axes[axis].phase == Running
        || (s.axes[axis].phase == Disabled && s.lastSequence > s.axes[axis].stoppedSequence))
  }

  /**
   Exactly when an axis is enabled: it was asked to be, it runs or restarts with a newer
   command, and every axis of its safety group may move.
   */
  lemma EnabledExactlyWhen(env: Env, r: Robot, e: Event, i: nat)
    requires Shaped(env, r) && Drives(env, e) && i < |env.configs|
    ensures SupervisorOutput(env, r, e).requests[i] == Enable <==>
              && WantsToMove(r.sup, i)
              && forall j :: 0 <= j < |env.configs| && SameGroup(env.configs, i, j) ==>
                   MayMove(env, r.sup, e.bus, e.pdos[j], e.now, j)
  {
    var s, a := r.sup, Assessments(env, r.sup, e.bus, e.pdos, e.now);
    forall j | 0 <= j < |a|
      ensures !Triggers(a)[j] && !Candidates(a)[j] <==> MayMove(env, s, e.bus, e.pdos[j], e.now, j)
    {
      TriggerMeansTroubled(env, s, e.bus, e.pdos[j], e.now, j);
    }
    DecideEnableExactly(env.options, s, a[i].state, Requested(s, i), FinalReasons(env, a, i),
                        FinalTrigger(env, a, i), e.pdos[i], e.now);
    GroupIsQuiet(env, a, i);
    AssessKeepsPhase(env, s, e.bus, e.pdos[i], e.now, i);
  }

  lemma AssessKeepsPhase(env: Env, s: State, bus: Bus, pdo: Pdo, now: int, axis: nat)
    requires axis < |s.axes| == |s.commands| == |env.configs|
    ensures var a := Assess(env, s, bus, pdo, now, axis);
            && a.state.phase == s.axes[axis].phase && a.state.stoppedSequence == s.axes[axis].stoppedSequence
            && (a.candidate ==> Requested(s, axis) == FaultReset)
            && (Requested(s, axis) == Enable ==> s.hasCommand)
  {
  }

  lemma DecideEnableExactly(options: Options, s: State, assessed: AxisState, requested: AxisRequest,
                            reasons: set<Reason>, triggered: bool, pdo: Pdo, now: int)
    ensures Decide(options, s, assessed, requested, reasons, triggered, pdo, now).request == Enable <==>
              && requested == Enable && !triggered
              && (assessed.phase == Running
                  || (assessed.phase == Disabled && s.hasCommand && s.lastSequence > assessed.stoppedSequence))
  {
  }

  lemma GroupIsQuiet(env: Env, a: seq<Assessment>, i: nat)
    requires i < |a| == |env.configs|
    ensures !FinalTrigger(env, a, i) && !a[i].candidate <==>
              forall j :: 0 <= j < |a| && SameGroup(env.configs, i, j) ==> !Triggers(a)[j] && !Candidates(a)[j]
  {
    if !FinalTrigger(env, a, i) && !a[i].candidate {
      QuietGroup(env, a, i);
    }
    assert SameGroup(env.configs, i, i);
  }

  /**
   Exactly when an axis is given a fault reset: its drive is in fault, the reset was asked for,
   and no axis of its safety group, itself included, is troubled by anything else.
   */
  lemma ResetExactlyWhen(env: Env, r: Robot, e: Event, i: nat)
    requires ValidEnv(env) && Shaped(env, r) && Drives(env, e) && i < |env.configs|
    ensures SupervisorOutput(env, r, e).requests[i] == FaultReset <==>
              && Requested(r.sup, i) == FaultReset && Decode(e.pdos[i].statusWord) == Fault
              && forall j :: 0 <= j < |env.configs| && SameGroup(env.configs, i, j) ==>
                   Untroubled(env, r.sup, e.bus, e.pdos[j], e.now, j)
  {
    var s, a := r.sup, Assessments(env, r.sup, e.bus, e.pdos, e.now);
    forall j | 0 <= j < |a|
      ensures !Triggers(a)[j] <==> Untroubled(env, s, e.bus, e.pdos[j], e.now, j)
      ensures Candidates(a)[j] <==> Untroubled(env, s, e.bus, e.pdos[j], e.now,
                                               j) && Decode(e.pdos[j].statusWord) == Fault
    {
      TriggerMeansTroubled(env, s, e.bus, e.pdos[j], e.now, j);
    }
    DecideReset(env.options, s, a[i].state, Requested(s, i), FinalReasons(env, a, i), FinalTrigger(env, a, i),
                e.pdos[i], e.now);
    if Requested(s, i) == FaultReset && Decode(e.pdos[i].statusWord) == Fault {
      AssessReset(env, s, e.bus, e.pdos[i], e.now, i);
      ReasonsAreEmpty(env, a, i);
    }
  }

  lemma AssessReset(env: Env, s: State, bus: Bus, pdo: Pdo, now: int, axis: nat)
    requires axis < |s.axes| == |s.commands| == |env.configs|
    requires Decode(pdo.statusWord) == Fault && Requested(s, axis) == FaultReset
    ensures var a := Assess(env, s, bus, pdo, now, axis);
            && (a.trigger <==> a.reasons != {}) && (a.candidate <==> a.reasons == {})
            && (a.reasons == {} ==> ResetAffordable(env.options, a.state))
  {
    var a := Assess(env, s, bus, pdo, now, axis);
    assert !ResetAffordable(env.options, a.state) ==> DriveFault in a.reasons;
  }

  /** For an axis that resets, no reason is left exactly when no axis of the group triggers. */
  lemma ReasonsAreEmpty(env: Env, a: seq<Assessment>, i: nat)
    requires i < |a| == |env.configs|
    requires (a[i].trigger <==> a[i].reasons != {}) && (a[i].candidate <==> a[i].reasons == {})
    ensures FinalReasons(env, a, i) == {} <==>
              forall j :: 0 <= j < |a| && SameGroup(env.configs, i, j) ==> !Triggers(a)[j]
  {
    ScanIsGroupClosure(env.configs, Triggers(a), i);
    assert SameGroup(env.configs, i, i);
    assert Group in ReasonIf(Reached(env.configs, Triggers(a), |a|, i), Group) <==> Reached(env.configs, Triggers(a),
                                                                                            |a|, i);
  }

  // ----- Following error --------------------------------------------------

  /**
   A drive with power that strays from its next target stops its whole safety group, in the supervisor and in
   every axis object alike.
   */
  lemma StrayingStopsTheGroup(env: Env, r: Robot, e: Event, i: nat, j: nat)
    requires ValidEnv(env) && Shaped(env, r) && Drives(env, e)
    requires i < |env.configs| && j < |env.configs| && SameGroup(env.configs, i, j)
    requires Strays(env.configs[j].limits, LastTarget(env, r.sup, e.pdos[j], j), r.sup.commands[j], e.pdos[j])
    ensures SupervisorOutput(env, r, e).requests[i] != Enable && AxisOutput(env, r, e, i).request != Enable
    ensures AxisOutput(env, r, e, i).pdo.controlWord !in {0x0006, 0x0007, 0x000F}
    ensures TooFar in SupervisorOutput(env, r, e).reasons[j]
  {
    EnabledExactlyWhen(env, r, e, i);
    PowerNeedsEnable(env, r, e, i);
    AxisObeys(env.configs[i].limits, r.axes[i], r.sup, i, SupervisorOutput(env, r, e).requests[i], e.pdos[i]);
    TooFarMeansStrays(env.configs[j].limits, LastTarget(env, r.sup, e.pdos[j], j), r.sup.commands[j], e.pdos[j]);
  }

  /** The same axis with another following-error limit. */
  function WithErrorLimit(config: AxisConfig, limit: real): AxisConfig {
    config.(limits := config.limits.(followingErrorLimit := limit))
  }

  /** Two configurations that differ at most in the following-error limits of drives without power. */
  predicate SameButUnpowered(env: Env, env': Env, e: Event)
    requires e.Cycle? && |e.pdos| == |env.configs| == |env'.configs|
  {
    && env'.options == env.options
    && forall j :: 0 <= j < |env.configs| ==>
         && env'.configs[j] == WithErrorLimit(env.configs[j], env'.configs[j].limits.followingErrorLimit)
         && (PoweredStatus(e.pdos[j].statusWord) ==> env'.configs[j] == env.configs[j])
  }

  /** In every other drive state distance alone never stops an axis: no limit, however small, changes who is enabled. */
  lemma UnpoweredDistanceNeverStops(env: Env, env': Env, r: Robot, e: Event, i: nat)
    requires ValidEnv(env) && ValidEnv(env') && Shaped(env, r) && Drives(env, e) && i < |env.configs|
    requires |env'.configs| == |env.configs| && SameButUnpowered(env, env', e)
    ensures SupervisorOutput(env', r, e).requests[i] == Enable <==> SupervisorOutput(env, r, e).requests[i] == Enable
    ensures AxisOutput(env', r, e, i).request == Enable <==> AxisOutput(env, r, e, i).request == Enable
  {
    EnabledExactlyWhen(env, r, e, i);
    EnabledExactlyWhen(env', r, e, i);
    forall j | 0 <= j < |env.configs|
      ensures MayMove(env', r.sup, e.bus, e.pdos[j], e.now, j) <==> MayMove(env, r.sup, e.bus, e.pdos[j], e.now, j)
      ensures SameGroup(env'.configs, i, j) <==> SameGroup(env.configs, i, j)
    {
      assert env'.configs[j] == WithErrorLimit(env.configs[j], env'.configs[j].limits.followingErrorLimit);
      assert env'.configs[i] == WithErrorLimit(env.configs[i], env'.configs[i].limits.followingErrorLimit);
    }
    UnpoweredAxis(env, env', r, e, i);
  }

  lemma UnpoweredAxis(env: Env, env': Env, r: Robot, e: Event, i: nat)
    requires ValidEnv(env) && ValidEnv(env') && Shaped(env, r) && Drives(env, e) && i < |env.configs|
    requires |env'.configs| == |env.configs| && SameButUnpowered(env, env', e)
    requires SupervisorOutput(env', r, e).requests[i] == Enable <==> SupervisorOutput(env, r, e).requests[i] == Enable
    ensures AxisOutput(env', r, e, i).request == Enable <==> AxisOutput(env, r, e, i).request == Enable
  {
    var asked, asked' := SupervisorOutput(env, r, e).requests[i], SupervisorOutput(env', r, e).requests[i];
    var limits, limit := env.configs[i].limits, env'.configs[i].limits.followingErrorLimit;
    assert env'.configs[i].limits == WithErrorLimit(env.configs[i], limit).limits;
    UnpoweredCycle(limits, limit, r.axes[i], r.sup, i, asked, asked', e.pdos[i]);
  }

  lemma UnpoweredCycle(limits: Limits, limit: real, memory: AxisMemory, s: State, i: nat,
                       asked: AxisRequest, asked': AxisRequest, pdo: Pdo)
    requires i < |s.commands| && ValidLimits(limits) && limit > 0.0 && (asked == Enable <==> asked' == Enable)
    requires PoweredStatus(pdo.statusWord) ==> limit == limits.followingErrorLimit
    ensures AxisCycle(limits.(followingErrorLimit := limit), memory, Outgoing(s, i, asked'), pdo).request == Enable
            <==> AxisCycle(limits, memory, Outgoing(s, i, asked), pdo).request == Enable
  {
    var limits' := limits.(followingErrorLimit := limit);
    if asked == Enable {
      AxisEnablesExactlyWhen(limits, memory, Outgoing(s, i, Enable), pdo);
      AxisEnablesExactlyWhen(limits', memory, Outgoing(s, i, Enable), pdo);
    } else {
      AxisObeys(limits, memory, s, i, asked, pdo);
      AxisObeys(limits', memory, s, i, asked', pdo);
    }
  }

  // ----- Every reason -----------------------------------------------------

  /** What each reason of an axis means, apart from those of its safety group. */
  predicate Applies(env: Env, s: State, bus: Bus, pdo: Pdo, now: int, axis: nat, reason: Reason)
    requires axis < |s.axes| == |s.commands| == |env.configs|
  {
    var config, faulty := env.configs[axis], pdo.statusWord & 0x004F == 0x0008;
    var resets := faulty && Requested(s, axis) == FaultReset;
    match reason
    case Timeout => !(s.hasCommand && s.lastTimestamp <= now <= s.lastTimestamp + config.commandTimeout)
    case InvalidCommands => !s.commandsValid
    case Shutdown => s.shutdownRequested
    case Serial => axis in bus.externalStops
    case LinkDown => !bus.linkUp
    case Wkc =>
      (if !FrameIncomplete(bus) then 0
       else s.wkcFailures + if s.wkcFailures < 0xFFFF_FFFF then 1 else 0) >= env.options.wkcLimit
    case ProcessData => bus.linkUp && !bus.processDataValid && !FrameIncomplete(bus)
    case SlaveDown => !bus.allOperational && axis !in bus.operationalAxes
    case ModeDiffers => (config.limits.mode, pdo.modeDisplay) !in {(Csp, 8), (Csv, 9), (Cst, 10)}
    case TooFar => Strays(config.limits, LastTarget(env, s, pdo, axis), s.commands[axis], pdo)
    case DriveFault => DriveFaulty(pdo.statusWord) && !(resets && BudgetLeft(env.options, s.axes[axis]))
    case FaultResetLimit => resets && !BudgetLeft(env.options, s.axes[axis])
    case Group => false
  }

  lemma BusReasonApplies(env: Env, s: State, bus: Bus, pdo: Pdo, now: int, axis: nat, reason: Reason)
    requires axis < |s.axes| == |s.commands| == |env.configs|
    requires reason in {Serial, LinkDown, Wkc, ProcessData, SlaveDown}
    ensures reason in BusReasons(env, bus, NextWkcFailures(s.wkcFailures, bus), axis) <==>
              Applies(env, s, bus, pdo, now, axis, reason)
  {
    assert CounterBad(bus) <==> FrameIncomplete(bus);
  }

  lemma DriveReasonApplies(env: Env, s: State, bus: Bus, pdo: Pdo, now: int, axis: nat, reason: Reason)
    requires axis < |s.axes| == |s.commands| == |env.configs| && reason in {DriveFault, FaultResetLimit}
    ensures var known := KnownTarget(s.axes[axis], env.configs[axis].limits, pdo);
            var state := ObserveEpisode(known, FaultClearObserved(bus, axis, pdo.statusWord));
            reason in DriveReasons(env.options, state, Requested(s, axis), pdo.statusWord) <==>
              Applies(env, s, bus, pdo, now, axis, reason)
  {
    FaultyMeans(pdo.statusWord);
    BudgetIsAffordable(env.options, KnownTarget(s.axes[axis], env.configs[axis].limits, pdo));
  }

  /** Each kind of reason comes from its own part of the assessment. */
  lemma ReasonFamilies(env: Env, s: State, bus: Bus, timeout: int, now: int, failures: nat, axis: nat,
                       state: AxisState, requested: AxisRequest, statusWord: bv16)
    ensures CommandReasons(s, timeout, now) <= {Timeout, InvalidCommands, Shutdown}
    ensures BusReasons(env, bus, failures, axis) <= {Serial, LinkDown, Wkc, ProcessData, SlaveDown}
    ensures DriveReasons(env.options, state, requested, statusWord) <= {DriveFault, FaultResetLimit}
  {
  }

  lemma ReasonParts(env: Env, s: State, bus: Bus, pdo: Pdo, now: int, axis: nat, reason: Reason)
    requires axis < |s.axes| == |s.commands| == |env.configs|
    ensures var a := Assess(env, s, bus, pdo, now, axis);
            var limits := env.configs[axis].limits;
            reason in a.reasons <==>
              || reason in CommandReasons(s, env.configs[axis].commandTimeout, now)
              || reason in BusReasons(env, bus, NextWkcFailures(s.wkcFailures, bus), axis)
              || (reason == ModeDiffers && pdo.modeDisplay != ModeCode(limits.mode))
              || (reason == TooFar
                  && EvaluateTarget(limits, LastTarget(env, s, pdo, axis), s.commands[axis], pdo).tooFar)
              || reason in DriveReasons(env.options, a.state, Requested(s, axis), pdo.statusWord)
  {
  }

  /** The part of the assessment that decides a reason. */
  lemma ReasonSource(env: Env, s: State, bus: Bus, pdo: Pdo, now: int, axis: nat, reason: Reason)
    requires axis < |s.axes| == |s.commands| == |env.configs|
    ensures var a := Assess(env, s, bus, pdo, now, axis);
            var limits := env.configs[axis].limits;
            reason in a.reasons <==>
              match reason
              case Timeout | InvalidCommands | Shutdown =>
                reason in CommandReasons(s, env.configs[axis].commandTimeout, now)
              case Serial | LinkDown | Wkc | ProcessData | SlaveDown =>
                reason in BusReasons(env, bus, NextWkcFailures(s.wkcFailures, bus), axis)
              case ModeDiffers => pdo.modeDisplay != ModeCode(limits.mode)
              case TooFar => EvaluateTarget(limits, LastTarget(env, s, pdo, axis), s.commands[axis], pdo).tooFar
              case DriveFault | FaultResetLimit =>
                reason in DriveReasons(env.options, a.state, Requested(s, axis), pdo.statusWord)
              case Group => false
  {
    ReasonParts(env, s, bus, pdo, now, axis, reason);
    var failures, state := NextWkcFailures(s.wkcFailures, bus), Assess(env, s, bus, pdo, now, axis).state;
    ReasonFamilies(env, s, bus, env.configs[axis].commandTimeout, now, failures, axis, state, Requested(s, axis),
                   pdo.statusWord);
    OneFamilyDecides(reason, CommandReasons(s, env.configs[axis].commandTimeout, now),
                     BusReasons(env, bus, failures, axis),
                     DriveReasons(env.options, state, Requested(s, axis), pdo.statusWord));
  }

  lemma OneFamilyDecides(reason: Reason, command: set<Reason>, bus: set<Reason>, drive: set<Reason>)
    requires command <= {Timeout, InvalidCommands, Shutdown} && drive <= {DriveFault, FaultResetLimit}
    requires bus <= {Serial, LinkDown, Wkc, ProcessData, SlaveDown}
    ensures reason !in {Timeout, InvalidCommands, Shutdown} ==> reason !in command
    ensures reason !in {Serial, LinkDown, Wkc, ProcessData, SlaveDown} ==> reason !in bus
    ensures reason !in {DriveFault, FaultResetLimit} ==> reason !in drive
  {
  }

  lemma CommandReasonApplies(env: Env, s: State, bus: Bus, pdo: Pdo, now: int, axis: nat, reason: Reason)
    requires axis < |s.axes| == |s.commands| == |env.configs| && reason in {Timeout, InvalidCommands, Shutdown}
    ensures reason in CommandReasons(s, env.configs[axis].commandTimeout, now) <==>
              Applies(env, s, bus, pdo, now, axis, reason)
  {
  }

  /** An axis has a reason of its own exactly when that reason applies to it. */
  lemma ReasonApplies(env: Env, s: State, bus: Bus, pdo: Pdo, now: int, axis: nat, reason: Reason)
    requires axis < |s.axes| == |s.commands| == |env.configs|
    ensures reason in Assess(env, s, bus, pdo, now, axis).reasons <==> Applies(env, s, bus, pdo, now, axis, reason)
  {
    ReasonSource(env, s, bus, pdo, now, axis, reason);
    match reason
    case Timeout | InvalidCommands | Shutdown => CommandReasonApplies(env, s, bus, pdo, now, axis, reason);
    case Serial | LinkDown | Wkc | ProcessData | SlaveDown => BusReasonApplies(env, s, bus, pdo, now, axis, reason);
    case DriveFault | FaultResetLimit => DriveReasonApplies(env, s, bus, pdo, now, axis, reason);
    case TooFar => TooFarMeansStrays(env.configs[axis].limits, LastTarget(env, s, pdo, axis), s.commands[axis], pdo);
    case ModeDiffers =>
    case Group =>
  }

  /**
   Every reason the supervisor shows: the axis's own, as they apply, and the group flag exactly when the scan of the
   safety group reached it or a peer pulses its reset.
   */
  lemma ReasonsAreExact(env: Env, r: Robot, e: Event, i: nat, reason: Reason)
    requires Shaped(env, r) && Drives(env, e) && i < |env.configs|
    ensures var shown, a := SupervisorOutput(env, r, e).reasons[i], Assessments(env, r.sup, e.bus, e.pdos, e.now);
            reason in shown <==>
              if reason == Group
              then Reached(env.configs, Triggers(a), |a|, i) || PeerResets(env.configs, Candidates(a), i)
              else Applies(env, r.sup, e.bus, e.pdos[i], e.now, i, reason)
  {
    ReasonApplies(env, r.sup, e.bus, e.pdos[i], e.now, i, reason);
    ShownReasons(env, Assessments(env, r.sup, e.bus, e.pdos, e.now), i, reason);
  }

  lemma ShownReasons(env: Env, a: seq<Assessment>, i: nat, reason: Reason)
    requires i < |a| == |env.configs|
    ensures reason in FinalReasons(env, a, i) <==>
              || reason in a[i].reasons
              || (reason == Group && (Reached(env.configs, Triggers(a), |a|, i)
                                      || PeerResets(env.configs, Candidates(a), i)))
  {
  }

  // ----- Working counter --------------------------------------------------

  /** The driven cycles in a row, up to the first `k` events, whose frame was incomplete. */
  function IncompleteStreak(env: Env, events: seq<Event>, k: nat): nat
    requires k <= |events|
  {
    if k == 0 then 0
    else if !Drives(env, events[k - 1]) then IncompleteStreak(env, events, k - 1)
    else if FrameIncomplete(events[k - 1].bus) then IncompleteStreak(env, events, k - 1) + 1
    else 0
  }

  function Min(a: nat, b: nat): nat {
    if a < b then a else b
  }

  lemma {:induction false} FailuresAreTheStreak(env: Env, events: seq<Event>, k: nat)
    requires |env.configs| <= MAX_AXES && k <= |events|
    ensures At(env, events, k).sup.wkcFailures == Min(IncompleteStreak(env, events, k), 0xFFFF_FFFF)
  {
    if k > 0 {
      FailuresAreTheStreak(env, events, k - 1);
      FailuresStep(env, At(env, events, k - 1), events[k - 1]);
      if Drives(env, events[k - 1]) {
        assert CounterBad(events[k - 1].bus) <==> FrameIncomplete(events[k - 1].bus);
      }
    }
  }

  lemma FailuresStep(env: Env, r: Robot, e: Event)
    requires Shaped(env, r)
    ensures Step(env, r, e).sup.wkcFailures
            == if Drives(env, e) then NextWkcFailures(r.sup.wkcFailures, e.bus) else r.sup.wkcFailures
  {
  }

  /** In every run the working counter is a reason exactly from the configured number of incomplete frames in a row. */
  lemma CounterStopsExactlyAfterStreak(env: Env, events: seq<Event>, k: nat, i: nat)
    requires |env.configs| <= MAX_AXES && env.options.wkcLimit <= 0xFFFF_FFFF
    requires k < |events| && Drives(env, events[k]) && i < |env.configs|
    ensures Wkc in SupervisorOutput(env, At(env, events, k), events[k]).reasons[i] <==>
              IncompleteStreak(env, events, k + 1) >= env.options.wkcLimit
  {
    FailuresAreTheStreak(env, events, k);
    var s, e := At(env, events, k).sup, events[k];
    WkcIsOwn(env, Assessments(env, s, e.bus, e.pdos, e.now), i);
    WkcReason(env, s, e.bus, e.pdos[i], e.now, i);
  }

  /** The safety group passes on no working-counter reason. */
  lemma WkcIsOwn(env: Env, a: seq<Assessment>, i: nat)
    requires i < |a| == |env.configs|
    ensures Wkc in FinalReasons(env, a, i) <==> Wkc in a[i].reasons
  {
  }

  lemma WkcReason(env: Env, s: State, bus: Bus, pdo: Pdo, now: int, i: nat)
    requires i < |s.axes| == |s.commands| == |env.configs|
    ensures Wkc in Assess(env, s, bus, pdo, now, i).reasons <==>
              NextWkcFailures(s.wkcFailures, bus) >= env.options.wkcLimit
  {
    ReasonApplies(env, s, bus, pdo, now, i, Wkc);
  }

  // ----- Power ------------------------------------------------------------

  /** Power is applied to a drive only by an axis the supervisor enabled. */
  lemma PowerNeedsEnable(env: Env, r: Robot, e: Event, i: nat)
    requires ValidEnv(env) && Shaped(env, r) && Drives(env, e) && i < |env.configs|
    ensures AxisOutput(env, r, e, i).pdo.controlWord in {0x0006, 0x0007, 0x000F} ==>
              SupervisorOutput(env, r, e).requests[i] == Enable
  {
    AxisPowers(env.configs[i].limits, r.axes[i], r.sup, i, SupervisorOutput(env, r, e).requests[i], e.pdos[i]);
  }

  lemma AxisPowers(limits: Limits, memory: AxisMemory, s: State, i: nat, request: AxisRequest, pdo: Pdo)
    requires ValidLimits(limits) && i < |s.commands|
    ensures AxisCycle(limits, memory, Outgoing(s, i, request), pdo).pdo.controlWord in {0x0006, 0x0007, 0x000F} ==>
              request == Enable
  {
    AxisObeys(limits, memory, s, i, request, pdo);
    ControlWordCauses(Decode(pdo.statusWord), request, memory.latched);
  }

  // ----- The axis follows the supervisor ----------------------------------

  lemma ActualIsStageable(limits: Limits, pdo: Pdo)
    requires ValidLimits(limits)
    ensures ActualSetpoint(limits, pdo) == Some(AxisActual(limits, pdo))
    ensures Representation(limits, AxisActual(limits, pdo)) == Some(ActualCounts(limits.mode, pdo))
  {
    DeviceUnitsRoundTrip(ActualCounts(limits.mode, pdo), limits.scale, DeviceLow(limits.mode), DeviceHigh(limits.mode));
  }

  /** The axis changes no request of the supervisor, except that it may refuse to enable. */
  lemma AxisObeys(limits: Limits, memory: AxisMemory, s: State, i: nat, request: AxisRequest, pdo: Pdo)
    requires ValidLimits(limits) && i < |s.commands|
    ensures var outcome := AxisCycle(limits, memory, Outgoing(s, i, request), pdo);
            && (request != Enable ==> outcome.request == request && outcome.memory.lastTarget == AxisActual(limits,
                                                                                                            pdo))
            && (request == Enable ==> outcome.request in {Enable, QuickStop})
            && outcome.memory.hasLastTarget
            && (outcome.memory.latched <==> request == FaultReset)
            && outcome.pdo.controlWord == ControlWord(Decode(pdo.statusWord), outcome.request, memory.latched)
  {
    RequestFlagsRoundTrip(request);
    ActualIsStageable(limits, pdo);
  }

  // ----- Fault-reset budget -----------------------------------------------

  lemma DecideReset(options: Options, s: State, assessed: AxisState, requested: AxisRequest,
                    reasons: set<Reason>, triggered: bool, pdo: Pdo, now: int)
    requires ValidOptions(options)
    ensures var allowed := ResetAllowed(options, assessed, requested, reasons, pdo);
            var v := Decide(options, s, assessed, requested, reasons, triggered, pdo, now);
            && (v.request == FaultReset <==> allowed)
            && (v.state.resetOutput <==> allowed)
            && v.state.episodeActive == assessed.episodeActive
            && v.state.resetEdges == assessed.resetEdges + (if allowed && !assessed.resetOutput then 1 else 0)
  {
  }

  /** A cycle that shows, over a working bus, a status word the table lists for a state without fault. */
  predicate ClearObserved(env: Env, e: Event, i: nat)
    requires Drives(env, e) && i < |env.configs|
  {
    var word := e.pdos[i].statusWord;
    && (word & 0x004F == 0x0000 || word & 0x004F == 0x0040 || word & 0x006F == 0x0021 || PoweredStatus(word))
    && e.bus.linkUp && e.bus.processDataValid && (e.bus.allOperational || i in e.bus.operationalAxes)
  }

  lemma ClearMeans(env: Env, e: Event, i: nat)
    requires Drives(env, e) && i < |env.configs|
    ensures ClearObserved(env, e, i) <==> FaultClearObserved(e.bus, i, e.pdos[i].statusWord)
  {
    var word := e.pdos[i].statusWord;
    DecodeIsTheTable(word, NotReadyToSwitchOn);
    DecodeIsTheTable(word, SwitchOnDisabled);
    DecodeIsTheTable(word, ReadyToSwitchOn);
    FollowingErrorActiveOn(word);
  }

  predicate Pulses(env: Env, r: Robot, e: Event, i: nat)
    requires Shaped(env, r) && Drives(env, e) && i < |env.configs|
  {
    AxisOutput(env, r, e, i).pdo.controlWord == 0x0080
  }

  /** The edge latch of the axis is the supervisor's own record, and the budget is never exceeded. */
  ghost predicate LatchInv(env: Env, r: Robot, i: nat)
    requires Shaped(env, r) && i < |env.configs|
  {
    var state := r.sup.axes[i];
    && (r.axes[i].latched <==> state.resetOutput)
    && (state.resetOutput ==> state.episodeActive)
    && state.resetEdges <= env.options.maximumFaultResets
  }

  function EpisodeEdges(state: AxisState): nat {
    if state.episodeActive then state.resetEdges else 0
  }

  lemma SupervisorResetStep(env: Env, s: State, bus: Bus, pdos: seq<Pdo>, now: int, i: nat)
    requires ValidEnv(env) && i < |s.axes| == |s.commands| == |env.configs| == |pdos|
    requires s.axes[i].resetOutput ==> s.axes[i].episodeActive
    requires s.axes[i].resetEdges <= env.options.maximumFaultResets
    ensures var (s', out) := Evaluate(env, s, bus, pdos, now);
            var clear := FaultClearObserved(bus, i, pdos[i].statusWord);
            var edge := out.requests[i] == FaultReset && !s.axes[i].resetOutput;
            && (out.requests[i] == FaultReset ==> Decode(pdos[i].statusWord) == Fault)
            && (s'.axes[i].resetOutput <==> out.requests[i] == FaultReset)
            && (s'.axes[i].episodeActive <==> !clear)
            && s'.axes[i].resetEdges <= env.options.maximumFaultResets
            && (clear ==> s'.axes[i].resetEdges == 0 && out.requests[i] != FaultReset)
            && (!clear ==> s'.axes[i].resetEdges == EpisodeEdges(s.axes[i]) + (if edge then 1 else 0))
  {
    var a := Assess(env, s, bus, pdos[i], now, i);
    var all := Assessments(env, s, bus, pdos, now);
    assert all[i] == a;
    DecideReset(env.options, s, a.state, Requested(s, i), FinalReasons(env, all, i), FinalTrigger(env, all, i),
                pdos[i], now);
  }

  /** One cycle: the latch equality is kept, and exactly the pulses on the wire are counted. */
  lemma ResetStep(env: Env, r: Robot, e: Event, i: nat)
    requires ValidEnv(env) && Shaped(env, r) && Drives(env, e) && i < |env.configs|
    requires LatchInv(env, r, i)
    ensures var r' := Step(env, r, e);
            && LatchInv(env, r', i)
            && (ClearObserved(env, e, i) ==> !Pulses(env, r, e, i) && EpisodeEdges(r'.sup.axes[i]) == 0)
            && (!ClearObserved(env, e, i) ==>
                  EpisodeEdges(r'.sup.axes[i])
                  == EpisodeEdges(r.sup.axes[i]) + (if Pulses(env, r, e, i) then 1 else 0))
  {
    SupervisorResetStep(env, r.sup, e.bus, e.pdos, e.now, i);
    ClearMeans(env, e, i);
    var request := SupervisorOutput(env, r, e).requests[i];
    assert SupervisorOutput(env, r, e).commands[i] == Outgoing(r.sup, i, request);
    AxisObeys(env.configs[i].limits, r.axes[i], r.sup, i, request, e.pdos[i]);
    ControlWordCauses(Decode(e.pdos[i].statusWord), AxisOutput(env, r, e, i).request, r.axes[i].latched);
  }

  /** After every event of every run the axis latch equals the supervisor's `fault_reset_output_active`. */
  lemma {:induction false} LatchAlwaysAgrees(env: Env, events: seq<Event>, k: nat, i: nat)
    requires ValidEnv(env) && k <= |events| && i < |env.configs|
    ensures LatchInv(env, At(env, events, k), i)
  {
    if k > 0 {
      LatchAlwaysAgrees(env, events, k - 1, i);
      EpisodeStep(env, At(env, events, k - 1), events[k - 1], i);
    }
  }

  /** One event of any kind. */
  lemma EpisodeStep(env: Env, r: Robot, e: Event, i: nat)
    requires ValidEnv(env) && Shaped(env, r) && i < |env.configs| && LatchInv(env, r, i)
    ensures LatchInv(env, Step(env, r, e), i)
    ensures !(Drives(env, e) && ClearObserved(env, e, i)) ==>
              EpisodeEdges(Step(env, r, e).sup.axes[i])
              == EpisodeEdges(r.sup.axes[i]) + (if Drives(env, e) && Pulses(env, r, e, i) then 1 else 0)
  {
    if Drives(env, e) {
      ResetStep(env, r, e, i);
    } else {
      IdleStep(env, r, e);
    }
  }

  /** The number of reset pulses on axis `i` in the events from `j` up to `k`. */
  function PulseCount(env: Env, events: seq<Event>, i: nat, j: nat, k: nat): nat
    requires |env.configs| <= MAX_AXES && i < |env.configs| && j <= k <= |events|
    decreases k
  {
    if j == k then 0
    else
      PulseCount(env, events, i, j, k - 1)
      + if Drives(env, events[k - 1]) && Pulses(env, At(env, events, k - 1), events[k - 1], i) then 1 else 0
  }

  /** Over any such stretch the supervisor's count grows by exactly the pulses on the wire. */
  lemma {:induction false} PulsesAreCounted(env: Env, events: seq<Event>, i: nat, j: nat, k: nat)
    requires ValidEnv(env) && i < |env.configs| && j <= k <= |events|
    requires forall t :: j <= t < k && Drives(env, events[t]) ==> !ClearObserved(env, events[t], i)
    ensures EpisodeEdges(At(env, events, k).sup.axes[i])
            == EpisodeEdges(At(env, events, j).sup.axes[i]) + PulseCount(env, events, i, j, k)
    decreases k
  {
    if j < k {
      PulsesAreCounted(env, events, i, j, k - 1);
      LatchAlwaysAgrees(env, events, k - 1, i);
      EpisodeStep(env, At(env, events, k - 1), events[k - 1], i);
    }
  }

  /**
   Over any stretch of any run in which no cycle observes the fault cleared, the
   control word 0x0080 appears at most `maximumFaultResets` times on the axis.
   */
  lemma ResetBudget(env: Env, events: seq<Event>, i: nat, j: nat, k: nat)
    requires ValidEnv(env) && i < |env.configs| && j <= k <= |events|
    requires forall t :: j <= t < k && Drives(env, events[t]) ==> !ClearObserved(env, events[t], i)
    ensures PulseCount(env, events, i, j, k) <= env.options.maximumFaultResets
  {
    PulsesAreCounted(env, events, i, j, k);
    LatchAlwaysAgrees(env, events, k, i);
  }
}
