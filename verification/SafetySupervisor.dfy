/**
 The safety supervisor: command acceptance, per-axis safety reasons, safety
 groups, the fault-reset budget and the stop phase of every axis.

 `Accept` and `Evaluate` are the specification; class `Supervisor` computes them
 with the in-place loops of the daemon.
 */
module SafetySupervisor {
  import opened Wrappers
  import opened Cia402

  const MAX_AXES := 12
  const UINT32_MAX := 0xFFFF_FFFF
  const NS_PER_MS := 1_000_000
  const INT64_MAX := 0x7FFF_FFFF_FFFF_FFFF

  datatype Reason =
    | Timeout
    | Wkc
    | LinkDown
    | SlaveDown
    | ModeDiffers
    | TooFar
    | InvalidCommands
    | FaultResetLimit
    | Group
    | Shutdown
    | ProcessData
    | DriveFault
    | Serial

  datatype Options = Options(
    wkcLimit: nat,
    maximumFaultResets: nat,
    safeStopTimeout: int,
    zeroVelocityThreshold: int,
    zeroVelocityCycles: nat)

  predicate ValidOptions(options: Options) {
    && options.wkcLimit > 0
    && 0 < options.maximumFaultResets <= UINT32_MAX
    && options.safeStopTimeout > 0
    && options.zeroVelocityThreshold >= 0
    && options.zeroVelocityCycles > 0
  }

  datatype AxisProfile = AxisProfile(limits: Limits, commandTimeoutMs: int, safetyGroup: string)

  datatype AxisConfig = AxisConfig(commandTimeout: int, limits: Limits, group: nat)

  /** What never changes once the supervisor is configured. */
  datatype Env = Env(options: Options, configs: seq<AxisConfig>)

  datatype StopPhase = Running | Stopping | Disabled

  datatype AxisState = AxisState(
    phase: StopPhase,
    stopStarted: int,
    zeroCycles: nat,
    resetEdges: nat,
    stoppedSequence: nat,
    lastTarget: real,
    hasLastTarget: bool,
    episodeActive: bool,
    resetOutput: bool)

  const INITIAL_AXIS := AxisState(Running, 0, 0, 0, 0, 0.0, false, false, false)
  const NO_COMMAND := AxisCommand(0, 0, 0.0, 0, 0)

  datatype State = State(
    axes: seq<AxisState>,
    commands: seq<AxisCommand>,
    wkcFailures: nat,
    lastSequence: nat,
    lastTimestamp: int,
    hasCommand: bool,
    commandsValid: bool,
    shutdownRequested: bool,
    shutdownComplete: bool)

  ghost predicate WellFormed(env: Env, s: State) {
    |s.axes| == |s.commands| == |env.configs|
  }

  function InitialState(count: nat): State {
    State(seq(count, _ => INITIAL_AXIS), seq(count, _ => NO_COMMAND), 0, 0, 0, false, false, false, false)
  }

  // ----- Command acceptance -----------------------------------------------

  datatype RawSnapshot = RawSnapshot(sequence: nat, timestamp: int, axisCount: nat, axes: seq<AxisCommand>)

  /** A snapshot always carries the full array; only the first `axisCount` entries mean anything. */
  type Snapshot = s: RawSnapshot | |s.axes| == MAX_AXES
    witness RawSnapshot(0, 0, 0, seq(MAX_AXES, _ => NO_COMMAND))

  datatype Acceptance = Accepted | Duplicate | Rejected

  predicate ValidCommand(snapshot: Snapshot, command: AxisCommand) {
    && command.sequence == snapshot.sequence
    && command.timestamp == snapshot.timestamp
    && command.reserved == 0
    && ValidFlags(command.flags)
  }

  predicate ValidSnapshot(count: nat, snapshot: Snapshot, now: int)
    requires count <= MAX_AXES
  {
    && snapshot.axisCount == count
    && 0 <= snapshot.timestamp <= now
    && forall i :: 0 <= i < count ==> ValidCommand(snapshot, snapshot.axes[i])
  }

  function Accept(s: State, snapshot: Snapshot, now: int): (State, Acceptance)
    requires |s.commands| <= MAX_AXES
  {
    var count := |s.commands|;
    var refused := (s.(commandsValid := false), Rejected);
    if !ValidSnapshot(count, snapshot, now) then refused
    else if s.hasCommand && (snapshot.sequence < s.lastSequence || snapshot.timestamp < s.lastTimestamp) then refused
    else if s.hasCommand && snapshot.sequence == s.lastSequence then
      if snapshot.timestamp == s.lastTimestamp && snapshot.axes[..count] == s.commands then (s, Duplicate)
      else refused
    else
      (s.(commands := snapshot.axes[..count], lastSequence := snapshot.sequence,
          lastTimestamp := snapshot.timestamp, hasCommand := true, commandsValid := true), Accepted)
  }

  /** What the daemon's clients promise: every axis repeats the header and carries at most one known flag. */
  predicate SoundSnapshot(count: nat, snapshot: Snapshot, now: int)
    requires count <= MAX_AXES
  {
    && snapshot.axisCount == count && 0 <= snapshot.timestamp && snapshot.timestamp <= now
    && forall i :: 0 <= i < count ==>
         var axis := snapshot.axes[i];
         axis == AxisCommand(snapshot.sequence, snapshot.timestamp, axis.target, axis.flags, 0)
         && axis.flags in {0, 1, 2, 4, 8}
  }

  /**
   The verdict on a snapshot, from its fields: accepted exactly when sound, with a larger sequence and no earlier
   timestamp than what is held; a duplicate exactly when it repeats what is held; and only a refusal costs trust.
   */
  lemma AcceptanceIsExact(s: State, snapshot: Snapshot, now: int)
    requires |s.commands| <= MAX_AXES
    ensures var (s', verdict) := Accept(s, snapshot, now);
            var sound, axes := SoundSnapshot(|s.commands|, snapshot, now), snapshot.axes[..|s.commands|];
            && (verdict == Accepted <==>
                  && sound
                  && (s.hasCommand ==> snapshot.sequence > s.lastSequence && snapshot.timestamp >= s.lastTimestamp))
            && (verdict == Duplicate <==>
                  && sound && s.hasCommand
                  && (snapshot.sequence, snapshot.timestamp, axes) == (s.lastSequence, s.lastTimestamp, s.commands))
            && (s'.commandsValid <==> verdict == Accepted || (verdict == Duplicate && s.commandsValid))
            && (s'.lastSequence, s'.lastTimestamp, s'.commands)
               == (if verdict == Accepted then (snapshot.sequence, snapshot.timestamp, axes)
                   else (s.lastSequence, s.lastTimestamp, s.commands))
            && s' == s.(lastSequence := s'.lastSequence, lastTimestamp := s'.lastTimestamp, commands := s'.commands,
                        commandsValid := s'.commandsValid, hasCommand := s.hasCommand || verdict == Accepted)
  {
    SoundMeansValid(|s.commands|, snapshot, now);
  }

  lemma SoundMeansValid(count: nat, snapshot: Snapshot, now: int)
    requires count <= MAX_AXES
    ensures SoundSnapshot(count, snapshot, now) <==> ValidSnapshot(count, snapshot, now)
  {
    forall i | 0 <= i < count
      ensures ValidFlags(snapshot.axes[i].flags) <==> snapshot.axes[i].flags in {0, 1, 2, 4, 8}
    {
      FlagWordsAreExact(snapshot.axes[i].flags);
    }
  }

  // ----- Evaluation: each axis on its own ---------------------------------

  datatype Bus = Bus(
    workingCounter: nat,
    expectedWorkingCounter: Option<nat>,
    workingCounterComplete: bool,
    linkUp: bool,
    allOperational: bool,
    processDataValid: bool,
    operationalAxes: set<nat>,
    externalStops: set<nat>)

  predicate CounterBad(bus: Bus) {
    !bus.workingCounterComplete
    || (bus.expectedWorkingCounter.Some? && bus.workingCounter != bus.expectedWorkingCounter.value)
  }

  function NextWkcFailures(failures: nat, bus: Bus): nat {
    if !CounterBad(bus) then 0 else if failures < UINT32_MAX then failures + 1 else failures
  }

  predicate Operational(bus: Bus, axis: nat) {
    bus.allOperational || axis in bus.operationalAxes
  }

  datatype TargetEvaluation = TargetEvaluation(actual: real, staged: real, tooFar: bool)

  function EvaluateTarget(limits: Limits, last: real, command: AxisCommand, pdo: Pdo): TargetEvaluation {
    var converted := ActualSetpoint(limits, pdo);
    if converted.None? then TargetEvaluation(0.0, 0.0, false)
    else
      var actual := converted.value;
      if RequestFromFlags(command.flags) != Enable then TargetEvaluation(actual, actual, false)
      else
        var clamped := Clamp(command.target, limits.minimum, limits.maximum);
        var staged := Clamp(clamped, last - limits.slewLimit, last + limits.slewLimit);
        TargetEvaluation(
          actual, staged,
          FollowingErrorActive(Decode(pdo.statusWord)) && Abs(staged - actual) > limits.followingErrorLimit)
  }

  function Requested(s: State, axis: nat): AxisRequest
    requires axis < |s.commands|
  {
    if s.hasCommand then RequestFromFlags(s.commands[axis].flags) else Disable
  }

  /** The bus shows, credibly, that the axis has no fault: this ends a fault episode. */
  predicate FaultClearObserved(bus: Bus, axis: nat, statusWord: bv16) {
    && Decode(statusWord) !in {Fault, FaultReactionActive, Unknown}
    && bus.linkUp && bus.processDataValid && Operational(bus, axis)
  }

  function ObserveEpisode(state: AxisState, clear: bool): AxisState {
    if clear then state.(episodeActive := false, resetEdges := 0, resetOutput := false)
    else if !state.episodeActive then state.(episodeActive := true, resetEdges := 0, resetOutput := false)
    else state
  }

  datatype Assessment = Assessment(
    state: AxisState,
    target: TargetEvaluation,
    reasons: set<Reason>,
    candidate: bool,
    trigger: bool)

  function ReasonIf(condition: bool, reason: Reason): set<Reason> {
    if condition then {reason} else {}
  }

  function BusReasons(env: Env, bus: Bus, wkcFailures: nat, axis: nat): set<Reason> {
    ReasonIf(axis in bus.externalStops, Serial)
    + ReasonIf(!bus.linkUp, LinkDown)
    + ReasonIf(wkcFailures >= env.options.wkcLimit, Wkc)
    + ReasonIf(!bus.processDataValid && !CounterBad(bus) && bus.linkUp, ProcessData)
    + ReasonIf(!Operational(bus, axis), SlaveDown)
  }

  function CommandReasons(s: State, timeout: int, now: int): set<Reason> {
    ReasonIf(!s.hasCommand || now < s.lastTimestamp || now - s.lastTimestamp > timeout, Timeout)
    + ReasonIf(!s.commandsValid, InvalidCommands)
    + ReasonIf(s.shutdownRequested, Shutdown)
  }

  /** A reset is affordable when it is not a new edge or the episode's budget still has room. */
  predicate ResetAffordable(options: Options, state: AxisState) {
    state.resetOutput || state.resetEdges < options.maximumFaultResets
  }

  function DriveReasons(options: Options, state: AxisState, requested: AxisRequest, statusWord: bv16): set<Reason> {
    var drive := Decode(statusWord);
    var reset := drive == Fault && requested == FaultReset;
    ReasonIf((drive == Fault || drive == FaultReactionActive) && !(reset && ResetAffordable(options, state)),
             DriveFault)
    + ReasonIf(reset && !ResetAffordable(options, state), FaultResetLimit)
  }

  function KnownTarget(state: AxisState, limits: Limits, pdo: Pdo): AxisState {
    if state.hasLastTarget then state
    else state.(lastTarget := AxisActual(limits, pdo), hasLastTarget := true)
  }

  function Assess(env: Env, s: State, bus: Bus, pdo: Pdo, now: int, axis: nat): Assessment
    requires axis < |s.axes| == |s.commands| == |env.configs|
  {
    var config := env.configs[axis];
    var requested := Requested(s, axis);
    var known := KnownTarget(s.axes[axis], config.limits, pdo);
    var state := ObserveEpisode(known, FaultClearObserved(bus, axis, pdo.statusWord));
    var target := EvaluateTarget(config.limits, known.lastTarget, s.commands[axis], pdo);
    var reasons :=
      CommandReasons(s, config.commandTimeout, now)
      + BusReasons(env, bus, NextWkcFailures(s.wkcFailures, bus), axis)
      + ReasonIf(pdo.modeDisplay != ModeCode(config.limits.mode), ModeDiffers)
      + ReasonIf(target.tooFar, TooFar)
      + DriveReasons(env.options, state, requested, pdo.statusWord);
    Assessment(
      state, target, reasons,
      Decode(pdo.statusWord) == Fault && requested == FaultReset && reasons == {},
      requested == QuickStop || reasons != {})
  }

  // ----- Evaluation: safety groups ----------------------------------------

  predicate SameGroup(configs: seq<AxisConfig>, i: nat, j: nat)
    requires i < |configs| && j < |configs|
  {
    configs[i].group == configs[j].group
  }

  /** Some axis of the group of `i` triggers by itself. */
  predicate GroupTriggered(configs: seq<AxisConfig>, triggers: seq<bool>, i: nat)
    requires |configs| == |triggers| && i < |configs|
  {
    exists j :: 0 <= j < |triggers| && SameGroup(configs, i, j) && triggers[j]
  }

  /** Another axis of the group of `i` is about to pulse its fault reset while `i` is not. */
  predicate PeerResets(configs: seq<AxisConfig>, candidates: seq<bool>, i: nat)
    requires |configs| == |candidates| && i < |configs|
  {
    !candidates[i] && exists j :: 0 <= j < |candidates| && j != i && SameGroup(configs, i, j) && candidates[j]
  }

  /** When the scan reaches `c`, its group has already triggered at or before `c`. */
  predicate TriggeredBy(configs: seq<AxisConfig>, triggers: seq<bool>, c: nat)
    requires |configs| == |triggers| && c < |configs|
  {
    exists d :: 0 <= d <= c && SameGroup(configs, c, d) && triggers[d]
  }

  /** Among the sources scanned before `limit`, another axis of the group of `i` was found triggered. */
  predicate Reached(configs: seq<AxisConfig>, triggers: seq<bool>, limit: nat, i: nat)
    requires |configs| == |triggers| && i < |configs| && limit <= |configs|
  {
    exists c :: 0 <= c < limit && c != i && SameGroup(configs, i, c) && TriggeredBy(configs, triggers, c)
  }

  /** The scan carries a trigger to the whole group, whatever the order of the axes. */
  lemma ScanIsGroupClosure(configs: seq<AxisConfig>, triggers: seq<bool>, i: nat)
    requires |configs| == |triggers| && i < |configs|
    ensures triggers[i] || Reached(configs, triggers, |configs|, i) <==> GroupTriggered(configs, triggers, i)
  {
    if triggers[i] {
      assert SameGroup(configs, i, i);
    }
    if GroupTriggered(configs, triggers, i) && !triggers[i] {
      var j :| 0 <= j < |triggers| && SameGroup(configs, i, j) && triggers[j];
      assert SameGroup(configs, j, j);
      assert TriggeredBy(configs, triggers, j);
    }
    if Reached(configs, triggers, |configs|, i) {
      var c :| 0 <= c < |configs| && c != i && SameGroup(configs, i, c) && TriggeredBy(configs, triggers, c);
      var d :| 0 <= d <= c && SameGroup(configs, c, d) && triggers[d];
      assert SameGroup(configs, i, d);
    }
  }

  /** Axis `i` triggers, and no other axis of its group does by itself. */
  predicate SoleTrigger(configs: seq<AxisConfig>, triggers: seq<bool>, i: nat)
    requires |configs| == |triggers| && i < |configs|
  {
    triggers[i] && forall d :: 0 <= d < |triggers| && d != i && SameGroup(configs, i, d) ==> !triggers[d]
  }

  /**
   The group flag depends on the order of the axes: of a group with one trigger every other member
   carries it, and the one that started the stop does exactly when a later axis shares its group.
   */
  lemma GroupFlagFollowsOrder(configs: seq<AxisConfig>, triggers: seq<bool>, i: nat, j: nat)
    requires |configs| == |triggers| && i < |configs| && SoleTrigger(configs, triggers, i)
    requires j < |configs| && SameGroup(configs, i, j)
    ensures Reached(configs, triggers, |configs|, j) <==>
              j != i || exists k :: i < k < |configs| && SameGroup(configs, i, k)
  {
    assert SameGroup(configs, i, i) && TriggeredBy(configs, triggers, i);
    if k :| i < k < |configs| && SameGroup(configs, i, k) {
      assert SameGroup(configs, k, i);
      assert TriggeredBy(configs, triggers, k);
    }
    if j == i && Reached(configs, triggers, |configs|, i) {
      var c :| 0 <= c < |configs| && c != i && SameGroup(configs, i, c) && TriggeredBy(configs, triggers, c);
      var d :| 0 <= d <= c && SameGroup(configs, c, d) && triggers[d];
      assert SameGroup(configs, i, d);
    }
    if j != i {
      assert SameGroup(configs, j, i);
    }
  }

  /** Two axes of one group, one of which triggers: it carries the flag itself as the first, not as the second. */
  lemma SwappedAxesSwapTheFlag(config: AxisConfig)
    ensures Reached([config, config], [true, false], 2, 0) && !Reached([config, config], [false, true], 2, 1)
  {
    var configs := [config, config];
    assert SameGroup(configs, 0, 1);
    GroupFlagFollowsOrder(configs, [true, false], 0, 0);
    GroupFlagFollowsOrder(configs, [false, true], 1, 1);
  }

  lemma ReachedSelf(configs: seq<AxisConfig>, triggers: seq<bool>, c: nat)
    requires |configs| == |triggers| && c < |configs|
    ensures triggers[c] || Reached(configs, triggers, c, c) <==> TriggeredBy(configs, triggers, c)
  {
    if triggers[c] {
      assert SameGroup(configs, c, c);
    }
    if TriggeredBy(configs, triggers, c) && !triggers[c] {
      var d :| 0 <= d <= c && SameGroup(configs, c, d) && triggers[d];
      assert SameGroup(configs, d, d);
      assert TriggeredBy(configs, triggers, d);
    }
    if Reached(configs, triggers, c, c) {
      var b :| 0 <= b < c && b != c && SameGroup(configs, c, b) && TriggeredBy(configs, triggers, b);
      var d :| 0 <= d <= b && SameGroup(configs, b, d) && triggers[d];
      assert SameGroup(configs, c, d);
    }
  }

  lemma ReachedStep(configs: seq<AxisConfig>, triggers: seq<bool>, limit: nat, i: nat)
    requires |configs| == |triggers| && i < |configs| && limit < |configs|
    ensures Reached(configs, triggers, limit + 1, i)
            <==> Reached(configs, triggers, limit, i)
                 || (limit != i && SameGroup(configs, i, limit) && TriggeredBy(configs, triggers, limit))
  {
  }

  /** The first propagation loop, in place over `triggers` and `reasons`. */
  method PropagateTriggers(configs: seq<AxisConfig>, own: seq<bool>, ownReasons: seq<set<Reason>>)
    returns (triggers: seq<bool>, reasons: seq<set<Reason>>)
    requires |configs| == |own| == |ownReasons|
    ensures |triggers| == |reasons| == |configs|
    ensures forall i :: 0 <= i < |configs| ==> triggers[i] == GroupTriggered(configs, own, i)
    ensures forall i :: 0 <= i < |configs| ==>
              reasons[i] == ownReasons[i] + ReasonIf(Reached(configs, own, |configs|, i), Group)
  {
    triggers, reasons := own, ownReasons;
    for source := 0 to |configs|
      invariant |triggers| == |reasons| == |configs|
      invariant forall i :: 0 <= i < |configs| ==> triggers[i] == (own[i] || Reached(configs, own, source, i))
      invariant forall i :: 0 <= i < |configs| ==>
                  reasons[i] == ownReasons[i] + ReasonIf(Reached(configs, own, source, i), Group)
    {
      ReachedSelf(configs, own, source);
      forall i | 0 <= i < |configs| {
        ReachedStep(configs, own, source, i);
      }
      if triggers[source] {
        for member := 0 to |configs|
          invariant |triggers| == |reasons| == |configs|
          invariant forall i :: 0 <= i < |configs| ==>
                      triggers[i] == (own[i] || Reached(configs, own, if i < member then source + 1 else source, i))
          invariant forall i :: 0 <= i < |configs| ==>
                      reasons[i] == ownReasons[i]
                                    + ReasonIf(Reached(configs, own, if i < member then source + 1 else source, i),
                                               Group)
        {
          if member != source && configs[member].group == configs[source].group {
            triggers := triggers[member := true];
            reasons := reasons[member := reasons[member] + {Group}];
          }
        }
      }
    }
    forall i | 0 <= i < |configs|
      ensures triggers[i] == GroupTriggered(configs, own, i)
    {
      ScanIsGroupClosure(configs, own, i);
    }
  }

  /** Whether, among the sources scanned before `limit`, a resetting peer of `i` was found. */
  predicate ResetReached(configs: seq<AxisConfig>, candidates: seq<bool>, limit: nat, i: nat)
    requires |configs| == |candidates| && i < |configs| && limit <= |configs|
  {
    !candidates[i] && exists j :: 0 <= j < limit && j != i && SameGroup(configs, i, j) && candidates[j]
  }

  lemma ResetReachedStep(configs: seq<AxisConfig>, candidates: seq<bool>, limit: nat, i: nat)
    requires |configs| == |candidates| && i < |configs| && limit < |configs|
    ensures ResetReached(configs, candidates, limit + 1, i)
            <==> ResetReached(configs, candidates, limit, i)
                 || (!candidates[i] && limit != i && SameGroup(configs, i, limit) && candidates[limit])
  {
  }

  /** The second propagation loop: a reset pulse holds every healthy peer of its group. */
  method PropagateResets(configs: seq<AxisConfig>, candidates: seq<bool>, triggers0: seq<bool>,
                         reasons0: seq<set<Reason>>)
    returns (triggers: seq<bool>, reasons: seq<set<Reason>>)
    requires |configs| == |candidates| == |triggers0| == |reasons0|
    ensures |triggers| == |reasons| == |configs|
    ensures forall i :: 0 <= i < |configs| ==> triggers[i] == (triggers0[i] || PeerResets(configs, candidates, i))
    ensures forall i :: 0 <= i < |configs| ==>
              reasons[i] == reasons0[i] + ReasonIf(PeerResets(configs, candidates, i), Group)
  {
    triggers, reasons := triggers0, reasons0;
    for source := 0 to |configs|
      invariant |triggers| == |reasons| == |configs|
      invariant forall i :: 0 <= i < |configs| ==>
                  triggers[i] == (triggers0[i] || ResetReached(configs, candidates, source, i))
      invariant forall i :: 0 <= i < |configs| ==>
                  reasons[i] == reasons0[i] + ReasonIf(ResetReached(configs, candidates, source, i), Group)
    {
      forall i | 0 <= i < |configs| {
        ResetReachedStep(configs, candidates, source, i);
      }
      if candidates[source] {
        for member := 0 to |configs|
          invariant |triggers| == |reasons| == |configs|
          invariant forall i :: 0 <= i < |configs| ==>
                      triggers[i] == (triggers0[i]
                                      || ResetReached(configs, candidates, if i < member then source + 1 else source,
                                                      i))
          invariant forall i :: 0 <= i < |configs| ==>
                      reasons[i] == reasons0[i]
                                    + ReasonIf(ResetReached(configs, candidates,
                                                            if i < member then source + 1 else source, i), Group)
        {
          if member != source && !candidates[member] && configs[member].group == configs[source].group {
            triggers := triggers[member := true];
            reasons := reasons[member := reasons[member] + {Group}];
          }
        }
      }
    }
  }

  // ----- Evaluation: the decision -----------------------------------------

  datatype Verdict = Verdict(state: AxisState, request: AxisRequest)

  /** The stop phase after this cycle's triggers, before the stop itself is advanced. */
  function EnterPhase(s: State, state: AxisState, requested: AxisRequest, triggered: bool, now: int): AxisState {
    if triggered && state.phase == Running then
      state.(phase := Stopping, stopStarted := now, zeroCycles := 0, stoppedSequence := s.lastSequence)
    else if !triggered && state.phase == Disabled && s.hasCommand
            && s.lastSequence > state.stoppedSequence && requested == Enable then
      state.(phase := Running)
    else state
  }

  predicate AtRest(options: Options, pdo: Pdo) {
    -options.zeroVelocityThreshold <= pdo.actualVelocity <= options.zeroVelocityThreshold
  }

  predicate StopTimedOut(options: Options, state: AxisState, now: int) {
    now >= state.stopStarted && now - state.stopStarted >= options.safeStopTimeout
  }

  /** One evaluation of a stop that began earlier. */
  function AdvanceStop(options: Options, state: AxisState, pdo: Pdo, now: int): Verdict {
    var zeroCycles := if AtRest(options, pdo) then state.zeroCycles + 1 else 0;
    var counted := state.(zeroCycles := zeroCycles);
    if zeroCycles >= options.zeroVelocityCycles || StopTimedOut(options, state, now)
    then Verdict(counted.(phase := Disabled), Disable)
    else Verdict(counted, QuickStop)
  }

  predicate ResetAllowed(options: Options, state: AxisState, requested: AxisRequest, reasons: set<Reason>, pdo: Pdo) {
    Decode(pdo.statusWord) == Fault && requested == FaultReset && reasons == {} && ResetAffordable(options, state)
  }

  function CountEdge(state: AxisState): AxisState {
    if state.resetOutput || state.resetEdges >= UINT32_MAX then state
    else state.(resetEdges := state.resetEdges + 1)
  }

  /** The decision without a reset; `entered` tells a stop that begins in this cycle. */
  function Hold(options: Options, state: AxisState, entered: bool, requested: AxisRequest, pdo: Pdo,
                now: int): Verdict {
    match state.phase
    case Stopping => if entered then Verdict(state, QuickStop) else AdvanceStop(options, state, pdo, now)
    case Disabled => Verdict(state, Disable)
    case Running => Verdict(state, if requested == FaultReset then Disable else requested)
  }

  function Decide(options: Options, s: State, assessed: AxisState, requested: AxisRequest,
                  reasons: set<Reason>, triggered: bool, pdo: Pdo, now: int): Verdict
  {
    var state := EnterPhase(s, assessed, requested, triggered, now);
    if ResetAllowed(options, assessed, requested, reasons, pdo) then
      Verdict(CountEdge(state).(resetOutput := true), FaultReset)
    else
      Hold(options, state.(resetOutput := false), assessed.phase == Running, requested, pdo, now)
  }

  // ----- Evaluation: the whole robot --------------------------------------

  function Assessments(env: Env, s: State, bus: Bus, pdos: seq<Pdo>, now: int): (a: seq<Assessment>)
    requires |s.axes| == |s.commands| == |env.configs| == |pdos|
    ensures |a| == |pdos|
  {
    seq(|pdos|, i requires 0 <= i < |pdos| => Assess(env, s, bus, pdos[i], now, i))
  }

  function Triggers(a: seq<Assessment>): (t: seq<bool>)
    ensures |t| == |a|
  {
    seq(|a|, i requires 0 <= i < |a| => a[i].trigger)
  }

  function Candidates(a: seq<Assessment>): (c: seq<bool>)
    ensures |c| == |a|
  {
    seq(|a|, i requires 0 <= i < |a| => a[i].candidate)
  }

  predicate FinalTrigger(env: Env, a: seq<Assessment>, i: nat)
    requires i < |a| == |env.configs|
  {
    GroupTriggered(env.configs, Triggers(a), i) || PeerResets(env.configs, Candidates(a), i)
  }

  /** The reasons reported for axis `i`; the group reason also marks the axis that started the stop
      whenever a later axis of its group passes the trigger back to it. */
  function FinalReasons(env: Env, a: seq<Assessment>, i: nat): set<Reason>
    requires i < |a| == |env.configs|
  {
    a[i].reasons
    + ReasonIf(Reached(env.configs, Triggers(a), |a|, i), Group)
    + ReasonIf(PeerResets(env.configs, Candidates(a), i), Group)
  }

  function VerdictFor(env: Env, s: State, a: seq<Assessment>, pdo: Pdo, now: int, i: nat): Verdict
    requires i < |a| == |env.configs| == |s.commands|
  {
    Decide(env.options, s, a[i].state, Requested(s, i), FinalReasons(env, a, i), FinalTrigger(env, a, i), pdo, now)
  }

  /** The target is remembered as staged when the axis may move, and as measured otherwise. */
  function Remember(verdict: Verdict, target: TargetEvaluation): AxisState {
    verdict.state.(lastTarget := if verdict.request == Enable then target.staged else target.actual)
  }

  datatype Evaluation = Evaluation(
    commands: seq<AxisCommand>,
    requests: seq<AxisRequest>,
    reasons: seq<set<Reason>>,
    shutdownComplete: bool)

  function Outgoing(s: State, i: nat, request: AxisRequest): AxisCommand
    requires i < |s.commands|
  {
    AxisCommand(s.lastSequence, s.lastTimestamp, s.commands[i].target, FlagsForRequest(request), 0)
  }

  predicate AllDisable(requests: seq<AxisRequest>) {
    forall i :: 0 <= i < |requests| ==> requests[i] == Disable
  }

  function Verdicts(env: Env, s: State, bus: Bus, pdos: seq<Pdo>, now: int): (v: seq<Verdict>)
    requires |s.axes| == |s.commands| == |env.configs| == |pdos|
    ensures |v| == |pdos|
  {
    var a := Assessments(env, s, bus, pdos, now);
    seq(|pdos|, i requires 0 <= i < |pdos| => VerdictFor(env, s, a, pdos[i], now, i))
  }

  function Evaluate(env: Env, s: State, bus: Bus, pdos: seq<Pdo>, now: int): (r: (State, Evaluation))
    requires |s.axes| == |s.commands| == |env.configs| == |pdos|
    ensures |r.0.axes| == |r.0.commands| == |env.configs|
    ensures |r.1.commands| == |r.1.requests| == |r.1.reasons| == |env.configs|
  {
    var a := Assessments(env, s, bus, pdos, now);
    var v := Verdicts(env, s, bus, pdos, now);
    var requests := seq(|v|, i requires 0 <= i < |v| => v[i].request);
    var complete := s.shutdownRequested && AllDisable(requests);
    (s.(axes := seq(|v|, i requires 0 <= i < |v| => Remember(v[i], a[i].target)),
        wkcFailures := NextWkcFailures(s.wkcFailures, bus),
        shutdownComplete := complete),
     Evaluation(
       seq(|v|, i requires 0 <= i < |v| => Outgoing(s, i, v[i].request)),
       requests,
       seq(|v|, i requires 0 <= i < |v| => FinalReasons(env, a, i)),
       complete))
  }

  // ----- Safety group identifiers -----------------------------------------

  predicate ValidProfile(profile: AxisProfile) {
    && 0 < profile.commandTimeoutMs <= INT64_MAX / NS_PER_MS
    && ValidLimits(profile.limits)
  }

  predicate NamesShareGroup(profiles: seq<AxisProfile>, i: nat, j: nat)
    requires i < |profiles| && j < |profiles|
  {
    i == j || (profiles[i].safetyGroup != "" && profiles[i].safetyGroup == profiles[j].safetyGroup)
  }

  ghost predicate GroupsMatchNames(profiles: seq<AxisProfile>, groups: seq<nat>)
    requires |groups| <= |profiles|
  {
    forall i, j :: 0 <= i < |groups| && 0 <= j < |groups| ==>
      (groups[i] == groups[j] <==> NamesShareGroup(profiles, i, j))
  }

  function ConfigOf(profile: AxisProfile, group: nat): AxisConfig {
    AxisConfig(profile.commandTimeoutMs * NS_PER_MS, profile.limits, group)
  }

  /** A profile keeps its limits, and its timeout in milliseconds becomes one in nanoseconds. */
  lemma ConfigKeepsProfile(profile: AxisProfile, group: nat)
    ensures ConfigOf(profile, group) == AxisConfig(1000 * 1000 * profile.commandTimeoutMs, profile.limits, group)
  {
  }

  /** The group number of the next axis, found by scanning the axes before it. */
  method NextGroup(profiles: seq<AxisProfile>, groups: seq<nat>, fresh0: nat) returns (group: nat, next: nat)
    requires |groups| < |profiles|
    requires GroupsMatchNames(profiles, groups)
    requires forall i :: 0 <= i < |groups| ==> groups[i] < fresh0
    ensures group < next && fresh0 <= next
    ensures GroupsMatchNames(profiles, groups + [group])
  {
    var axis := |groups|;
    group, next := fresh0, fresh0 + 1;
    if profiles[axis].safetyGroup != "" {
      var previous := 0;
      while previous < axis
        invariant 0 <= previous <= axis
        invariant group == fresh0 && next == fresh0 + 1
        invariant forall p :: 0 <= p < previous ==> profiles[p].safetyGroup != profiles[axis].safetyGroup
      {
        if profiles[previous].safetyGroup == profiles[axis].safetyGroup {
          assert forall i :: 0 <= i < axis ==> (groups[i] == groups[previous] <==> NamesShareGroup(profiles, i,
                                                                                                   previous));
          group, next := groups[previous], fresh0;
          return;
        }
        previous := previous + 1;
      }
    }
  }

  datatype ConfigureError = AlreadyConfigured | BadCountOrOptions | BadAxisLimits

  class Supervisor {
    const options: Options
    var configured: bool
    var configs: seq<AxisConfig>
    var states: seq<AxisState>
    var commands: seq<AxisCommand>
    var lastRequests: seq<AxisRequest>
    var wkcFailures: nat
    var lastSequence: nat
    var lastTimestamp: int
    var hasCommand: bool
    var commandsValid: bool
    var shutdownRequested: bool
    var shutdownComplete: bool

    predicate Valid()
      reads this
    {
      && |configs| == |states| == |commands| == |lastRequests| <= MAX_AXES
      && (!configured ==> configs == [])
    }

    function Value(): State
      reads this
    {
      State(states, commands, wkcFailures, lastSequence, lastTimestamp,
            hasCommand, commandsValid, shutdownRequested, shutdownComplete)
    }

    function Environment(): Env
      reads this
    {
      Env(options, configs)
    }

    constructor (options: Options)
      ensures Valid() && !configured && this.options == options
      ensures Value() == InitialState(0)
    {
      this.options := options;
      configured := false;
      configs, states, commands, lastRequests := [], [], [], [];
      wkcFailures, lastSequence, lastTimestamp := 0, 0, 0;
      hasCommand, commandsValid, shutdownRequested, shutdownComplete := false, false, false, false;
    }

    /** The configurations of all axes, or the first bad profile's error; group ids are equal exactly for
        axes that share a non-empty group name. */
    static method ReadProfiles(profiles: seq<AxisProfile>) returns (result: Result<seq<AxisConfig>, ConfigureError>)
      ensures result.Success? <==> forall i :: 0 <= i < |profiles| ==> ValidProfile(profiles[i])
      ensures result.Failure? ==> result.error == BadAxisLimits
      ensures result.Success? ==>
                var configs := result.value;
                && |configs| == |profiles|
                && (forall i :: 0 <= i < |profiles| ==> configs[i] == ConfigOf(profiles[i], configs[i].group))
                && forall i, j :: 0 <= i < |profiles| && 0 <= j < |profiles| ==>
                     (configs[i].group == configs[j].group <==> NamesShareGroup(profiles, i, j))
    {
      var groups: seq<nat> := [];
      var accepted: seq<AxisConfig> := [];
      var next := 0;
      for axis := 0 to |profiles|
        invariant |groups| == |accepted| == axis
        invariant forall i :: 0 <= i < axis ==> ValidProfile(profiles[i])
        invariant forall i :: 0 <= i < axis ==> groups[i] < next
        invariant forall i :: 0 <= i < axis ==> accepted[i] == ConfigOf(profiles[i], groups[i])
        invariant GroupsMatchNames(profiles, groups)
      {
        if !ValidProfile(profiles[axis]) {
          return Failure(BadAxisLimits);
        }
        var group;
        group, next := NextGroup(profiles, groups, next);
        groups := groups + [group];
        accepted := accepted + [ConfigOf(profiles[axis], group)];
      }
      return Success(accepted);
    }

    method Configure(profiles: seq<AxisProfile>) returns (result: Result<(), ConfigureError>)
      requires Valid()
      modifies this
      ensures Valid()
      ensures result.Success? <==>
              !old(configured) && |profiles| <= MAX_AXES && ValidOptions(options)
              && forall i :: 0 <= i < |profiles| ==> ValidProfile(profiles[i])
      ensures result.Failure? ==> Value() == old(Value()) && Environment() == old(Environment())
                                  && configured == old(configured)
      ensures result.Success? ==> configured && |configs| == |profiles|
      ensures result.Success? && old(Value()) == InitialState(0) ==> Value() == InitialState(|profiles|)
      ensures result.Success? ==>
                forall i :: 0 <= i < |profiles| ==> configs[i] == ConfigOf(profiles[i], configs[i].group)
      ensures result.Success? ==>
                forall i, j :: 0 <= i < |profiles| && 0 <= j < |profiles| ==>
                                 (configs[i].group == configs[j].group <==> NamesShareGroup(profiles, i, j))
    {
      if configured {
        return Failure(AlreadyConfigured);
      }
      if |profiles| > MAX_AXES || !ValidOptions(options) {
        return Failure(BadCountOrOptions);
      }
      var accepted := ReadProfiles(profiles);
      if accepted.Failure? {
        return Failure(accepted.error);
      }
      configs := accepted.value;
      states := seq(|profiles|, _ => INITIAL_AXIS);
      commands := seq(|profiles|, _ => NO_COMMAND);
      lastRequests := seq(|profiles|, _ => Disable);
      configured := true;
      return Success(());
    }

    method SnapshotIsValid(snapshot: Snapshot, now: int) returns (valid: bool)
      requires Valid()
      ensures valid <==> configured && ValidSnapshot(|commands|, snapshot, now)
    {
      if !configured || snapshot.axisCount != |commands| || snapshot.timestamp < 0 || snapshot.timestamp > now {
        return false;
      }
      for axis := 0 to |commands|
        invariant forall i :: 0 <= i < axis ==> ValidCommand(snapshot, snapshot.axes[i])
      {
        if !ValidCommand(snapshot, snapshot.axes[axis]) {
          return false;
        }
      }
      return true;
    }

    /** Whether a snapshot repeats the held commands, axis by axis. */
    method RepeatsHeld(snapshot: Snapshot) returns (same: bool)
      requires Valid()
      ensures same <==> snapshot.timestamp == lastTimestamp && snapshot.axes[..|commands|] == commands
    {
      same := snapshot.timestamp == lastTimestamp;
      for axis := 0 to |commands|
        invariant same <==> snapshot.timestamp == lastTimestamp
                            && forall i :: 0 <= i < axis ==> snapshot.axes[i] == commands[i]
      {
        same := same && snapshot.axes[axis] == commands[axis];
      }
    }

    /** Copy the commands of a snapshot, axis by axis. */
    method TakeOver(snapshot: Snapshot)
      requires Valid()
      modifies `commands
      ensures Valid() && commands == snapshot.axes[..|old(commands)|]
    {
      for axis := 0 to |commands|
        invariant |commands| == |old(commands)|
        invariant commands[..axis] == snapshot.axes[..axis]
      {
        commands := commands[axis := snapshot.axes[axis]];
      }
    }

    method AcceptCommands(snapshot: Snapshot, now: int) returns (acceptance: Acceptance)
      requires Valid()
      modifies this
      ensures Valid() && Environment() == old(Environment()) && lastRequests == old(lastRequests)
      ensures configured == old(configured)
      ensures configured ==> (Value(), acceptance) == Accept(old(Value()), snapshot, now)
      ensures !configured ==> acceptance == Rejected && Value() == old(Value()).(commandsValid := false)
    {
      var valid := SnapshotIsValid(snapshot, now);
      if !valid {
        commandsValid := false;
        return Rejected;
      }
      if hasCommand {
        if snapshot.sequence < lastSequence || snapshot.timestamp < lastTimestamp {
          commandsValid := false;
          return Rejected;
        }
        if snapshot.sequence == lastSequence {
          var same := RepeatsHeld(snapshot);
          if same {
            return Duplicate;
          }
          commandsValid := false;
          return Rejected;
        }
      }
      TakeOver(snapshot);
      lastSequence := snapshot.sequence;
      lastTimestamp := snapshot.timestamp;
      hasCommand := true;
      commandsValid := true;
      return Accepted;
    }

    method RequestShutdown()
      requires Valid()
      modifies `shutdownRequested
      ensures Valid() && Value() == old(Value()).(shutdownRequested := true)
    {
      shutdownRequested := true;
    }

    /** The measured and the staged target of one axis; the first measurement is remembered. */
    method EvaluateTargetOf(axis: nat, pdo: Pdo) returns (evaluation: TargetEvaluation)
      requires Valid() && axis < |configs|
      modifies `states
      ensures states == old(states)[axis := KnownTarget(old(states)[axis], configs[axis].limits, pdo)]
      ensures evaluation == EvaluateTarget(configs[axis].limits, states[axis].lastTarget, commands[axis], pdo)
    {
      var limits := configs[axis].limits;
      var converted := ActualSetpoint(limits, pdo);
      var actual := if converted.Some? then converted.value else 0.0;
      if !states[axis].hasLastTarget {
        states := states[axis := states[axis].(lastTarget := actual, hasLastTarget := true)];
      }
      if RequestFromFlags(commands[axis].flags) != Enable || converted.None? {
        return TargetEvaluation(actual, actual, false);
      }
      var staged := Clamp(commands[axis].target, limits.minimum, limits.maximum);
      var last := states[axis].lastTarget;
      staged := Clamp(staged, last - limits.slewLimit, last + limits.slewLimit);
      var drive := Decode(pdo.statusWord);
      var checked := drive == SwitchedOn || drive == OperationEnabled || drive == QuickStopActive;
      return TargetEvaluation(actual, staged, checked && Abs(staged - actual) > limits.followingErrorLimit);
    }

    method CommandReasonsOf(axis: nat, now: int) returns (reasons: set<Reason>)
      requires Valid() && axis < |configs|
      ensures reasons == CommandReasons(Value(), configs[axis].commandTimeout, now)
    {
      reasons := {};
      if !hasCommand || now < lastTimestamp || now - lastTimestamp > configs[axis].commandTimeout {
        reasons := reasons + {Timeout};
      }
      if !commandsValid {
        reasons := reasons + {InvalidCommands};
      }
      if shutdownRequested {
        reasons := reasons + {Shutdown};
      }
    }

    method BusReasonsOf(bus: Bus, axis: nat) returns (reasons: set<Reason>)
      requires Valid() && axis < |configs|
      ensures reasons == BusReasons(Environment(), bus, NextWkcFailures(wkcFailures, bus), axis)
    {
      reasons := {};
      if axis in bus.externalStops {
        reasons := reasons + {Serial};
      }
      if !bus.linkUp {
        reasons := reasons + {LinkDown};
      }
      if NextWkcFailures(wkcFailures, bus) >= options.wkcLimit {
        reasons := reasons + {Wkc};
      }
      if !bus.processDataValid && !CounterBad(bus) && bus.linkUp {
        reasons := reasons + {ProcessData};
      }
      if !Operational(bus, axis) {
        reasons := reasons + {SlaveDown};
      }
    }

    /** A credible sight of a drive without fault ends the fault episode; anything else begins or continues one. */
    method ObserveFault(bus: Bus, pdo: Pdo, axis: nat)
      requires Valid() && axis < |configs|
      modifies `states
      ensures states == old(states)[axis := ObserveEpisode(old(states)[axis],
                                                           FaultClearObserved(bus, axis, pdo.statusWord))]
    {
      var drive := Decode(pdo.statusWord);
      var faulty := drive == Fault || drive == FaultReactionActive;
      if !faulty && drive != Unknown && bus.linkUp && bus.processDataValid && Operational(bus, axis) {
        states := states[axis := states[axis].(episodeActive := false, resetEdges := 0, resetOutput := false)];
      } else if !states[axis].episodeActive {
        states := states[axis := states[axis].(episodeActive := true, resetEdges := 0, resetOutput := false)];
      }
    }

    method DriveReasonsOf(axis: nat, request: AxisRequest, pdo: Pdo) returns (reasons: set<Reason>, affordable: bool)
      requires Valid() && axis < |configs|
      ensures reasons == DriveReasons(options, states[axis], request, pdo.statusWord)
      ensures Decode(pdo.statusWord) == Fault && request == FaultReset ==>
                (affordable <==> ResetAffordable(options, states[axis])) && (reasons == {} ==> affordable)
    {
      reasons := {};
      var drive := Decode(pdo.statusWord);
      var faulty, resettable := drive == Fault || drive == FaultReactionActive, drive == Fault;
      var newEdge := resettable && request == FaultReset && !states[axis].resetOutput;
      affordable := !newEdge || states[axis].resetEdges < options.maximumFaultResets;
      if faulty && (!resettable || request != FaultReset || !affordable) {
        reasons := reasons + {DriveFault};
        if request == FaultReset && !affordable {
          reasons := reasons + {FaultResetLimit};
        }
      }
      assert DriveFault in DriveReasons(options, states[axis], request, pdo.statusWord) <==> DriveFault in reasons;
    }

    /** Everything that speaks against motion, apart from the drive's own fault. */
    method ReasonsBesideFault(bus: Bus, pdo: Pdo, now: int, axis: nat)
      returns (target: TargetEvaluation, reasons: set<Reason>)
      requires Valid() && axis < |configs|
      modifies `states
      ensures states == old(states)[axis := KnownTarget(old(states)[axis], configs[axis].limits, pdo)]
      ensures target == EvaluateTarget(configs[axis].limits, states[axis].lastTarget, commands[axis], pdo)
      ensures reasons == CommandReasons(old(Value()), configs[axis].commandTimeout, now)
                         + BusReasons(Environment(), bus, NextWkcFailures(wkcFailures, bus), axis)
                         + ReasonIf(pdo.modeDisplay != ModeCode(configs[axis].limits.mode), ModeDiffers)
                         + ReasonIf(target.tooFar, TooFar)
    {
      var commandReasons := CommandReasonsOf(axis, now);
      var busReasons := BusReasonsOf(bus, axis);
      reasons := commandReasons + busReasons;
      if pdo.modeDisplay != ModeCode(configs[axis].limits.mode) {
        reasons := reasons + {ModeDiffers};
      }
      target := EvaluateTargetOf(axis, pdo);
      if target.tooFar {
        reasons := reasons + {TooFar};
      }
    }

    /** One round of the first loop. */
    method AssessAxis(bus: Bus, pdo: Pdo, now: int, axis: nat)
      returns (target: TargetEvaluation, reasons: set<Reason>, candidate: bool, trigger: bool)
      requires Valid() && axis < |configs|
      modifies `states
      ensures var a := Assess(Environment(), old(Value()), bus, pdo, now, axis);
              states == old(states)[axis := a.state] && a == Assessment(a.state, target, reasons, candidate, trigger)
    {
      var request := if hasCommand then RequestFromFlags(commands[axis].flags) else Disable;
      target, reasons := ReasonsBesideFault(bus, pdo, now, axis);
      ObserveFault(bus, pdo, axis);
      var driveReasons, affordable := DriveReasonsOf(axis, request, pdo);
      reasons := reasons + driveReasons;
      candidate := Decode(pdo.statusWord) == Fault && request == FaultReset && affordable && reasons == {};
      trigger := request == QuickStop;
      trigger := trigger || reasons != {};
    }

    /** A stop that began in an earlier cycle: count standstill, and end it at rest or after the timeout. */
    method AdvanceStopOf(axis: nat, pdo: Pdo, now: int) returns (decision: AxisRequest)
      requires Valid() && axis < |configs| && states[axis].phase == Stopping
      modifies `states
      ensures var v := AdvanceStop(options, old(states)[axis], pdo, now);
              states == old(states)[axis := v.state] && decision == v.request
    {
      var state := states[axis];
      decision := QuickStop;
      var velocity: int := pdo.actualVelocity;
      var magnitude := if velocity < 0 then -velocity else velocity;
      if magnitude <= options.zeroVelocityThreshold {
        state := state.(zeroCycles := state.zeroCycles + 1);
      } else {
        state := state.(zeroCycles := 0);
      }
      var confirmedZero := state.zeroCycles >= options.zeroVelocityCycles;
      var timedOut := now >= state.stopStarted && now - state.stopStarted >= options.safeStopTimeout;
      if confirmedZero || timedOut {
        state := state.(phase := Disabled);
        decision := Disable;
      }
      states := states[axis := state];
    }

    method HoldAxis(axis: nat, requested: AxisRequest, entered: bool, pdo: Pdo,
                    now: int) returns (decision: AxisRequest)
      requires Valid() && axis < |configs|
      modifies `states
      ensures var v := Hold(options, old(states)[axis], entered, requested, pdo, now);
              states == old(states)[axis := v.state] && decision == v.request
    {
      decision := requested;
      if states[axis].phase == Stopping {
        decision := QuickStop;
        if !entered {
          decision := AdvanceStopOf(axis, pdo, now);
        }
      } else if states[axis].phase == Disabled {
        decision := Disable;
      } else if requested == FaultReset {
        decision := Disable;
      }
    }

    /** A trigger takes a running axis into its stop; a newer command takes a disabled one out of it. */
    method EnterPhaseOf(axis: nat, requested: AxisRequest, triggered: bool, now: int) returns (entered: bool)
      requires Valid() && axis < |configs|
      modifies `states
      ensures states == old(states)[axis := EnterPhase(old(Value()), old(states)[axis], requested, triggered, now)]
      ensures entered <==> triggered && old(states)[axis].phase == Running
    {
      var state := states[axis];
      entered := false;
      if triggered && state.phase == Running {
        state := state.(phase := Stopping, stopStarted := now, zeroCycles := 0, stoppedSequence := lastSequence);
        entered := true;
      }
      if !triggered && state.phase == Disabled && hasCommand && lastSequence > state.stoppedSequence
         && requested == Enable {
        state := state.(phase := Running);
      }
      states := states[axis := state];
    }

    /** One round of the last loop. */
    method DecideAxis(pdo: Pdo, now: int, axis: nat, triggered: bool, reasons: set<Reason>, target: TargetEvaluation)
      returns (decision: AxisRequest)
      requires Valid() && axis < |configs|
      modifies `states
      ensures var v := Decide(options, old(Value()), old(states)[axis], Requested(old(Value()), axis),
                              reasons, triggered, pdo, now);
              states == old(states)[axis := Remember(v, target)] && decision == v.request
    {
      decision := DecideRequest(pdo, now, axis, triggered, reasons);
      var remembered := if decision == Enable then target.staged else target.actual;
      states := states[axis := states[axis].(lastTarget := remembered)];
    }

    method DecideRequest(pdo: Pdo, now: int, axis: nat, triggered: bool, reasons: set<Reason>)
      returns (decision: AxisRequest)
      requires Valid() && axis < |configs|
      modifies `states
      ensures var v := Decide(options, old(Value()), old(states)[axis], Requested(old(Value()), axis),
                              reasons, triggered, pdo, now);
              states == old(states)[axis := v.state] && decision == v.request
    {
      var requested := if hasCommand then RequestFromFlags(commands[axis].flags) else Disable;
      var state := states[axis];
      var resettable := Decode(pdo.statusWord) == Fault;
      var edge := resettable && requested == FaultReset && !state.resetOutput;
      var allowed := resettable && requested == FaultReset && reasons == {}
                     && (!edge || state.resetEdges < options.maximumFaultResets);
      assert allowed == ResetAllowed(options, state, requested, reasons, pdo);
      var entered := EnterPhaseOf(axis, requested, triggered, now);
      state := states[axis];
      decision := requested;
      if allowed {
        decision := FaultReset;
        if edge && state.resetEdges < UINT32_MAX {
          state := state.(resetEdges := state.resetEdges + 1);
        }
        states := states[axis := state.(resetOutput := true)];
      } else {
        states := states[axis := state.(resetOutput := false)];
        decision := HoldAxis(axis, requested, entered, pdo, now);
      }
    }

    /** The first loop of an evaluation: every axis on its own, its state updated in place. */
    method AssessAxes(bus: Bus, pdos: seq<Pdo>, now: int)
      returns (triggers: seq<bool>, candidates: seq<bool>, reasons: seq<set<Reason>>, targets: seq<TargetEvaluation>)
      requires Valid() && |pdos| == |configs|
      modifies `states
      ensures |states| == |triggers| == |candidates| == |reasons| == |targets| == |pdos|
      ensures var a := Assessments(Environment(), old(Value()), bus, pdos, now);
              forall i :: 0 <= i < |pdos| ==>
                a[i] == Assessment(states[i], targets[i], reasons[i], candidates[i], triggers[i])
    {
      triggers, candidates, reasons, targets := [], [], [], [];
      ghost var before, env := Value(), Environment();
      for axis := 0 to |pdos|
        invariant |triggers| == |candidates| == |reasons| == |targets| == axis
        invariant |states| == |pdos|
        invariant forall i :: axis <= i < |pdos| ==> states[i] == before.axes[i]
        invariant forall i :: 0 <= i < axis ==>
                    Assess(env, before, bus, pdos[i], now, i)
                    == Assessment(states[i], targets[i], reasons[i], candidates[i], triggers[i])
      {
        AssessIsLocal(env, before, Value(), bus, pdos[axis], now, axis);
        var target, why, candidate, trigger := AssessAxis(bus, pdos[axis], now, axis);
        targets := targets + [target];
        reasons := reasons + [why];
        candidates := candidates + [candidate];
        triggers := triggers + [trigger];
      }
    }

    /** The last loop of an evaluation: the decision of every axis, its state updated in place. */
    method DecideAxes(pdos: seq<Pdo>, now: int, triggers: seq<bool>, reasons: seq<set<Reason>>,
                      targets: seq<TargetEvaluation>)
      returns (outgoing: seq<AxisCommand>, requests: seq<AxisRequest>, allDisabled: bool)
      requires Valid() && |pdos| == |triggers| == |reasons| == |targets| == |configs|
      modifies `states
      ensures |states| == |outgoing| == |requests| == |pdos|
      ensures DecidedAs(options, old(Value()), pdos, now, triggers, reasons, targets, states, requests, outgoing)
      ensures allDisabled == AllDisable(requests)
    {
      outgoing, requests, allDisabled := [], [], true;
      ghost var before := Value();
      for axis := 0 to |pdos|
        invariant |outgoing| == |requests| == axis && |states| == |pdos|
        invariant forall i :: axis <= i < |pdos| ==> states[i] == before.axes[i]
        invariant forall i :: 0 <= i < axis ==>
                    var verdict := Decide(options, before, before.axes[i], Requested(before, i), reasons[i],
                                          triggers[i], pdos[i], now);
                    && requests[i] == verdict.request
                    && states[i] == Remember(verdict, targets[i])
                    && outgoing[i] == Outgoing(before, i, verdict.request)
        invariant allDisabled == AllDisable(requests)
      {
        DecideIsLocal(options, before, Value(), states[axis], axis, reasons[axis], triggers[axis], pdos[axis], now);
        var request := DecideAxis(pdos[axis], now, axis, triggers[axis], reasons[axis], targets[axis]);
        outgoing := outgoing + [commands[axis].(sequence := lastSequence, timestamp := lastTimestamp,
                                                flags := FlagsForRequest(request), reserved := 0)];
        requests := requests + [request];
        allDisabled := allDisabled && request == Disable;
      }
    }

    /** Both propagation loops over the assessments the first loop left behind. */
    method PropagateGroups(ghost a: seq<Assessment>, own: seq<bool>, candidates: seq<bool>,
                           ownReasons: seq<set<Reason>>)
      returns (triggers: seq<bool>, reasons: seq<set<Reason>>)
      requires |a| == |own| == |candidates| == |ownReasons| == |configs|
      requires forall i :: 0 <= i < |a| ==>
                 own[i] == a[i].trigger && candidates[i] == a[i].candidate && ownReasons[i] == a[i].reasons
      ensures |triggers| == |reasons| == |configs|
      ensures forall i :: 0 <= i < |a| ==>
                triggers[i] == FinalTrigger(Environment(), a, i) && reasons[i] == FinalReasons(Environment(), a, i)
    {
      assert own == Triggers(a) && candidates == Candidates(a);
      triggers, reasons := PropagateTriggers(configs, own, ownReasons);
      triggers, reasons := PropagateResets(configs, candidates, triggers, reasons);
    }

    /** Assessment and propagation together, up to the point where decisions start. */
    method AssessRobot(bus: Bus, pdos: seq<Pdo>, now: int)
      returns (triggers: seq<bool>, reasons: seq<set<Reason>>, targets: seq<TargetEvaluation>)
      requires Valid() && |pdos| == |configs|
      modifies `states, `wkcFailures
      ensures |states| == |triggers| == |reasons| == |targets| == |pdos|
      ensures wkcFailures == NextWkcFailures(old(wkcFailures), bus)
      ensures ReadyToDecide(Environment(), Assessments(Environment(), old(Value()), bus, pdos, now),
                            states, targets, triggers, reasons)
    {
      var failures := NextWkcFailures(wkcFailures, bus);
      ghost var a := Assessments(Environment(), Value(), bus, pdos, now);
      var candidates;
      triggers, candidates, reasons, targets := AssessAxes(bus, pdos, now);
      triggers, reasons := PropagateGroups(a, triggers, candidates, reasons);
      wkcFailures := failures;
    }

    /** Decide every axis and publish the requests; a shutdown is complete when all of them are disable. */
    method PublishDecisions(pdos: seq<Pdo>, now: int, triggers: seq<bool>, reasons: seq<set<Reason>>,
                            targets: seq<TargetEvaluation>)
      returns (output: Evaluation)
      requires Valid() && |pdos| == |configs| == |triggers| == |reasons| == |targets|
      modifies `states, `lastRequests, `shutdownComplete
      ensures Valid() && lastRequests == output.requests && output.reasons == reasons
      ensures |output.commands| == |output.requests| == |pdos|
      ensures output.shutdownComplete == (shutdownRequested && AllDisable(output.requests))
      ensures Value() == old(Value()).(axes := states, shutdownComplete := output.shutdownComplete)
      ensures DecidedAs(options, old(Value()), pdos, now, triggers, reasons, targets, states, output.requests,
                        output.commands)
    {
      var outgoing, requests, allDisabled := DecideAxes(pdos, now, triggers, reasons, targets);
      lastRequests := requests;
      shutdownComplete := shutdownRequested && allDisabled;
      output := Evaluation(outgoing, requests, reasons, shutdownComplete);
    }

    /** Decisions and publication, from the arrays that assessment left behind. */
    method DecideRobot(ghost before: State, ghost bus: Bus, pdos: seq<Pdo>, now: int,
                       triggers: seq<bool>, reasons: seq<set<Reason>>, targets: seq<TargetEvaluation>)
      returns (output: Evaluation)
      requires Valid() && |pdos| == |configs| == |triggers| == |reasons| == |targets|
      requires |before.axes| == |before.commands| == |configs|
      requires Value() == before.(axes := states, wkcFailures := NextWkcFailures(before.wkcFailures, bus))
      requires ReadyToDecide(Environment(), Assessments(Environment(), before, bus, pdos, now), states, targets,
                             triggers, reasons)
      modifies `states, `lastRequests, `shutdownComplete
      ensures Valid() && lastRequests == output.requests
      ensures Value() == Evaluate(Environment(), before, bus, pdos, now).0
      ensures output == Evaluate(Environment(), before, bus, pdos, now).1
    {
      ghost var middle := Value();
      output := PublishDecisions(pdos, now, triggers, reasons, targets);
      AssembleEvaluation(Environment(), before, middle, bus, pdos, now, triggers, reasons, targets, states,
                         output.requests, output.commands);
    }

    method EvaluateAxes(bus: Bus, pdos: seq<Pdo>, now: int) returns (output: Evaluation)
      requires Valid() && |pdos| == |configs|
      modifies `states, `wkcFailures, `lastRequests, `shutdownComplete
      ensures Valid() && lastRequests == output.requests
      ensures (Value(), output) == Evaluate(old(Environment()), old(Value()), bus, pdos, now)
    {
      ghost var before := Value();
      var triggers, reasons, targets := AssessRobot(bus, pdos, now);
      output := DecideRobot(before, bus, pdos, now, triggers, reasons, targets);
    }

    method EvaluateCycle(bus: Bus, pdos: seq<Pdo>, now: int) returns (output: Evaluation)
      requires Valid()
      modifies `states, `wkcFailures, `lastRequests, `shutdownComplete
      ensures Valid()
      ensures lastRequests == output.requests
      ensures configured && |pdos| == |configs| ==>
                (Value(), output) == Evaluate(old(Environment()), old(Value()), bus, pdos, now)
      ensures !(configured && |pdos| == |configs|) ==>
                && Value() == old(Value())
                && output == Evaluation(
                               seq(|configs|, _ => NO_COMMAND.(flags := COMMAND_QUICK_STOP)),
                               seq(|configs|, _ => QuickStop), seq(|configs|, _ => {ProcessData}), false)
    {
      if configured && |pdos| == |configs| {
        output := EvaluateAxes(bus, pdos, now);
      } else {
        lastRequests := seq(|configs|, _ => QuickStop);
        output := Evaluation(
          seq(|configs|, _ => NO_COMMAND.(flags := COMMAND_QUICK_STOP)), lastRequests,
          seq(|configs|, _ => {ProcessData}), false);
      }
    }
  }

  ghost predicate ReadyAt(env: Env, a: seq<Assessment>, axes: seq<AxisState>, targets: seq<TargetEvaluation>,
                          triggers: seq<bool>, reasons: seq<set<Reason>>, i: nat)
    requires i < |a| == |env.configs| == |axes| == |targets| == |triggers| == |reasons|
  {
    && axes[i] == a[i].state
    && targets[i] == a[i].target
    && triggers[i] == FinalTrigger(env, a, i)
    && reasons[i] == FinalReasons(env, a, i)
  }

  /** The arrays hold what the assessments and the group closure say. */
  ghost predicate ReadyToDecide(env: Env, a: seq<Assessment>, axes: seq<AxisState>, targets: seq<TargetEvaluation>,
                                triggers: seq<bool>, reasons: seq<set<Reason>>)
    requires |a| == |env.configs| == |axes| == |targets| == |triggers| == |reasons|
  {
    forall i :: 0 <= i < |a| ==> ReadyAt(env, a, axes, targets, triggers, reasons, i)
  }

  ghost predicate DecidedAt(options: Options, s: State, pdos: seq<Pdo>, now: int,
                            triggers: seq<bool>, reasons: seq<set<Reason>>, targets: seq<TargetEvaluation>,
                            axes: seq<AxisState>, requests: seq<AxisRequest>, outgoing: seq<AxisCommand>, i: nat)
    requires i < |triggers| == |reasons| == |targets| == |axes| == |requests| == |outgoing| == |pdos|
    requires |s.axes| == |s.commands| == |pdos|
  {
    var verdict := Decide(options, s, s.axes[i], Requested(s, i), reasons[i], triggers[i], pdos[i], now);
    && requests[i] == verdict.request
    && axes[i] == Remember(verdict, targets[i])
    && outgoing[i] == Outgoing(s, i, verdict.request)
  }

  /** Axis by axis, the last loop recorded the decision taken in state `s`. */
  ghost predicate DecidedAs(options: Options, s: State, pdos: seq<Pdo>, now: int,
                            triggers: seq<bool>, reasons: seq<set<Reason>>, targets: seq<TargetEvaluation>,
                            axes: seq<AxisState>, requests: seq<AxisRequest>, outgoing: seq<AxisCommand>)
    requires |triggers| == |reasons| == |targets| == |axes| == |requests| == |outgoing| == |pdos|
    requires |s.axes| == |s.commands| == |pdos|
  {
    forall i :: 0 <= i < |pdos| ==>
      DecidedAt(options, s, pdos, now, triggers, reasons, targets, axes, requests, outgoing, i)
  }

  /** What the loops leave behind, put together, is the specified evaluation. */
  lemma AssembleEvaluation(env: Env, s: State, middle: State, bus: Bus, pdos: seq<Pdo>, now: int,
                           triggers: seq<bool>, reasons: seq<set<Reason>>, targets: seq<TargetEvaluation>,
                           axes: seq<AxisState>, requests: seq<AxisRequest>, outgoing: seq<AxisCommand>)
    requires |s.axes| == |s.commands| == |env.configs| == |pdos|
    requires |triggers| == |reasons| == |targets| == |axes| == |requests| == |outgoing| == |pdos|
    requires middle == s.(axes := middle.axes, wkcFailures := NextWkcFailures(s.wkcFailures, bus))
    requires |middle.axes| == |pdos|
    requires ReadyToDecide(env, Assessments(env, s, bus, pdos, now), middle.axes, targets, triggers, reasons)
    requires DecidedAs(env.options, middle, pdos, now, triggers, reasons, targets, axes, requests, outgoing)
    ensures var complete := s.shutdownRequested && AllDisable(requests);
            && Evaluate(env, s, bus, pdos, now).0 == middle.(axes := axes, shutdownComplete := complete)
            && Evaluate(env, s, bus, pdos, now).1 == Evaluation(outgoing, requests, reasons, complete)
  {
    var a := Assessments(env, s, bus, pdos, now);
    var v := Verdicts(env, s, bus, pdos, now);
    forall i | 0 <= i < |pdos|
      ensures requests[i] == v[i].request && axes[i] == Remember(v[i], a[i].target)
      ensures outgoing[i] == Outgoing(s, i, v[i].request)
      ensures reasons[i] == FinalReasons(env, a, i)
    {
      assert ReadyAt(env, a, middle.axes, targets, triggers, reasons, i);
      assert DecidedAt(env.options, middle, pdos, now, triggers, reasons, targets, axes, requests, outgoing, i);
      DecideIsLocal(env.options, s, middle, a[i].state, i, reasons[i], triggers[i], pdos[i], now);
    }
    var r := Evaluate(env, s, bus, pdos, now);
    assert r.1.requests == requests;
    assert r.0.axes == axes;
    assert r.1.commands == outgoing;
    assert r.1.reasons == reasons;
  }

  /** An axis is assessed from its own state and the shared command record only. */
  lemma AssessIsLocal(env: Env, s: State, s': State, bus: Bus, pdo: Pdo, now: int, axis: nat)
    requires axis < |s.axes| == |s.commands| == |env.configs| == |s'.axes|
    requires s' == s.(axes := s'.axes) && s'.axes[axis] == s.axes[axis]
    ensures Assess(env, s', bus, pdo, now, axis) == Assess(env, s, bus, pdo, now, axis)
  {
  }

  /** A decision reads the shared command record but no other axis. */
  lemma DecideIsLocal(options: Options, s: State, s': State, state: AxisState, axis: nat,
                      reasons: set<Reason>, triggered: bool, pdo: Pdo, now: int)
    requires axis < |s.commands|
    requires s' == s.(axes := s'.axes, wkcFailures := s'.wkcFailures)
    ensures Decide(options, s', state, Requested(s', axis), reasons, triggered, pdo, now)
            == Decide(options, s, state, Requested(s, axis), reasons, triggered, pdo, now)
    ensures forall request :: Outgoing(s', axis, request) == Outgoing(s, axis, request)
  {
  }
}
