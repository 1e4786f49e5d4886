/**
 The CiA 402 drive layer: status-word decoding, unit conversion, the drive
 state machine with its fault-reset edge latch, and one axis cycle.

 Doubles are modelled as `real`, so every value is finite.
 */
module Cia402 {
  import opened Wrappers

  type Int16 = x: int | -0x8000 <= x < 0x8000
  type Int32 = x: int | -0x8000_0000 <= x < 0x8000_0000

  datatype DriveState =
    | NotReadyToSwitchOn
    | SwitchOnDisabled
    | ReadyToSwitchOn
    | SwitchedOn
    | OperationEnabled
    | QuickStopActive
    | FaultReactionActive
    | Fault
    | Unknown

  datatype AxisRequest = Disable | Enable | QuickStop | FaultReset

  datatype Mode = Csp | Csv | Cst

  function ModeCode(mode: Mode): int {
    match mode
    case Csp => 8
    case Csv => 9
    case Cst => 10
  }

  datatype Pdo = Pdo(
    statusWord: bv16,
    modeDisplay: int,
    actualPosition: Int32,
    actualVelocity: Int32,
    actualTorque: Int16,
    controlWord: bv16,
    targetPosition: Int32,
    targetVelocity: Int32,
    targetTorque: Int16)

  datatype AxisCommand = AxisCommand(sequence: nat, timestamp: int, target: real, flags: bv32, reserved: bv32)

  datatype Limits = Limits(
    mode: Mode,
    scale: real,
    minimum: real,
    maximum: real,
    slewLimit: real,
    followingErrorLimit: real)

  // ----- Status word ------------------------------------------------------

  function Decode(statusWord: bv16): DriveState {
    match statusWord & 0x004F
    case 0x0000 => NotReadyToSwitchOn
    case 0x0040 => SwitchOnDisabled
    case 0x000F => FaultReactionActive
    case 0x0008 => Fault
    case _ =>
      match statusWord & 0x006F
      case 0x0021 => ReadyToSwitchOn
      case 0x0023 => SwitchedOn
      case 0x0027 => OperationEnabled
      case 0x0007 => QuickStopActive
      case _ => Unknown
  }

  /** The mask and value under which the CiA 402 power drive system table lists a state. */
  function StatusPattern(state: DriveState): (bv16, bv16)
    requires state != Unknown
  {
    match state
    case NotReadyToSwitchOn => (0x004F, 0x0000)
    case SwitchOnDisabled => (0x004F, 0x0040)
    case ReadyToSwitchOn => (0x006F, 0x0021)
    case SwitchedOn => (0x006F, 0x0023)
    case OperationEnabled => (0x006F, 0x0027)
    case QuickStopActive => (0x006F, 0x0007)
    case FaultReactionActive => (0x004F, 0x000F)
    case Fault => (0x004F, 0x0008)
  }

  ghost predicate Matches(statusWord: bv16, state: DriveState)
    requires state != Unknown
  {
    statusWord & StatusPattern(state).0 == StatusPattern(state).1
  }

  /** Decoding is the table: the order in which the code tries the two masks never matters. */
  lemma DecodeIsTheTable(statusWord: bv16, state: DriveState)
    requires state != Unknown
    ensures Decode(statusWord) == state <==> Matches(statusWord, state)
  {
    WiderMaskDecides(statusWord);
  }

  /** The wider mask adds one bit, so its value fixes the value under the narrower mask. */
  lemma WiderMaskDecides(statusWord: bv16)
    ensures var narrow, wide := statusWord & 0x004F, statusWord & 0x006F;
            && (wide == 0x0021 ==> narrow == 0x0001)
            && (wide == 0x0023 ==> narrow == 0x0003)
            && (wide == 0x0027 ==> narrow == 0x0007)
            && (wide == 0x0007 ==> narrow == 0x0007)
  {
  }

  // ----- Command flags ----------------------------------------------------

  const COMMAND_ENABLE: bv32 := 1
  const COMMAND_DISABLE: bv32 := 2
  const COMMAND_QUICK_STOP: bv32 := 4
  const COMMAND_FAULT_RESET: bv32 := 8
  const KNOWN_COMMAND_FLAGS: bv32 := 15

  function FlagCount(flags: bv32): nat
    decreases flags
  {
    if flags == 0 then 0 else (if flags & 1 == 1 then 1 else 0) + FlagCount(flags >> 1)
  }

  method CountFlags(flags: bv32) returns (count: nat)
    ensures count == FlagCount(flags)
  {
    count := 0;
    var rest := flags;
    while rest != 0
      invariant count + FlagCount(rest) == FlagCount(flags)
      decreases rest
    {
      if rest & 1 == 1 {
        count := count + 1;
      }
      rest := rest >> 1;
    }
  }

  predicate ValidFlags(flags: bv32) {
    flags & !KNOWN_COMMAND_FLAGS == 0 && FlagCount(flags & KNOWN_COMMAND_FLAGS) <= 1
  }

  function RequestFromFlags(flags: bv32): AxisRequest {
    if flags & COMMAND_QUICK_STOP != 0 then QuickStop
    else if flags & COMMAND_FAULT_RESET != 0 then FaultReset
    else if flags & COMMAND_ENABLE != 0 then Enable
    else Disable
  }

  function FlagsForRequest(request: AxisRequest): bv32 {
    match request
    case Enable => COMMAND_ENABLE
    case Disable => COMMAND_DISABLE
    case QuickStop => COMMAND_QUICK_STOP
    case FaultReset => COMMAND_FAULT_RESET
  }

  lemma FlagCountOfLowBits()
    ensures FlagCount(0) == 0
    ensures FlagCount(1) == 1 && FlagCount(2) == 1 && FlagCount(4) == 1 && FlagCount(8) == 1
  {
    assert FlagCount(2) == FlagCount(1);
    assert FlagCount(4) == FlagCount(2);
    assert FlagCount(8) == FlagCount(4);
  }

  function Bit(flags: bv32, k: bv32): nat
    requires k < 32
  {
    if flags & (1 << k) != 0 then 1 else 0
  }

  lemma FourFlags(flags: bv32)
    requires flags < 16
    ensures FlagCount(flags) == Bit(flags, 0) + Bit(flags, 1) + Bit(flags, 2) + Bit(flags, 3)
  {
    var one, two, three := flags >> 1, flags >> 2, flags >> 3;
    assert one >> 1 == two && two >> 1 == three && three >> 1 == 0;
    assert FlagCount(flags) == (if flags & 1 == 1 then 1 else 0) + FlagCount(one);
    assert FlagCount(one) == (if one & 1 == 1 then 1 else 0) + FlagCount(two);
    assert FlagCount(two) == (if two & 1 == 1 then 1 else 0) + FlagCount(three);
    assert FlagCount(three) == (if three & 1 == 1 then 1 else 0) + FlagCount(0);
  }

  /** The valid flag words are no flag or one of the four, and each asks for its own request. */
  lemma FlagWordsAreExact(flags: bv32)
    ensures ValidFlags(flags) <==> flags in {0, 1, 2, 4, 8}
    ensures ValidFlags(flags) ==>
              && (RequestFromFlags(flags) == Enable <==> flags == 1)
              && (RequestFromFlags(flags) == Disable <==> flags == 0 || flags == 2)
              && (RequestFromFlags(flags) == QuickStop <==> flags == 4)
              && (RequestFromFlags(flags) == FaultReset <==> flags == 8)
  {
    if flags < 16 {
      FourFlags(flags);
    }
  }

  /** Every request the supervisor encodes is a valid flag word and decodes to itself. */
  lemma RequestFlagsRoundTrip(request: AxisRequest)
    ensures ValidFlags(FlagsForRequest(request))
    ensures RequestFromFlags(FlagsForRequest(request)) == request
  {
    FlagCountOfLowBits();
  }

  // ----- Units ------------------------------------------------------------

  /** Round half away from zero, as `std::round`. */
  function Round(x: real): int {
    if x >= 0.0 then (x + 0.5).Floor else -((-x + 0.5).Floor)
  }

  /** Device counts before the range check. */
  function ToCounts(value: real, scale: real): int {
    Round(value * scale)
  }

  function EngineeringToDevice(value: real, scale: real, low: int, high: int): Option<int> {
    if scale <= 0.0 then None
    else
      var rounded := ToCounts(value, scale);
      if rounded < low || rounded > high then None else Some(rounded)
  }

  function DeviceToEngineering(value: int, scale: real): Option<real> {
    if scale <= 0.0 then None else Some(value as real / scale)
  }

  lemma RoundIsNearest(x: real)
    ensures x - 0.5 <= Round(x) as real <= x + 0.5
  {
  }

  lemma RoundMonotone(x: real, y: real)
    requires x <= y
    ensures Round(x) <= Round(y)
  {
  }

  lemma ScaleCancels(v: int, scale: real)
    requires scale > 0.0
    ensures (v as real / scale) * scale == v as real
  {
  }

  lemma ScaleMonotone(x: real, y: real, scale: real)
    requires scale > 0.0 && x <= y
    ensures x * scale <= y * scale
  {
  }

  /** A device count survives the trip through engineering units. */
  lemma DeviceUnitsRoundTrip(v: int, scale: real, low: int, high: int)
    requires scale > 0.0 && low <= v <= high
    ensures DeviceToEngineering(v, scale).Some?
    ensures EngineeringToDevice(DeviceToEngineering(v, scale).value, scale, low, high) == Some(v)
  {
    CountsOfActual(v, v as real / scale, scale);
  }

  lemma CountsOfActual(v: int, actual: real, scale: real)
    requires scale > 0.0 && actual == v as real / scale
    ensures ToCounts(actual, scale) == v
  {
    ScaleCancels(v, scale);
    var product := actual * scale;
    assert product == v as real;
    assert Round(product) == v;
  }

  // ----- Drive state machine ----------------------------------------------

  function ControlWord(state: DriveState, request: AxisRequest, latched: bool): bv16 {
    match request
    case Disable => 0
    case QuickStop =>
      if state in {ReadyToSwitchOn, SwitchedOn, OperationEnabled, QuickStopActive} then 0x0002 else 0
    case FaultReset =>
      if !latched && state == Fault then 0x0080 else 0
    case Enable =>
      match state
      case SwitchOnDisabled => 0x0006
      case ReadyToSwitchOn => 0x0007
      case SwitchedOn => 0x000F
      case OperationEnabled => 0x000F
      case QuickStopActive => 0x000F
      case NotReadyToSwitchOn => 0
      case FaultReactionActive => 0
      case Fault => 0
      case Unknown => 0
  }

  /** Each power-affecting control word has one cause. */
  lemma ControlWordCauses(state: DriveState, request: AxisRequest, latched: bool)
    ensures ControlWord(state, request, latched) in {0x0006, 0x0007, 0x000F} ==> request == Enable
    ensures ControlWord(state, request, latched) == 0x0080
            <==> request == FaultReset && state == Fault && !latched
  {
  }

  class StateMachine {
    var faultResetLatched: bool

    constructor ()
      ensures !faultResetLatched
    {
      faultResetLatched := false;
    }

    method Update(statusWord: bv16, request: AxisRequest) returns (state: DriveState, controlWord: bv16)
      modifies this
      ensures state == Decode(statusWord)
      ensures controlWord == ControlWord(Decode(statusWord), request, old(faultResetLatched))
      ensures faultResetLatched <==> request == FaultReset
    {
      state := Decode(statusWord);
      controlWord := 0;
      if request != FaultReset {
        faultResetLatched := false;
      }
      match request {
        case Disable =>
        case QuickStop =>
          if state in {ReadyToSwitchOn, SwitchedOn, OperationEnabled, QuickStopActive} {
            controlWord := 0x0002;
          }
        case FaultReset =>
          if !faultResetLatched && state == Fault {
            controlWord := 0x0080;
          }
          faultResetLatched := true;
        case Enable =>
          if state == SwitchOnDisabled {
            controlWord := 0x0006;
          } else if state == ReadyToSwitchOn {
            controlWord := 0x0007;
          } else if state == SwitchedOn || state == OperationEnabled || state == QuickStopActive {
            controlWord := 0x000F;
          }
      }
    }
  }

  // ----- One axis cycle ---------------------------------------------------

  function Clamp(x: real, low: real, high: real): real {
    if x < low then low else if high < x then high else x
  }

  function Abs(x: real): real {
    if x < 0.0 then -x else x
  }

  predicate FollowingErrorActive(state: DriveState) {
    state == SwitchedOn || state == OperationEnabled || state == QuickStopActive
  }

  /** The status words that the table lists for switched on, operation enabled and quick stop active. */
  predicate PoweredStatus(statusWord: bv16) {
    statusWord & 0x006F == 0x0023 || statusWord & 0x006F == 0x0027 || statusWord & 0x006F == 0x0007
  }

  /** The drive follows its target exactly under these status words. */
  lemma FollowingErrorActiveOn(statusWord: bv16)
    ensures FollowingErrorActive(Decode(statusWord)) <==> PoweredStatus(statusWord)
  {
    DecodeIsTheTable(statusWord, SwitchedOn);
    DecodeIsTheTable(statusWord, OperationEnabled);
    DecodeIsTheTable(statusWord, QuickStopActive);
  }

  /** `a` and `b` are more than `limit` apart. */
  predicate Apart(a: real, b: real, limit: real) {
    a - b > limit || b - a > limit
  }

  function ActualCounts(mode: Mode, pdo: Pdo): int {
    match mode
    case Csp => pdo.actualPosition
    case Csv => pdo.actualVelocity
    case Cst => pdo.actualTorque
  }

  function DeviceLow(mode: Mode): int {
    if mode == Cst then -0x8000 else -0x8000_0000
  }

  function DeviceHigh(mode: Mode): int {
    if mode == Cst then 0x7FFF else 0x7FFF_FFFF
  }

  function ActualSetpoint(limits: Limits, pdo: Pdo): Option<real> {
    DeviceToEngineering(ActualCounts(limits.mode, pdo), limits.scale)
  }

  function Representation(limits: Limits, value: real): Option<int> {
    EngineeringToDevice(value, limits.scale, DeviceLow(limits.mode), DeviceHigh(limits.mode))
  }

  predicate Stageable(limits: Limits, value: real) {
    Representation(limits, value).Some?
  }

  /** The PDO with the one target of the configured mode set and the other two cleared. */
  function WithTarget(limits: Limits, counts: int, pdo: Pdo): Pdo
    requires DeviceLow(limits.mode) <= counts <= DeviceHigh(limits.mode)
  {
    match limits.mode
    case Csp => pdo.(targetPosition := counts, targetVelocity := 0, targetTorque := 0)
    case Csv => pdo.(targetPosition := 0, targetVelocity := counts, targetTorque := 0)
    case Cst => pdo.(targetPosition := 0, targetVelocity := 0, targetTorque := counts)
  }

  predicate ValidLimits(limits: Limits) {
    limits.scale > 0.0 && limits.minimum <= limits.maximum
    && limits.slewLimit > 0.0 && limits.followingErrorLimit > 0.0
  }

  datatype AxisFlag = TargetClamped | SlewLimited | FollowingError | ModeMismatch | InvalidCommand

  datatype AxisFeedback = AxisFeedback(
    sequence: nat,
    timestamp: int,
    position: real,
    velocity: real,
    effort: real,
    statusWord: bv16,
    modeDisplay: int,
    flags: set<AxisFlag>)

  datatype AxisMemory = AxisMemory(lastTarget: real, hasLastTarget: bool, latched: bool)

  /** One cycle's effect; `request` is what the drive state machine was finally asked. */
  datatype AxisOutcome = AxisOutcome(memory: AxisMemory, pdo: Pdo, request: AxisRequest, feedback: AxisFeedback)

  /** The target an enabled axis moves to: the clamped command, at most one slew step away. */
  function SlewedTarget(limits: Limits, last: real, target: real): real {
    Clamp(Clamp(target, limits.minimum, limits.maximum), last - limits.slewLimit, last + limits.slewLimit)
  }

  function Engineering(value: int, scale: real): real {
    match DeviceToEngineering(value, scale) case Some(x) => x case None => 0.0
  }

  predicate FollowsTooFar(limits: Limits, staged: real, actual: real, statusWord: bv16) {
    FollowingErrorActive(Decode(statusWord)) && Abs(staged - actual) > limits.followingErrorLimit
  }

  function FlagIf(condition: bool, flag: AxisFlag): set<AxisFlag> {
    if condition then {flag} else {}
  }

  /** What the axis intends before staging: the request, the target and the flags so far. */
  datatype Plan = Plan(request: AxisRequest, staged: real, flags: set<AxisFlag>)

  function AxisActual(limits: Limits, pdo: Pdo): real {
    Engineering(ActualCounts(limits.mode, pdo), limits.scale)
  }

  function AskedRequest(limits: Limits, command: AxisCommand): AxisRequest {
    if limits.scale > 0.0 && ValidFlags(command.flags) then RequestFromFlags(command.flags) else QuickStop
  }

  function AxisPlan(limits: Limits, last: real, command: AxisCommand, pdo: Pdo): Plan {
    var actual := AxisActual(limits, pdo);
    var modeAgrees := pdo.modeDisplay == ModeCode(limits.mode);
    var asked := AskedRequest(limits, command);
    var clamped := Clamp(command.target, limits.minimum, limits.maximum);
    var slewed := SlewedTarget(limits, last, command.target);
    var usable := asked == Enable && ValidLimits(limits);
    var tooFar := usable && FollowsTooFar(limits, slewed, actual, pdo.statusWord);
    var moving := usable && !tooFar && modeAgrees;
    Plan(
      if asked == Enable && !moving then QuickStop else asked,
      if moving then slewed else actual,
      FlagIf(!ValidFlags(command.flags) || limits.scale <= 0.0 || (asked == Enable && !usable), InvalidCommand)
      + FlagIf(usable && clamped != command.target, TargetClamped)
      + FlagIf(usable && slewed != clamped, SlewLimited)
      + FlagIf(tooFar, FollowingError)
      + FlagIf(!modeAgrees, ModeMismatch))
  }

  /** What one axis cycle does, as a function of its memory, the command and the PDO. */
  function AxisCycle(limits: Limits, memory: AxisMemory, command: AxisCommand, pdo: Pdo): AxisOutcome {
    var actual := AxisActual(limits, pdo);
    var plan := AxisPlan(limits, if memory.hasLastTarget then memory.lastTarget else actual, command, pdo);
    var stageable := Stageable(limits, plan.staged);
    var request := if stageable then plan.request else QuickStop;
    var counts := if stageable then Representation(limits, plan.staged).value else 0;
    AxisOutcome(
      AxisMemory(if request == Enable then plan.staged else actual, true, request == FaultReset),
      WithTarget(limits, counts, pdo).(controlWord := ControlWord(Decode(pdo.statusWord), request, memory.latched)),
      request,
      Feedback(limits, command, pdo, plan.flags + FlagIf(!stageable, InvalidCommand)))
  }

  function Feedback(limits: Limits, command: AxisCommand, pdo: Pdo, flags: set<AxisFlag>): AxisFeedback {
    AxisFeedback(
      command.sequence, command.timestamp,
      Engineering(pdo.actualPosition, limits.scale),
      Engineering(pdo.actualVelocity, limits.scale),
      Engineering(pdo.actualTorque, limits.scale),
      pdo.statusWord, pdo.modeDisplay, flags)
  }

  datatype LimitError = LimitNotPositive

  class Axis {
    const limits: Limits
    const stateMachine: StateMachine
    var lastTarget: real
    var hasLastTarget: bool

    function Memory(): AxisMemory
      reads this, stateMachine
    {
      AxisMemory(lastTarget, hasLastTarget, stateMachine.faultResetLatched)
    }

    /** Construction rejects limits that are not positive. */
    constructor (limits: Limits)
      requires limits.slewLimit > 0.0 && limits.followingErrorLimit > 0.0
      ensures this.limits == limits && fresh(stateMachine)
      ensures Memory() == AxisMemory(0.0, false, false)
    {
      this.limits := limits;
      stateMachine := new StateMachine();
      lastTarget, hasLastTarget := 0.0, false;
    }

    /** What the constructor's throw becomes: an axis exactly for positive limits. */
    static method Make(limits: Limits) returns (result: Result<Axis, LimitError>)
      ensures result.Success? <==> limits.slewLimit > 0.0 && limits.followingErrorLimit > 0.0
      ensures result.Success? ==>
                && fresh(result.value) && fresh(result.value.stateMachine)
                && result.value.limits == limits && result.value.Memory() == AxisMemory(0.0, false, false)
    {
      if limits.slewLimit <= 0.0 || limits.followingErrorLimit <= 0.0 {
        return Failure(LimitNotPositive);
      }
      var axis := new Axis(limits);
      return Success(axis);
    }

    method StageSetpoint(value: real, pdo: Pdo) returns (staged: Pdo, ok: bool)
      ensures ok <==> Stageable(limits, value)
      ensures staged == WithTarget(limits, if ok then Representation(limits, value).value else 0, pdo)
    {
      staged := pdo.(targetPosition := 0, targetVelocity := 0, targetTorque := 0);
      ok := false;
      match limits.mode {
        case Csp =>
          var converted := EngineeringToDevice(value, limits.scale, -0x8000_0000, 0x7FFF_FFFF);
          if converted.Some? {
            staged, ok := staged.(targetPosition := converted.value), true;
          }
        case Csv =>
          var converted := EngineeringToDevice(value, limits.scale, -0x8000_0000, 0x7FFF_FFFF);
          if converted.Some? {
            staged, ok := staged.(targetVelocity := converted.value), true;
          }
        case Cst =>
          var converted := EngineeringToDevice(value, limits.scale, -0x8000, 0x7FFF);
          if converted.Some? {
            staged, ok := staged.(targetTorque := converted.value), true;
          }
      }
    }

    method PlanTarget(command: AxisCommand, pdo: Pdo, actual: real) returns (plan: Plan)
      requires actual == AxisActual(limits, pdo)
      ensures plan == AxisPlan(limits, lastTarget, command, pdo)
    {
      var flags: set<AxisFlag> := {};
      var request := QuickStop;
      if ValidFlags(command.flags) {
        request := RequestFromFlags(command.flags);
      } else {
        flags := flags + {InvalidCommand};
      }
      if limits.scale <= 0.0 {
        flags := flags + {InvalidCommand};
        request := QuickStop;
      }
      var staged := actual;
      if request == Enable {
        if !ValidLimits(limits) {
          flags := flags + {InvalidCommand};
          request := QuickStop;
        } else {
          staged := Clamp(command.target, limits.minimum, limits.maximum);
          if staged != command.target {
            flags := flags + {TargetClamped};
          }
          var slewed := Clamp(staged, lastTarget - limits.slewLimit, lastTarget + limits.slewLimit);
          if slewed != staged {
            flags := flags + {SlewLimited};
          }
          staged := slewed;
          if FollowingErrorActive(Decode(pdo.statusWord)) && Abs(staged - actual) > limits.followingErrorLimit {
            flags := flags + {FollowingError};
            request := QuickStop;
            staged := actual;
          }
        }
      }
      if pdo.modeDisplay != ModeCode(limits.mode) {
        flags := flags + {ModeMismatch};
        if request == Enable {
          request := QuickStop;
          staged := actual;
        }
      }
      plan := Plan(request, staged, flags);
    }

    /** A target without a representation is replaced by 0, and the axis stopped. */
    method StageOrStop(plan: Plan, pdo: Pdo) returns (written: Pdo, request: AxisRequest, flags: set<AxisFlag>)
      ensures var stageable := Stageable(limits, plan.staged);
              && written == WithTarget(limits, if stageable then Representation(limits, plan.staged).value else 0, pdo)
              && request == (if stageable then plan.request else QuickStop)
              && flags == plan.flags + FlagIf(!stageable, InvalidCommand)
    {
      flags, request := plan.flags, plan.request;
      var ok;
      written, ok := StageSetpoint(plan.staged, pdo);
      if !ok {
        flags := flags + {InvalidCommand};
        request := QuickStop;
        written, ok := StageSetpoint(0.0, pdo);
        ZeroStagesAsZero(limits);
      }
    }

    method Cycle(command: AxisCommand, pdo: Pdo) returns (written: Pdo, feedback: AxisFeedback)
      modifies this, stateMachine
      ensures var outcome := AxisCycle(limits, old(Memory()), command, pdo);
              Memory() == outcome.memory && written == outcome.pdo && feedback == outcome.feedback
    {
      var converted := ActualSetpoint(limits, pdo);
      var actual := if converted.Some? then converted.value else 0.0;
      if !hasLastTarget {
        lastTarget := actual;
        hasLastTarget := true;
      }
      var plan := PlanTarget(command, pdo, actual);
      var request, flags;
      written, request, flags := StageOrStop(plan, pdo);
      if request == Enable {
        lastTarget := plan.staged;
      } else {
        lastTarget := actual;
      }
      var state, controlWord := stateMachine.Update(pdo.statusWord, request);
      written := written.(controlWord := controlWord);
      feedback := Feedback(limits, command, pdo, flags);
    }
  }

  /** The measured value of the configured mode is further from `staged` than the following-error limit. */
  predicate MeasuredApart(limits: Limits, pdo: Pdo, staged: real)
    requires limits.scale > 0.0
  {
    || (limits.mode == Csp && Apart(staged, pdo.actualPosition as real / limits.scale, limits.followingErrorLimit))
    || (limits.mode == Csv && Apart(staged, pdo.actualVelocity as real / limits.scale, limits.followingErrorLimit))
    || (limits.mode == Cst && Apart(staged, pdo.actualTorque as real / limits.scale, limits.followingErrorLimit))
  }

  /**
   Exactly when an axis passes an enable command on to its drive: its limits and the flags are usable, the drive
   runs in the configured mode, the slewed target is representable, and a drive with power is close to it.
   */
  lemma AxisEnablesExactlyWhen(limits: Limits, memory: AxisMemory, command: AxisCommand, pdo: Pdo)
    ensures var last := if memory.hasLastTarget then memory.lastTarget else AxisActual(limits, pdo);
            var staged := SlewedTarget(limits, last, command.target);
            AxisCycle(limits, memory, command, pdo).request == Enable <==>
              && ValidLimits(limits) && command.flags == 1
              && (limits.mode, pdo.modeDisplay) in {(Csp, 8), (Csv, 9), (Cst, 10)}
              && Stageable(limits, staged)
              && !(PoweredStatus(pdo.statusWord) && MeasuredApart(limits, pdo, staged))
  {
    FollowingErrorActiveOn(pdo.statusWord);
    FlagWordsAreExact(command.flags);
  }

  /** The feedback shows the command it answers and what the drive measured, in engineering units. */
  lemma FeedbackIsMeasured(limits: Limits, memory: AxisMemory, command: AxisCommand, pdo: Pdo)
    requires limits.scale > 0.0
    ensures var feedback := AxisCycle(limits, memory, command, pdo).feedback;
            && (feedback.sequence, feedback.timestamp) == (command.sequence, command.timestamp)
            && (feedback.statusWord, feedback.modeDisplay) == (pdo.statusWord, pdo.modeDisplay)
            && feedback.position == pdo.actualPosition as real / limits.scale
            && feedback.velocity == pdo.actualVelocity as real / limits.scale
            && feedback.effort == pdo.actualTorque as real / limits.scale
  {
  }

  /** What each flag of the feedback says. */
  lemma AxisFlagsAreExact(limits: Limits, memory: AxisMemory, command: AxisCommand, pdo: Pdo)
    ensures var cycle, last := AxisCycle(limits, memory, command, pdo),
                               if memory.hasLastTarget then memory.lastTarget else AxisActual(limits, pdo);
            var flags, staged := cycle.feedback.flags, SlewedTarget(limits, last, command.target);
            var usable := ValidLimits(limits) && command.flags == 1;
            var mismatch := (limits.mode, pdo.modeDisplay) !in {(Csp, 8), (Csv, 9), (Cst, 10)};
            var strays := usable && PoweredStatus(pdo.statusWord) && MeasuredApart(limits, pdo, staged);
            && (TargetClamped in flags <==> usable && !(limits.minimum <= command.target <= limits.maximum))
            && (SlewLimited in flags <==>
                  usable && Apart(Clamp(command.target, limits.minimum, limits.maximum), last, limits.slewLimit))
            && (FollowingError in flags <==> strays)
            && (ModeMismatch in flags <==> mismatch)
            && (InvalidCommand in flags <==>
                  || command.flags !in {0, 1, 2, 4, 8} || limits.scale <= 0.0
                  || (command.flags == 1 && !ValidLimits(limits))
                  || (usable && !strays && !mismatch && !Stageable(limits, staged)))
  {
    FollowingErrorActiveOn(pdo.statusWord);
    FlagWordsAreExact(command.flags);
    if limits.scale > 0.0 {
      ActualIsRepresentable(limits, pdo);
    }
  }

  lemma ActualIsRepresentable(limits: Limits, pdo: Pdo)
    requires limits.scale > 0.0
    ensures Representation(limits, AxisActual(limits, pdo)) == Some(ActualCounts(limits.mode, pdo))
  {
    DeviceUnitsRoundTrip(ActualCounts(limits.mode, pdo), limits.scale, DeviceLow(limits.mode), DeviceHigh(limits.mode));
  }

  function WrittenCounts(mode: Mode, pdo: Pdo): int {
    match mode
    case Csp => pdo.targetPosition
    case Csv => pdo.targetVelocity
    case Cst => pdo.targetTorque
  }

  /**
   An axis that does not enable its drive remembers the measured value as its target and writes it back, count for
   count; only when it meant to move to a target that has no representation does it write 0 instead.
   */
  lemma StoppedAxisHoldsItsPlace(limits: Limits, memory: AxisMemory, command: AxisCommand, pdo: Pdo)
    requires limits.scale > 0.0 && AxisCycle(limits, memory, command, pdo).request != Enable
    ensures var outcome := AxisCycle(limits, memory, command, pdo);
            var last := if memory.hasLastTarget then memory.lastTarget else AxisActual(limits, pdo);
            var plan := AxisPlan(limits, last, command, pdo);
            && outcome.memory == AxisMemory(AxisActual(limits, pdo), true, outcome.request == FaultReset)
            && WrittenCounts(limits.mode, outcome.pdo)
               == (if plan.request == Enable then 0 else ActualCounts(limits.mode, pdo))
            && (plan.request == Enable ==> !Stageable(limits, SlewedTarget(limits, last, command.target)))
  {
    ActualIsRepresentable(limits, pdo);
  }

  /** What an axis measures once its drive shows the targets that were written to it. */
  function Arrived(pdo: Pdo): Pdo {
    pdo.(actualPosition := pdo.targetPosition, actualVelocity := pdo.targetVelocity, actualTorque := pdo.targetTorque)
  }

  lemma RoundedCountsAreClose(value: real, scale: real, counts: int)
    requires scale > 0.0 && counts == ToCounts(value, scale)
    ensures !Apart(value, counts as real / scale, 0.5 / scale)
  {
    RoundIsNearest(value * scale);
    ScaleMonotone(value * scale - 0.5, counts as real, 1.0 / scale);
    ScaleMonotone(counts as real, value * scale + 0.5, 1.0 / scale);
    assert (value * scale - 0.5) * (1.0 / scale) == value - 0.5 / scale;
    assert (value * scale + 0.5) * (1.0 / scale) == value + 0.5 / scale;
  }

  /** An enabled axis writes the one device count, within half a count, that its drive will measure the target at. */
  lemma EnabledTargetIsWritten(limits: Limits, memory: AxisMemory, command: AxisCommand, pdo: Pdo)
    requires AxisCycle(limits, memory, command, pdo).request == Enable
    ensures var outcome := AxisCycle(limits, memory, command, pdo);
            && limits.scale > 0.0
            && !Apart(outcome.memory.lastTarget, AxisActual(limits, Arrived(outcome.pdo)), 0.5 / limits.scale)
            && (limits.mode != Csp ==> outcome.pdo.targetPosition == 0)
            && (limits.mode != Csv ==> outcome.pdo.targetVelocity == 0)
            && (limits.mode != Cst ==> outcome.pdo.targetTorque == 0)
  {
    AxisEnablesExactlyWhen(limits, memory, command, pdo);
    var staged := AxisCycle(limits, memory, command, pdo).memory.lastTarget;
    RoundedCountsAreClose(staged, limits.scale, Representation(limits, staged).value);
  }

  lemma ZeroStagesAsZero(limits: Limits)
    ensures Stageable(limits, 0.0) ==> Representation(limits, 0.0).value == 0
  {
  }

  // ----- Slew and range ---------------------------------------------------

  /** One slew step neither exceeds the limit, nor leaves the range, nor moves away from it. */
  lemma SlewStep(limits: Limits, last: real, target: real)
    requires ValidLimits(limits)
    ensures var next := SlewedTarget(limits, last, target);
            && Abs(next - last) <= limits.slewLimit
            && (limits.minimum <= last <= limits.maximum ==> limits.minimum <= next <= limits.maximum)
            && (last < limits.minimum ==> last < next <= limits.maximum)
            && (last > limits.maximum ==> limits.minimum <= next < last)
  {
  }

  /** The target after `n` enabled cycles under one constant command. */
  function SlewRun(limits: Limits, last: real, target: real, n: nat): real {
    if n == 0 then last else SlewedTarget(limits, SlewRun(limits, last, target, n - 1), target)
  }

  function PositivePart(x: real): real {
    if x > 0.0 then x else 0.0
  }

  function DistanceToGoal(limits: Limits, position: real, target: real): real {
    Abs(position - Clamp(target, limits.minimum, limits.maximum))
  }

  lemma SlewStepDistance(limits: Limits, last: real, target: real)
    requires ValidLimits(limits)
    ensures DistanceToGoal(limits, SlewedTarget(limits, last, target), target)
            == PositivePart(DistanceToGoal(limits, last, target) - limits.slewLimit)
  {
  }

  /** The distance `n` slew steps cover. */
  function Travel(slewLimit: real, n: nat): real {
    if n == 0 then 0.0 else Travel(slewLimit, n - 1) + slewLimit
  }

  lemma {:induction false} TravelIsProduct(slewLimit: real, n: nat)
    ensures Travel(slewLimit, n) == n as real * slewLimit
  {
    if n > 0 {
      TravelIsProduct(slewLimit, n - 1);
      assert n as real * slewLimit == (n - 1) as real * slewLimit + slewLimit;
    }
  }

  /** The distance left after `n` cycles is exactly the initial one less `n` slew steps, never negative. */
  lemma {:induction false} SlewDistance(limits: Limits, last: real, target: real, n: nat)
    requires ValidLimits(limits)
    ensures DistanceToGoal(limits, SlewRun(limits, last, target, n), target)
            == PositivePart(DistanceToGoal(limits, last, target) - Travel(limits.slewLimit, n))
  {
    if n > 0 {
      SlewDistance(limits, last, target, n - 1);
      SlewStepDistance(limits, SlewRun(limits, last, target, n - 1), target);
    }
  }

  /** The number of whole cycles that cover `distance` at `slewLimit` per cycle. */
  function CyclesToCover(distance: real, slewLimit: real): int
    requires slewLimit > 0.0
  {
    -((-(distance / slewLimit)).Floor)
  }

  lemma CyclesToCoverIsCeiling(distance: real, slewLimit: real, n: nat)
    requires slewLimit > 0.0
    ensures n >= CyclesToCover(distance, slewLimit) <==> distance <= n as real * slewLimit
  {
    var cycles := distance / slewLimit;
    assert cycles * slewLimit == distance;
    if n as real >= cycles {
      ScaleMonotone(cycles, n as real, slewLimit);
    } else {
      StrictScaleMonotone(n as real, cycles, slewLimit);
    }
  }

  /** A constant command is reached in ceil(distance / slew limit) cycles and in no fewer. */
  lemma ConstantCommandReached(limits: Limits, last: real, target: real, n: nat)
    requires ValidLimits(limits)
    ensures var goal := Clamp(target, limits.minimum, limits.maximum);
            SlewRun(limits, last, target, n) == goal
            <==> n >= CyclesToCover(DistanceToGoal(limits, last, target), limits.slewLimit)
  {
    SlewDistance(limits, last, target, n);
    TravelIsProduct(limits.slewLimit, n);
    CyclesToCoverIsCeiling(DistanceToGoal(limits, last, target), limits.slewLimit, n);
  }

  lemma StrictScaleMonotone(x: real, y: real, scale: real)
    requires scale > 0.0 && x < y
    ensures x * scale < y * scale
  {
  }
}
