/**
 The shared servo bus: one realtime cycle takes at most one response, for the servo asked
 in the cycle before, and sends one request to the next servo in turn. Staged reads, the
 clock and every transport outcome, exceptions included, are inputs of the cycle.
 */
module ServoBus {
  import opened Wrappers
  import opened St3215Protocol
  import ServoBatch

  type Command = ServoBatch.Command

  type U16 = x: int | 0 <= x < 0x1_0000

  const TAU: real := 6.283185307179586
  const WRITE_DATA: Byte := 0x03
  const READ_DATA: Byte := 0x02
  const GOAL_POSITION: Byte := 0x2A
  const PRESENT_POSITION: Byte := 0x38

  // ----- Positions --------------------------------------------------------

  /** The angle brought into [0, TAU). */
  function Wrapped(radians: real): real {
    radians - (radians / TAU).Floor as real * TAU
  }

  /** Nearest integer, ties to even, clamped to 0..maximum. */
  function RoundedUnits(scaled: real, maximum: U16): (units: U16)
    ensures units <= maximum
  {
    var floor := scaled.Floor;
    var fraction := scaled - floor as real;
    var rounded := if fraction > 0.5 || (fraction == 0.5 && floor % 2 != 0) then floor + 1 else floor;
    if rounded < 0 then 0 else if rounded > maximum then maximum else rounded
  }

  function Scaled(radians: real, maximum: U16): real {
    Wrapped(radians) / TAU * maximum as real
  }

  function PositionUnits(radians: real, maximum: U16): (units: U16)
    ensures units <= maximum
  {
    RoundedUnits(Scaled(radians, maximum), maximum)
  }

  function PositionRadians(units: U16, maximum: U16): real
    requires maximum > 0
  {
    units as real / maximum as real * TAU
  }

  lemma RatioCancels(q: real, m: real)
    requires m > 0.0
    ensures q / m * m == q && q * m / m == q
  {
  }

  lemma WrappedTurn(q: real)
    requires 0.0 <= q <= 1.0
    ensures Wrapped(q * TAU) / TAU == if q < 1.0 then q else 0.0
  {
    RatioCancels(q, TAU);
  }

  lemma IntegralUnits(units: U16, maximum: U16)
    requires units <= maximum
    ensures RoundedUnits(units as real, maximum) == units
  {
  }

  lemma ScaledTurn(q: real, m: real)
    requires 0.0 <= q <= 1.0
    ensures Wrapped(q * TAU) / TAU * m == if q < 1.0 then q * m else 0.0
  {
    WrappedTurn(q);
  }

  lemma ScaledUnits(units: U16, maximum: U16)
    requires 0 < maximum && units <= maximum
    ensures Scaled(PositionRadians(units, maximum), maximum) == (if units < maximum then units else 0) as real
  {
    var m, u := maximum as real, units as real;
    ShareOfMaximum(u, m);
    ScaledTurn(u / m, m);
  }

  lemma ShareOfMaximum(u: real, m: real)
    requires 0.0 <= u <= m && m > 0.0
    ensures 0.0 <= u / m <= 1.0 && u / m * m == u
    ensures u < m <==> u / m < 1.0
  {
    RatioCancels(u, m);
    if u < m {
      FractionBelowOne(u, m);
    } else {
      assert u / m == 1.0;
    }
  }

  /** Every unit survives the trip to radians and back, except the maximum, whose angle is a full turn: it comes
      back as 0. */
  lemma PositionRoundTrip(units: U16, maximum: U16)
    requires 0 < maximum && units <= maximum
    ensures PositionUnits(PositionRadians(units, maximum), maximum) == if units < maximum then units else 0
  {
    ScaledUnits(units, maximum);
    IntegralUnits(if units < maximum then units else 0, maximum);
  }

  lemma FractionBelowOne(u: real, m: real)
    requires 0.0 <= u < m
    ensures 0.0 <= u / m < 1.0
  {
    RatioCancels(u, m);
    var q := u / m;
    assert q >= 1.0 ==> q * m >= m;
    assert q < 0.0 ==> q * m < 0.0;
  }

  // ----- State ------------------------------------------------------------

  datatype Flag = Valid | Stale | Timeout | Io | Protocol | DeviceError | Disabled

  datatype Code = CodeTimeout | CodeProtocol | CodeInvalidArgument | CodeIo | CodeUnavailable | CodeInternal

  function FlagFor(code: Code): Flag {
    match code
    case CodeTimeout => Timeout
    case CodeProtocol | CodeInvalidArgument => Protocol
    case CodeIo | CodeUnavailable | CodeInternal => Io
  }

  datatype ServoConfig = ServoConfig(
    deviceId: Byte,
    maximumUnits: U16,
    timeUnits: U16,
    speedUnits: U16,
    feedbackTimeout: int,
    commandTimeout: int)

  /** What the transport says of itself, copied into feedback. */
  datatype TransportStatus = TransportStatus(health: nat, timeouts: nat, ioErrors: nat)

  datatype Feedback = Feedback(
    sequence: nat,
    commandSequence: nat,
    timestamp: int,
    statusError: Byte,
    rawPosition: U16,
    position: real,
    transport: TransportStatus,
    flags: set<Flag>)

  /** One servo as its bus sees it; `feedback` is the value last published. */
  datatype Runtime = Runtime(
    config: ServoConfig,
    consumed: nat,
    feedbackSequence: nat,
    goalSequence: nat,
    goalDispatched: bool,
    lastResponse: int,
    command: Command,
    hasCommand: bool,
    timedOut: bool,
    feedback: Feedback)

  const HEALTHY: nat := 0
  const FAILED: nat := 2

  /** `health` is the value stored; what the bus shows is failed whenever the fault is latched. */
  datatype BusState = BusState(
    running: bool,
    servos: seq<Runtime>,
    cursor: nat,
    pending: nat,
    dispatched: bool,
    startedAt: int,
    latched: bool,
    health: nat,
    cycles: nat)

  datatype Staged = Staged(publication: nat, command: Command)

  datatype Response = Received(bytes: Bytes) | ReadFailed(code: Code) | ReadThrew

  datatype WriteOutcome = Wrote | WriteFailed(code: Code) | WriteThrew

  datatype Input = Input(
    now: int,
    status: TransportStatus,
    pollRead: Option<Staged>,
    response: Response,
    dispatchRead: Option<Staged>,
    write: WriteOutcome)

  /** A request handed to the transport; `goal` is the command it writes, if it writes one. */
  datatype Request = Request(servo: nat, bytes: Bytes, goal: Option<Command>)

  // ----- One servo's steps ------------------------------------------------

  /** The command's age lies between zero and the command timeout, if there is one. */
  predicate InTime(config: ServoConfig, command: Command, now: int) {
    config.commandTimeout <= 0 || command.timestamp <= now <= command.timestamp + config.commandTimeout
  }

  predicate Expired(config: ServoConfig, command: Command, now: int) {
    config.commandTimeout > 0 && (now < command.timestamp || now - command.timestamp > config.commandTimeout)
  }

  predicate Active(rt: Runtime) {
    rt.hasCommand && rt.command.enabled && !rt.command.emergencyStop
  }

  function Refresh(rt: Runtime, read: Option<Staged>, now: int): (r: Runtime)
    ensures r.config == rt.config
  {
    var rt := if read.Some? && read.value.publication != rt.consumed then
                rt.(consumed := read.value.publication, command := read.value.command, hasCommand := true,
                    timedOut := false)
              else rt;
    if rt.hasCommand && Expired(rt.config, rt.command, now) then
      rt.(hasCommand := false, command := rt.command.(enabled := false), timedOut := true)
    else rt
  }

  function CommandSequence(rt: Runtime): nat {
    if rt.hasCommand then rt.command.sequence else 0
  }

  function PublishFailed(rt: Runtime, flag: Flag, input: Input): (r: Runtime)
    ensures r.config == rt.config
  {
    rt.(feedbackSequence := rt.feedbackSequence + 1,
        feedback := rt.feedback.(sequence := rt.feedbackSequence + 1, commandSequence := CommandSequence(rt),
                                 timestamp := input.now, transport := input.status,
                                 flags := rt.feedback.flags - {Valid} + {Stale, flag}))
  }

  /** A frame that answers this servo, or the error it is. */
  function Answer(rt: Runtime, response: Response): Result<Packet, Code>
    requires !response.ReadThrew?
  {
    match response
    case ReadFailed(code) => Failure(code)
    case Received(bytes) =>
      var decoded := Decode(bytes);
      if decoded.Success? && decoded.value.deviceId == rt.config.deviceId then Success(decoded.value)
      else Failure(CodeProtocol)
  }

  function FromLittleEndian(bytes: Bytes, at: nat): U16
    requires at + 1 < |bytes|
  {
    bytes[at] as int + bytes[at + 1] as int * 256
  }

  /** The feedback of an answer as such. */
  function AnswerBase(rt: Runtime, packet: Packet, input: Input): Feedback
    requires rt.config.maximumUnits > 0
  {
    var error := packet.instruction;
    var answered := rt.feedback.(sequence := rt.feedbackSequence + 1, commandSequence := CommandSequence(rt),
                                 timestamp := input.now, transport := input.status, statusError := error,
                                 flags := if error == 0 then {Valid} else {Stale, DeviceError});
    if error == 0 && |packet.parameters| >= 2 then
      var raw := FromLittleEndian(packet.parameters, 0);
      answered.(rawPosition := raw, position := PositionRadians(raw, rt.config.maximumUnits))
    else answered
  }

  /** The same, marked as late when the command timed out and as disabled when it is not active. */
  function Adjusted(rt: Runtime, feedback: Feedback): Feedback {
    var late := if rt.timedOut
                then feedback.(commandSequence := rt.command.sequence,
                               flags := feedback.flags - {Valid} + {Stale, Timeout})
                else feedback;
    if Active(rt) then late else late.(flags := late.flags + {Disabled})
  }

  function AnswerFeedback(rt: Runtime, packet: Packet, input: Input): Feedback
    requires rt.config.maximumUnits > 0
  {
    Adjusted(rt, AnswerBase(rt, packet, input))
  }

  function Later(a: int, b: int): int {
    if a < b then b else a
  }

  predicate Overdue(rt: Runtime, startedAt: int, now: int) {
    now - Later(rt.lastResponse, startedAt) > rt.config.feedbackTimeout * 1_000_000
  }

  datatype Polled = Polled(rt: Runtime, latch: bool)

  /** The answer to the request of the cycle before, after the command was refreshed. */
  function Poll(rt: Runtime, startedAt: int, input: Input): (p: Polled)
    requires rt.config.maximumUnits > 0 && !input.response.ReadThrew?
    ensures p.rt.config == rt.config
  {
    match Answer(rt, input.response)
    case Success(packet) =>
      Polled(rt.(feedback := AnswerFeedback(rt, packet, input), feedbackSequence := rt.feedbackSequence + 1,
                 lastResponse := input.now), false)
    case Failure(code) =>
      if code != CodeTimeout then Polled(PublishFailed(rt, FlagFor(code), input), true)
      else if Overdue(rt, startedAt, input.now) then Polled(PublishFailed(rt, Timeout, input), true)
      else Polled(rt, false)
  }

  function LittleEndian(value: U16): Bytes {
    [value % 256, value / 256]
  }

  function GoalParameters(config: ServoConfig, position: U16): (parameters: Bytes)
    ensures |parameters| == 7
  {
    [GOAL_POSITION] + LittleEndian(position) + LittleEndian(config.timeUnits) + LittleEndian(config.speedUnits)
  }

  function GoalFrame(config: ServoConfig, position: U16): Bytes {
    Encode(Packet(config.deviceId, WRITE_DATA,
                  GoalParameters(config, position))).value
  }

  function ReadFrame(config: ServoConfig): Bytes {
    Encode(Packet(config.deviceId, READ_DATA, [PRESENT_POSITION, 2])).value
  }

  /** What a servo reads from a goal frame is the register, position, time and speed that were meant. */
  lemma GoalFrameIsRead(config: ServoConfig, position: U16)
    ensures var frame := Decode(GoalFrame(config, position));
            && frame.Success? && frame.value.deviceId == config.deviceId && frame.value.instruction == 0x03
            && |frame.value.parameters| == 7 && frame.value.parameters[0] == 0x2A
            && FromLittleEndian(frame.value.parameters, 1) == position
            && FromLittleEndian(frame.value.parameters, 3) == config.timeUnits
            && FromLittleEndian(frame.value.parameters, 5) == config.speedUnits
  {
    EncodeThenDecode(Packet(config.deviceId, WRITE_DATA, GoalParameters(config, position)));
  }

  /** A read request asks its servo for the two bytes of the present position. */
  lemma ReadFrameIsRead(config: ServoConfig)
    ensures Decode(ReadFrame(config)) == Success(Packet(config.deviceId, 0x02, [0x38, 2]))
  {
    EncodeThenDecode(Packet(config.deviceId, READ_DATA, [PRESENT_POSITION, 2]));
  }

  /** The present position a servo answers with is the one its feedback shows. */
  lemma AnsweredPositionIsReported(rt: Runtime, startedAt: int, input: Input, position: U16)
    requires rt.config.maximumUnits > 0
    requires input.response == Received(Encode(Packet(rt.config.deviceId, 0, LittleEndian(position))).value)
    ensures var polled := Poll(rt, startedAt, input);
            var feedback := polled.rt.feedback;
            && !polled.latch && polled.rt.lastResponse == feedback.timestamp == input.now
            && feedback.rawPosition == position
            && feedback.position == PositionRadians(position, rt.config.maximumUnits)
            && feedback.transport == input.status
            && (Valid in feedback.flags <==> !rt.timedOut)
            && (Disabled in feedback.flags <==> !Active(rt))
  {
    EncodeThenDecode(Packet(rt.config.deviceId, 0, LittleEndian(position)));
    assert FromLittleEndian(LittleEndian(position), 0) == position;
  }

  predicate SendsGoal(rt: Runtime) {
    Active(rt) && (!rt.goalDispatched || rt.goalSequence != rt.command.sequence)
  }

  /** The request, the runtime behind it, and whether building it failed. */
  datatype Built = Built(rt: Runtime, bytes: Bytes, goal: Option<Command>) | NotBuilt

  function Build(rt: Runtime): (r: Built)
    ensures r.Built? ==> r.rt.config == rt.config
  {
    if SendsGoal(rt) then
      if rt.command.target.None? || rt.config.maximumUnits == 0 then NotBuilt
      else Built(rt.(goalDispatched := true, goalSequence := rt.command.sequence),
                 GoalFrame(rt.config, PositionUnits(rt.command.target.value, rt.config.maximumUnits)),
                 Some(rt.command))
    else Built(rt, ReadFrame(rt.config), None)
  }

  /** Everything one cycle does to the servo it asked in the cycle before. */
  function PollServo(rt: Runtime, startedAt: int, input: Input): (p: Polled)
    requires rt.config.maximumUnits > 0
    ensures p.rt.config == rt.config
  {
    var rt := Refresh(rt, input.pollRead, input.now);
    if input.response.ReadThrew? then Polled(PublishFailed(rt, Io, input), true)
    else Poll(rt, startedAt, input)
  }

  datatype Asked = Asked(rt: Runtime, built: bool, bytes: Bytes, goal: Option<Command>, latch: bool, threw: bool)

  /** The request to a servo whose command was refreshed, and how it ends. */
  function AskHeld(rt: Runtime, input: Input): (a: Asked)
    ensures a.rt.config == rt.config && (a.threw ==> a.latch)
    ensures a.latch || a.built
  {
    match Build(rt)
    case NotBuilt => Asked(PublishFailed(rt, Protocol, input), false, [], None, true, false)
    case Built(built, bytes, goal) =>
      match input.write
      case Wrote => Asked(built, true, bytes, goal, false, false)
      case WriteFailed(code) => Asked(PublishFailed(built, FlagFor(code), input), true, bytes, goal, true, false)
      case WriteThrew => Asked(PublishFailed(built, Io, input), true, bytes, goal, true, true)
  }

  /** Everything one cycle does to the servo whose turn it is. */
  function AskServo(rt: Runtime, input: Input): (a: Asked)
    ensures a.rt.config == rt.config && (a.threw ==> a.latch)
    ensures a.latch || a.built
  {
    AskHeld(Refresh(rt, input.dispatchRead, input.now), input)
  }

  // ----- One cycle --------------------------------------------------------

  predicate BusShape(b: BusState) {
    && (b.servos != [] ==> b.cursor < |b.servos| && b.pending < |b.servos|)
    && (b.dispatched && !b.latched ==> b.cursor == b.pending)
    && Calibrated(b.servos)
  }

  /** What adding a servo to the bus has checked. */
  predicate Calibrated(servos: seq<Runtime>) {
    forall s :: 0 <= s < |servos| ==> servos[s].config.maximumUnits > 0 && servos[s].config.feedbackTimeout > 0
  }

  predicate Serves(b: BusState) {
    b.running && b.servos != []
  }

  function Update(b: BusState, s: nat, rt: Runtime): (r: BusState)
    requires s < |b.servos|
    ensures |r.servos| == |b.servos|
    ensures rt.config == b.servos[s].config && Calibrated(b.servos) ==> Calibrated(r.servos)
  {
    b.(servos := b.servos[s := rt])
  }

  function AfterPoll(b: BusState, input: Input): (r: BusState)
    requires BusShape(b) && b.servos != []
    ensures |r.servos| == |b.servos| && r == b.(servos := r.servos, latched := r.latched, health := r.health)
    ensures Calibrated(r.servos) && (b.latched ==> r.latched)
  {
    if !b.dispatched then b
    else
      var polled := PollServo(b.servos[b.pending], b.startedAt, input);
      Update(b, b.pending, polled.rt).(latched := b.latched || polled.latch,
                                       health := if polled.latch then input.status.health else b.health)
  }

  /** The servo after `s` in turn: (s + 1) % n. */
  function Successor(s: nat, n: nat): (r: nat)
    requires s < n
    ensures r == if s + 1 < n then s + 1 else 0
  {
    (s + 1) % n
  }

  function NextCursor(b: BusState): (r: nat)
    requires b.servos != [] && b.pending < |b.servos|
    ensures r < |b.servos|
  {
    if b.dispatched then Successor(b.pending, |b.servos|) else 0
  }

  datatype Cycled = Cycled(bus: BusState, request: Option<Request>)

  function Dispatch(b: BusState, input: Input): (c: Cycled)
    requires BusShape(b) && b.servos != []
    ensures |c.bus.servos| == |b.servos| && Calibrated(c.bus.servos)
  {
    var cursor := NextCursor(b);
    var asked := AskServo(b.servos[cursor], input);
    Cycled(Update(b, cursor, asked.rt).(cursor := cursor,
                                        latched := b.latched || asked.latch,
                                        health := if asked.latch then input.status.health else b.health,
                                        pending := if asked.threw then b.pending else cursor,
                                        dispatched := b.dispatched || !asked.threw),
           if asked.built then Some(Request(cursor, asked.bytes, asked.goal)) else None)
  }

  function Service(b: BusState, input: Input): (c: Cycled)
    requires BusShape(b) && b.servos != [] && !b.latched
    ensures BusShape(c.bus) && |c.bus.servos| == |b.servos|
  {
    var polled := AfterPoll(b, input);
    if polled.latched then Cycled(polled, None) else Dispatch(polled, input)
  }

  function Cycle(b: BusState, input: Input): (c: Cycled)
    requires BusShape(b)
    ensures BusShape(c.bus) && |c.bus.servos| == |b.servos|
  {
    if !Serves(b) then Cycled(b, None)
    else
      var b := b.(cycles := b.cycles + 1);
      if b.latched then Cycled(Caught(b, input), None)
      else Service(b, input)
  }

  // ----- Runs -------------------------------------------------------------

  /** A started bus: nothing sent, nothing read, no fault. */
  predicate Fresh(b: BusState) {
    && BusShape(b) && Serves(b) && !b.dispatched && !b.latched
    && forall s :: 0 <= s < |b.servos| ==> FreshRuntime(b.servos[s])
  }

  predicate FreshRuntime(rt: Runtime) {
    rt.consumed == 0 && !rt.hasCommand && !rt.timedOut && !rt.goalDispatched && Valid !in rt.feedback.flags
  }

  /** A run: the bus before each cycle and after the last, each cycle's input and its request. */
  datatype BusRun = BusRun(states: seq<BusState>, inputs: seq<Input>, requests: seq<Option<Request>>)

  predicate IsRun(run: BusRun) {
    && |run.states| == |run.inputs| + 1 && |run.requests| == |run.inputs|
    && Fresh(run.states[0])
    && (forall i :: 0 <= i < |run.states| ==> SameBus(run.states[0], run.states[i]))
    && forall i :: 0 <= i < |run.inputs| ==> StepAt(run, i)
  }

  predicate SameBus(a: BusState, b: BusState) {
    BusShape(b) && |b.servos| == |a.servos|
  }

  predicate StepAt(run: BusRun, i: nat)
    requires i < |run.inputs| && |run.states| == |run.inputs| + 1 && |run.requests| == |run.inputs|
  {
    && BusShape(run.states[i])
    && Cycle(run.states[i], run.inputs[i]) == Cycled(run.states[i + 1], run.requests[i])
  }

  /** The number of servos on the bus of a run. */
  function Servos(run: BusRun): nat
    requires IsRun(run)
  {
    |run.states[0].servos|
  }

  // ----- The latch --------------------------------------------------------

  lemma CycleKeeps(b: BusState, input: Input)
    requires BusShape(b)
    ensures var r := Cycle(b, input).bus;
            r.running == b.running && r.startedAt == b.startedAt && (b.latched ==> r.latched)
    ensures b.latched ==> Cycle(b, input).request == None
  {
  }

  lemma CycleKeepsConfig(b: BusState, input: Input, s: nat)
    requires BusShape(b) && s < |b.servos|
    ensures Cycle(b, input).bus.servos[s].config == b.servos[s].config
  {
  }

  lemma {:induction false} StillServes(run: BusRun, i: nat)
    requires IsRun(run) && i <= |run.inputs|
    ensures Serves(run.states[i]) && run.states[i].startedAt == run.states[0].startedAt
    decreases i
  {
    if i > 0 {
      StillServes(run, i - 1);
      assert StepAt(run, i - 1);
      CycleKeeps(run.states[i - 1], run.inputs[i - 1]);
    }
  }

  lemma {:induction false} LatchIsForever(run: BusRun, i: nat, j: nat)
    requires IsRun(run) && i <= j <= |run.inputs| && run.states[i].latched
    ensures run.states[j].latched
    decreases j
  {
    if i < j {
      LatchIsForever(run, i, j - 1);
      assert StepAt(run, j - 1);
      CycleKeeps(run.states[j - 1], run.inputs[j - 1]);
    }
  }

  /** Once the fault is latched, by cycle `i`, no later cycle sends anything. */
  lemma NothingIsSentOnceLatched(run: BusRun, i: nat, j: nat)
    requires IsRun(run) && i <= j < |run.inputs| && run.states[i].latched
    ensures run.requests[j] == None
  {
    LatchIsForever(run, i, j);
    assert StepAt(run, j);
    CycleKeeps(run.states[j], run.inputs[j]);
  }

  function ShownHealth(b: BusState): nat {
    if b.latched then FAILED else b.health
  }

  lemma CycleKeepsHealth(b: BusState, input: Input)
    requires BusShape(b)
    ensures !Cycle(b, input).bus.latched ==> Cycle(b, input).bus.health == b.health
  {
  }

  /** The bus shows the health it was started with until the fault is latched, and failed ever after. */
  lemma {:induction false} HealthFollowsTheLatch(run: BusRun, i: nat)
    requires IsRun(run) && i <= |run.inputs|
    ensures ShownHealth(run.states[i]) == if run.states[i].latched then FAILED else run.states[0].health
    decreases i
  {
    if i > 0 {
      HealthFollowsTheLatch(run, i - 1);
      assert StepAt(run, i - 1);
      CycleKeeps(run.states[i - 1], run.inputs[i - 1]);
      CycleKeepsHealth(run.states[i - 1], run.inputs[i - 1]);
    }
  }

  // ----- Round robin ------------------------------------------------------

  lemma CycleMoves(b: BusState, input: Input)
    requires BusShape(b) && Serves(b) && !Cycle(b, input).bus.latched
    ensures var c := Cycle(b, input);
            && !b.latched && c.bus.dispatched && c.bus.pending == NextCursor(b)
            && c.request.Some? && c.request.value.servo == NextCursor(b)
  {
  }

  /** Whose turn cycle `i` is: the turns count up from 0 and wrap at `n`. */
  function Turn(i: nat, n: nat): (s: nat)
    requires n > 0
    ensures s < n
  {
    if i == 0 then 0 else Successor(Turn(i - 1, n), n)
  }

  lemma {:induction false} TurnAhead(i: nat, k: nat, n: nat)
    requires k < n
    ensures Turn(i + k, n) == if Turn(i, n) + k < n then Turn(i, n) + k else Turn(i, n) + k - n
    decreases k
  {
    if k > 0 {
      TurnAhead(i, k - 1, n);
    }
  }

  /** While no fault is latched, cycle `i` asks the servo whose turn it is. */
  lemma {:induction false} CycleAsksInTurn(run: BusRun, i: nat)
    requires IsRun(run) && i < |run.inputs| && !run.states[i + 1].latched
    ensures Asks(run, i, Turn(i, Servos(run)))
    ensures run.states[i + 1].dispatched && run.states[i + 1].pending == Turn(i, Servos(run))
    decreases i
  {
    StillServes(run, i);
    assert StepAt(run, i);
    CycleMoves(run.states[i], run.inputs[i]);
    if i > 0 {
      CycleAsksInTurn(run, i - 1);
    }
  }

  predicate Asks(run: BusRun, i: nat, s: nat)
    requires IsRun(run)
  {
    i < |run.inputs| && run.requests[i].Some? && run.requests[i].value.servo == s
  }

  /** Servo `s` is asked in cycle `j` of the window of `n` cycles from `i`, and in no other. */
  predicate AskedOnce(run: BusRun, i: nat, s: nat, j: nat)
    requires IsRun(run)
  {
    && i <= j < i + Servos(run)
    && Asks(run, j, s)
    && forall k :: i <= k < i + Servos(run) && k != j ==> !Asks(run, k, s)
  }

  /** The cycle of the window of `n` from `i` that is the turn of `s`. */
  function TurnOf(i: nat, s: nat, n: nat): (j: nat)
    requires s < n
    ensures i <= j < i + n
  {
    if Turn(i, n) <= s then i + s - Turn(i, n) else i + n - Turn(i, n) + s
  }

  lemma OneTurnPerWindow(i: nat, k: nat, s: nat, n: nat)
    requires s < n && i <= k < i + n
    ensures Turn(k, n) == s <==> k == TurnOf(i, s, n)
  {
    TurnAhead(i, k - i, n);
  }

  /** Any `n` consecutive cycles without a fault ask each of the `n` servos exactly once. */
  lemma EachServoOncePerRound(run: BusRun, i: nat, s: nat)
    requires IsRun(run) && s < Servos(run) && i + Servos(run) <= |run.inputs|
    requires !run.states[i + Servos(run)].latched
    ensures AskedOnce(run, i, s, TurnOf(i, s, Servos(run)))
  {
    var n := Servos(run);
    forall k | i <= k < i + n
      ensures Asks(run, k, s) <==> k == TurnOf(i, s, n)
    {
      AsksInWindow(run, i, k);
      OneTurnPerWindow(i, k, s, n);
    }
  }

  lemma UnlatchedBefore(run: BusRun, i: nat, j: nat)
    requires IsRun(run) && i <= j <= |run.inputs| && !run.states[j].latched
    ensures !run.states[i].latched
  {
    if run.states[i].latched {
      LatchIsForever(run, i, j);
    }
  }

  lemma AsksInWindow(run: BusRun, i: nat, k: nat)
    requires IsRun(run) && i <= k < i + Servos(run) <= |run.inputs|
    requires !run.states[i + Servos(run)].latched
    ensures !run.states[k + 1].latched && Asks(run, k, Turn(k, Servos(run)))
  {
    UnlatchedBefore(run, k + 1, i + Servos(run));
    CycleAsksInTurn(run, k);
  }

  // ----- Goal frames ------------------------------------------------------

  /** The commands a servo has accepted, in the order of their publications. */
  predicate Increasing(log: seq<Command>) {
    forall i, j :: 0 <= i < j < |log| ==> log[i].sequence < log[j].sequence
  }

  /** A staged read returns an accepted command and never an older one than the last read. */
  predicate ReadFits(read: Option<Staged>, consumed: nat, log: seq<Command>) {
    read.Some? ==>
      && 0 < read.value.publication <= |log|
      && consumed <= read.value.publication
      && read.value.command == log[read.value.publication - 1]
  }

  predicate InputFits(b: BusState, input: Input, logs: seq<seq<Command>>)
    requires BusShape(b) && |logs| == |b.servos|
  {
    Serves(b) && !b.latched ==>
      && (b.dispatched ==> ReadFits(input.pollRead, b.servos[b.pending].consumed, logs[b.pending]))
      && var polled := AfterPoll(b, input);
         !polled.latched ==>
           ReadFits(input.dispatchRead, polled.servos[NextCursor(polled)].consumed, logs[NextCursor(polled)])
  }

  predicate RunFits(run: BusRun, logs: seq<seq<Command>>)
    requires IsRun(run) && |logs| == Servos(run)
  {
    && AllIncreasing(logs)
    && forall i :: 0 <= i < |run.inputs| ==> InputFits(run.states[i], run.inputs[i], logs)
  }

  /** The held command is the accepted one last read, and no goal is newer than it. */
  predicate RuntimeFits(rt: Runtime, log: seq<Command>) {
    && rt.consumed <= |log|
    && (rt.hasCommand ==> rt.consumed > 0 && rt.command == log[rt.consumed - 1])
    && (rt.goalDispatched ==> rt.consumed > 0 && rt.goalSequence <= log[rt.consumed - 1].sequence)
  }

  predicate BusFits(b: BusState, logs: seq<seq<Command>>) {
    |logs| == |b.servos| && forall s :: 0 <= s < |logs| ==> RuntimeFits(b.servos[s], logs[s])
  }

  lemma RefreshFits(rt: Runtime, read: Option<Staged>, now: int, log: seq<Command>)
    requires Increasing(log) && RuntimeFits(rt, log) && ReadFits(read, rt.consumed, log)
    ensures RuntimeFits(Refresh(rt, read, now), log)
    ensures var r := Refresh(rt, read, now); r.hasCommand ==> !Expired(r.config, r.command, now)
  {
  }

  /** The same servo with the same memory of goals. */
  predicate SameGoal(a: Runtime, b: Runtime) {
    a.config == b.config && a.goalDispatched == b.goalDispatched && a.goalSequence == b.goalSequence
  }

  /** What the servo remembers after it was sent `goal`, or nothing. */
  predicate Remembers(rt: Runtime, rt': Runtime, goal: Option<Command>) {
    if goal.Some? then rt'.goalDispatched && rt'.goalSequence == goal.value.sequence else SameGoal(rt, rt')
  }

  /** A goal is an accepted command: enabled, not stopped, not expired, newer than any sent before, and put on the
      wire as such. */
  predicate GoalIsLive(rt: Runtime, goal: Command, bytes: Bytes, now: int, log: seq<Command>) {
    && goal in log
    && goal.enabled && !goal.emergencyStop && !Expired(rt.config, goal, now)
    && (rt.goalDispatched ==> rt.goalSequence < goal.sequence)
    && goal.target.Some? && bytes == GoalFrame(rt.config, PositionUnits(goal.target.value, rt.config.maximumUnits))
  }

  lemma PollServoFits(rt: Runtime, startedAt: int, input: Input, log: seq<Command>)
    requires rt.config.maximumUnits > 0
    requires Increasing(log) && RuntimeFits(rt, log) && ReadFits(input.pollRead, rt.consumed, log)
    ensures var p := PollServo(rt, startedAt, input); RuntimeFits(p.rt, log) && SameGoal(rt, p.rt)
  {
    RefreshFits(rt, input.pollRead, input.now, log);
  }

  lemma BuildFits(rt: Runtime, now: int, log: seq<Command>)
    requires Increasing(log) && RuntimeFits(rt, log) && (rt.hasCommand ==> !Expired(rt.config, rt.command, now))
    ensures var r := Build(rt);
            r.Built? ==>
              && RuntimeFits(r.rt, log) && Remembers(rt, r.rt, r.goal)
              && (r.goal.Some? ==> GoalIsLive(rt, r.goal.value, r.bytes, now, log))
  {
  }

  lemma FailedFits(rt: Runtime, rt': Runtime, flag: Flag, input: Input, goal: Option<Command>, log: seq<Command>)
    requires RuntimeFits(rt', log) && Remembers(rt, rt', goal)
    ensures var r := PublishFailed(rt', flag, input); RuntimeFits(r, log) && Remembers(rt, r, goal)
  {
  }

  lemma AskHeldFits(rt: Runtime, input: Input, log: seq<Command>)
    requires Increasing(log) && RuntimeFits(rt, log) && (rt.hasCommand ==> !Expired(rt.config, rt.command, input.now))
    ensures var a := AskHeld(rt, input);
            && RuntimeFits(a.rt, log) && Remembers(rt, a.rt, a.goal)
            && (a.goal.Some? ==> a.built && GoalIsLive(rt, a.goal.value, a.bytes, input.now, log))
  {
    BuildFits(rt, input.now, log);
    match Build(rt)
    case NotBuilt =>
      FailedFits(rt, rt, Protocol, input, None, log);
    case Built(built, _, goal) =>
      var flag := if input.write.WriteFailed? then FlagFor(input.write.code) else Io;
      FailedFits(rt, built, flag, input, goal, log);
  }

  lemma AskServoFits(rt: Runtime, input: Input, log: seq<Command>)
    requires Increasing(log) && RuntimeFits(rt, log) && ReadFits(input.dispatchRead, rt.consumed, log)
    ensures var a := AskServo(rt, input);
            && RuntimeFits(a.rt, log) && Remembers(rt, a.rt, a.goal)
            && (a.goal.Some? ==> a.built && GoalIsLive(rt, a.goal.value, a.bytes, input.now, log))
  {
    var held := Refresh(rt, input.dispatchRead, input.now);
    RefreshFits(rt, input.dispatchRead, input.now, log);
    AskHeldFits(held, input, log);
    assert SameGoal(rt, held);
  }

  /** The goal a request writes to servo `s`. */
  function GoalFor(request: Option<Request>, s: nat): Option<Command> {
    if request.Some? && request.value.servo == s then request.value.goal else None
  }

  predicate AllIncreasing(logs: seq<seq<Command>>) {
    forall s :: 0 <= s < |logs| ==> Increasing(logs[s])
  }

  lemma PollFits(b: BusState, input: Input, logs: seq<seq<Command>>, s: nat)
    requires BusShape(b) && Serves(b) && !b.latched && BusFits(b, logs) && InputFits(b, input, logs)
    requires AllIncreasing(logs)
    requires s < |logs|
    ensures RuntimeFits(AfterPoll(b, input).servos[s], logs[s]) && SameGoal(b.servos[s], AfterPoll(b, input).servos[s])
  {
    if b.dispatched && s == b.pending {
      PollServoFits(b.servos[s], b.startedAt, input, logs[s]);
    }
  }

  lemma DispatchFits(b: BusState, input: Input, logs: seq<seq<Command>>, s: nat)
    requires BusShape(b) && b.servos != [] && BusFits(b, logs) && AllIncreasing(logs)
    requires ReadFits(input.dispatchRead, b.servos[NextCursor(b)].consumed, logs[NextCursor(b)])
    requires s < |logs|
    ensures var c := Dispatch(b, input);
            && RuntimeFits(c.bus.servos[s], logs[s])
            && SentFits(b.servos[s], c, input.now, logs[s], s)
  {
    if s == NextCursor(b) {
      AskServoFits(b.servos[s], input, logs[s]);
    }
  }

  /** What a cycle sends to servo `s` is live, and is remembered. */
  predicate SentFits(rt: Runtime, c: Cycled, now: int, log: seq<Command>, s: nat)
    requires s < |c.bus.servos|
  {
    && Remembers(rt, c.bus.servos[s], GoalFor(c.request, s))
    && (GoalFor(c.request, s).Some? ==> GoalIsLive(rt, GoalFor(c.request, s).value, c.request.value.bytes, now, log))
  }

  lemma ServiceFits(b: BusState, input: Input, logs: seq<seq<Command>>, s: nat)
    requires BusShape(b) && Serves(b) && !b.latched && BusFits(b, logs) && InputFits(b, input, logs)
    requires AllIncreasing(logs)
    requires s < |logs|
    ensures var c := Service(b, input);
            && RuntimeFits(c.bus.servos[s], logs[s])
            && SentFits(b.servos[s], c, input.now, logs[s], s)
  {
    var polled := AfterPoll(b, input);
    forall u | 0 <= u < |logs|
      ensures RuntimeFits(polled.servos[u], logs[u]) && SameGoal(b.servos[u], polled.servos[u])
    {
      PollFits(b, input, logs, u);
    }
    if !polled.latched {
      DispatchFits(polled, input, logs, s);
    }
  }

  lemma CycleFits(b: BusState, input: Input, logs: seq<seq<Command>>, s: nat)
    requires BusShape(b) && BusFits(b, logs) && InputFits(b, input, logs) && AllIncreasing(logs)
    requires s < |logs|
    ensures var c := Cycle(b, input);
            && RuntimeFits(c.bus.servos[s], logs[s])
            && SentFits(b.servos[s], c, input.now, logs[s], s)
  {
    if Serves(b) && !b.latched {
      var counted := b.(cycles := b.cycles + 1);
      assert InputFits(counted, input, logs);
      ServiceFits(counted, input, logs, s);
    }
  }

  lemma {:induction false} RunKeepsFits(run: BusRun, logs: seq<seq<Command>>, i: nat)
    requires IsRun(run) && |logs| == Servos(run) && RunFits(run, logs) && i <= |run.inputs|
    ensures BusFits(run.states[i], logs)
    decreases i
  {
    if i > 0 {
      RunKeepsFits(run, logs, i - 1);
      assert StepAt(run, i - 1);
      var b := run.states[i - 1];
      assert InputFits(b, run.inputs[i - 1], logs);
      forall s | 0 <= s < |logs|
        ensures RuntimeFits(run.states[i].servos[s], logs[s])
      {
        CycleFits(b, run.inputs[i - 1], logs, s);
      }
    }
  }

  /** The command cycle `i` writes to servo `s`, if it writes one. */
  function GoalAt(run: BusRun, i: nat, s: nat): Option<Command>
    requires IsRun(run) && i < |run.inputs|
  {
    GoalFor(run.requests[i], s)
  }

  lemma CycleAt(run: BusRun, logs: seq<seq<Command>>, i: nat, s: nat)
    requires IsRun(run) && |logs| == Servos(run) && RunFits(run, logs) && i < |run.inputs| && s < |logs|
    ensures var rt, rt' := run.states[i].servos[s], run.states[i + 1].servos[s];
            var goal := GoalAt(run, i, s);
            && Remembers(rt, rt', goal)
            && (goal.Some? ==> GoalIsLive(rt, goal.value, run.requests[i].value.bytes, run.inputs[i].now, logs[s]))
  {
    RunKeepsFits(run, logs, i);
    assert InputFits(run.states[i], run.inputs[i], logs);
    assert StepAt(run, i);
    CycleFits(run.states[i], run.inputs[i], logs, s);
  }

  lemma {:induction false} GoalIsRemembered(run: BusRun, logs: seq<seq<Command>>, i: nat, j: nat, s: nat)
    requires IsRun(run) && |logs| == Servos(run) && RunFits(run, logs)
    requires i < j <= |run.inputs| && s < |logs| && GoalAt(run, i, s).Some?
    ensures var rt := run.states[j].servos[s];
            rt.goalDispatched && rt.goalSequence >= GoalAt(run, i, s).value.sequence
    decreases j
  {
    if i + 1 < j {
      GoalIsRemembered(run, logs, i, j - 1, s);
    }
    CycleAt(run, logs, j - 1, s);
  }

  /** Goals written to one servo carry strictly increasing sequences: no accepted command is written twice. */
  lemma GoalsOnlyGetNewer(run: BusRun, logs: seq<seq<Command>>, i: nat, j: nat, s: nat)
    requires IsRun(run) && |logs| == Servos(run) && RunFits(run, logs)
    requires i < j < |run.inputs| && s < |logs|
    requires GoalAt(run, i, s).Some? && GoalAt(run, j, s).Some?
    ensures GoalAt(run, i, s).value.sequence < GoalAt(run, j, s).value.sequence
  {
    GoalIsRemembered(run, logs, i, j, s);
    CycleAt(run, logs, j, s);
  }

  lemma {:induction false} ConfigsStay(run: BusRun, i: nat, s: nat)
    requires IsRun(run) && i <= |run.inputs| && s < Servos(run)
    ensures run.states[i].servos[s].config == run.states[0].servos[s].config
    decreases i
  {
    if i > 0 {
      ConfigsStay(run, i - 1, s);
      assert StepAt(run, i - 1);
      CycleKeepsConfig(run.states[i - 1], run.inputs[i - 1], s);
    }
  }

  /** Every goal frame of a run carries an accepted command of that servo that is enabled, not stopped and not
      expired. */
  lemma GoalsAreLive(run: BusRun, logs: seq<seq<Command>>, i: nat, s: nat)
    requires IsRun(run) && |logs| == Servos(run) && RunFits(run, logs)
    requires i < |run.inputs| && s < |logs| && GoalAt(run, i, s).Some?
    ensures var goal, config := GoalAt(run, i, s).value, run.states[0].servos[s].config;
            && goal in logs[s]
            && goal.enabled && !goal.emergencyStop && InTime(config, goal, run.inputs[i].now)
            && goal.target.Some?
            && run.requests[i].value.bytes == GoalFrame(config, PositionUnits(goal.target.value, config.maximumUnits))
  {
    CycleAt(run, logs, i, s);
    ConfigsStay(run, i, s);
  }

  /** Servo `s` as cycle `i` finds it when its turn to be asked has come. */
  function Considered(run: BusRun, i: nat, s: nat): Runtime
    requires IsRun(run) && i < |run.inputs| && s < Servos(run)
  {
    Refresh(AfterPoll(run.states[i], run.inputs[i]).servos[s], run.inputs[i].dispatchRead, run.inputs[i].now)
  }

  predicate WrittenAt(run: BusRun, k: nat, s: nat, sequence: nat)
    requires IsRun(run) && k < |run.inputs|
  {
    GoalAt(run, k, s).Some? && GoalAt(run, k, s).value.sequence == sequence
  }

  lemma {:induction false} GoalMemoryIsTrue(run: BusRun, logs: seq<seq<Command>>, i: nat, s: nat)
    requires IsRun(run) && |logs| == Servos(run) && RunFits(run, logs) && i <= |run.inputs| && s < |logs|
    requires run.states[i].servos[s].goalDispatched
    ensures exists k :: 0 <= k < i && WrittenAt(run, k, s, run.states[i].servos[s].goalSequence)
    decreases i
  {
    assert FreshRuntime(run.states[0].servos[s]);
    if i > 0 {
      CycleAt(run, logs, i - 1, s);
      if GoalAt(run, i - 1, s).Some? {
        assert WrittenAt(run, i - 1, s, run.states[i].servos[s].goalSequence);
      } else {
        GoalMemoryIsTrue(run, logs, i - 1, s);
      }
    }
  }

  lemma ConsideredFits(run: BusRun, logs: seq<seq<Command>>, i: nat, s: nat)
    requires IsRun(run) && |logs| == Servos(run) && RunFits(run, logs)
    requires i < |run.inputs| && !run.states[i + 1].latched && s == Turn(i, Servos(run))
    ensures RuntimeFits(Considered(run, i, s), logs[s]) && SameGoal(run.states[i].servos[s], Considered(run, i, s))
    ensures GoalAt(run, i, s) == if SendsGoal(Considered(run, i, s)) then Some(Considered(run, i, s).command) else None
  {
    var b, input := run.states[i], run.inputs[i];
    CycleAsksInTurn(run, i);
    StillServes(run, i);
    assert StepAt(run, i) && InputFits(b, input, logs);
    RunKeepsFits(run, logs, i);
    CycleMoves(b, input);
    PollFits(b, input, logs, s);
    CycleBuilds(b, input, s);
    RefreshFits(AfterPoll(b, input).servos[s], input.dispatchRead, input.now, logs[s]);
  }

  lemma CycleBuilds(b: BusState, input: Input, s: nat)
    requires BusShape(b) && Serves(b) && !b.latched && !Cycle(b, input).bus.latched && s == NextCursor(b)
    ensures var polled := AfterPoll(b, input);
            var rt := Refresh(polled.servos[s], input.dispatchRead, input.now);
            && !polled.latched && NextCursor(polled) == s
            && GoalFor(Cycle(b, input).request, s) == if SendsGoal(rt) then Some(rt.command) else None
  {
    var counted := AfterPoll(b.(cycles := b.cycles + 1), input);
    assert counted.servos == AfterPoll(b, input).servos && counted.latched == AfterPoll(b, input).latched;
  }

  /**
   Exactly when a goal is written: a cycle without a fault whose turn it is for servo `s` writes
   the command held if it is active and its sequence was not written before, and else writes none.
   */
  lemma ActiveCommandIsWrittenOnce(run: BusRun, logs: seq<seq<Command>>, i: nat, s: nat)
    requires IsRun(run) && |logs| == Servos(run) && RunFits(run, logs)
    requires i < |run.inputs| && !run.states[i + 1].latched && s == Turn(i, Servos(run))
    ensures var rt := Considered(run, i, s);
            var before := exists k :: 0 <= k < i && WrittenAt(run, k, s, rt.command.sequence);
            GoalAt(run, i, s)
            == if rt.hasCommand && rt.command.enabled && !rt.command.emergencyStop && !before then Some(rt.command)
               else None
  {
    var rt := Considered(run, i, s);
    ConsideredFits(run, logs, i, s);
    if Active(rt) {
      if rt.goalDispatched {
        GoalMemoryIsTrue(run, logs, i, s);
      }
      if k :| 0 <= k < i && WrittenAt(run, k, s, rt.command.sequence) {
        GoalIsRemembered(run, logs, k, i, s);
      }
    }
  }

  // ----- From the stagers to the wire -------------------------------------

  function Commands(log: seq<ServoBatch.Commit>): (r: seq<Command>)
    ensures |r| == |log| && forall i :: 0 <= i < |log| ==> r[i] == log[i].command
  {
    seq(|log|, i requires 0 <= i < |log| => log[i].command)
  }

  function AcceptedLogs(st: ServoBatch.State): (r: seq<seq<Command>>)
    ensures |r| == |st.servos| && forall s :: 0 <= s < |st.servos| ==> r[s] == Commands(st.servos[s].log)
  {
    seq(|st.servos|, s requires 0 <= s < |st.servos| => Commands(st.servos[s].log))
  }

  lemma AcceptedLogsIncrease(configs: seq<ServoBatch.Config>, actions: seq<ServoBatch.Action>)
    ensures AllIncreasing(AcceptedLogs(ServoBatch.Run(configs, actions)))
  {
    var st := ServoBatch.Run(configs, actions);
    forall s, i, j | 0 <= s < |st.servos| && 0 <= i < j < |st.servos[s].log|
      ensures st.servos[s].log[i].command.sequence < st.servos[s].log[j].command.sequence
    {
      ServoBatch.CommitsAreOrdered(configs, actions, s, i, j);
    }
  }

  /**
   Any stagers, any bus run that reads what they accepted: a command accepted for a servo is
   written to it in at most one cycle.
   */
  lemma AcceptedCommandIsWrittenAtMostOnce(
      configs: seq<ServoBatch.Config>, actions: seq<ServoBatch.Action>, run: BusRun, i: nat, j: nat, s: nat)
    requires IsRun(run) && |ServoBatch.Run(configs, actions).servos| == Servos(run)
    requires forall k :: 0 <= k < |run.inputs| ==>
               InputFits(run.states[k], run.inputs[k], AcceptedLogs(ServoBatch.Run(configs, actions)))
    requires i < |run.inputs| && j < |run.inputs| && s < Servos(run)
    requires GoalAt(run, i, s).Some? && GoalAt(run, i, s) == GoalAt(run, j, s)
    ensures i == j
  {
    var logs := AcceptedLogs(ServoBatch.Run(configs, actions));
    AcceptedLogsIncrease(configs, actions);
    if i < j {
      GoalsOnlyGetNewer(run, logs, i, j, s);
    } else if j < i {
      GoalsOnlyGetNewer(run, logs, j, i, s);
    }
  }

  // ----- Feedback ---------------------------------------------------------

  /** A frame that decodes, comes from this servo and reports no error. */
  predicate Answers(config: ServoConfig, response: Response) {
    && response.Received?
    && Decode(response.bytes).Success?
    && Decode(response.bytes).value.deviceId == config.deviceId
    && Decode(response.bytes).value.instruction == 0
  }

  lemma PolledValidNeedsAnswer(rt: Runtime, startedAt: int, input: Input)
    requires rt.config.maximumUnits > 0
    ensures var feedback := PollServo(rt, startedAt, input).rt.feedback;
            Valid in feedback.flags ==>
              feedback == rt.feedback || (Answers(rt.config, input.response) && feedback.timestamp == input.now)
  {
  }

  lemma AskedIsNotValid(rt: Runtime, input: Input)
    ensures var feedback := AskServo(rt, input).rt.feedback;
            Valid in feedback.flags ==> feedback == rt.feedback
  {
  }

  lemma ValidNeedsAnswer(b: BusState, input: Input, s: nat)
    requires BusShape(b) && s < |b.servos|
    ensures var rt, rt' := b.servos[s], Cycle(b, input).bus.servos[s];
            Valid in rt'.feedback.flags ==>
              || rt'.feedback == rt.feedback
              || (b.dispatched && b.pending == s && Answers(rt.config,
                                                            input.response) && rt'.feedback.timestamp == input.now)
  {
    if Serves(b) && !b.latched {
      PolledValidNeedsAnswer(b.servos[s], b.startedAt, input);
      var polled := AfterPoll(b.(cycles := b.cycles + 1), input);
      AskedIsNotValid(polled.servos[s], input);
    }
  }

  predicate AnsweredAt(run: BusRun, i: nat, s: nat)
    requires IsRun(run) && s < Servos(run) && i < |run.inputs|
  {
    var b := run.states[i];
    b.dispatched && b.pending == s && Answers(run.states[0].servos[s].config, run.inputs[i].response)
  }

  /** In every run, feedback marked valid was answered by that very servo, at the time it is stamped with. */
  lemma {:induction false} ValidFeedbackWasAnswered(run: BusRun, n: nat, s: nat)
    requires IsRun(run) && s < Servos(run) && n <= |run.inputs|
    requires Valid in run.states[n].servos[s].feedback.flags
    ensures exists i :: 0 <= i < n && AnsweredAt(run, i, s)
                     && run.inputs[i].now == run.states[n].servos[s].feedback.timestamp
    decreases n
  {
    assert FreshRuntime(run.states[0].servos[s]);
    if n > 0 {
      var b := run.states[n - 1];
      assert StepAt(run, n - 1);
      ValidNeedsAnswer(b, run.inputs[n - 1], s);
      ConfigsStay(run, n - 1, s);
      if run.states[n].servos[s].feedback == b.servos[s].feedback {
        ValidFeedbackWasAnswered(run, n - 1, s);
      } else {
        assert AnsweredAt(run, n - 1, s);
      }
    }
  }

  lemma AnsweredOrNotOverdue(rt: Runtime, startedAt: int, input: Input)
    requires rt.config.maximumUnits > 0 && rt.config.feedbackTimeout > 0 && !PollServo(rt, startedAt, input).latch
    ensures !Overdue(PollServo(rt, startedAt, input).rt, startedAt, input.now)
  {
  }

  /**
   A silent servo is noticed within one round: in any `n` consecutive cycles without a fault,
   the first of the run aside, each servo passes one check of its feedback timeout.
   */
  lemma SilenceIsNoticed(run: BusRun, i: nat, s: nat)
    requires IsRun(run) && s < Servos(run) && i + Servos(run) < |run.inputs|
    requires !run.states[i + Servos(run) + 1].latched
    ensures var j := TurnOf(i, s, Servos(run)) + 1;
            !Overdue(AfterPoll(run.states[j], run.inputs[j]).servos[s], run.states[0].startedAt, run.inputs[j].now)
  {
    var n := Servos(run);
    var j := TurnOf(i, s, n) + 1;
    UnlatchedBefore(run, j + 1, i + n + 1);
    OneTurnPerWindow(i, j - 1, s, n);
    TurnIsPolled(run, j);
  }

  /** Without a fault, cycle `j` checks the servo whose turn cycle `j - 1` was. */
  lemma TurnIsPolled(run: BusRun, j: nat)
    requires IsRun(run) && 0 < j < |run.inputs| && !run.states[j + 1].latched
    ensures var s := Turn(j - 1, Servos(run));
            !Overdue(AfterPoll(run.states[j], run.inputs[j]).servos[s], run.states[0].startedAt, run.inputs[j].now)
  {
    UnlatchedBefore(run, j, j + 1);
    CycleAsksInTurn(run, j - 1);
    StillServes(run, j);
    assert StepAt(run, j);
    PollChecks(run.states[j], run.inputs[j]);
  }

  lemma PollChecks(b: BusState, input: Input)
    requires BusShape(b) && Serves(b) && b.dispatched && !Cycle(b, input).bus.latched
    ensures !Overdue(AfterPoll(b, input).servos[b.pending], b.startedAt, input.now)
  {
    AnsweredOrNotOverdue(b.servos[b.pending], b.startedAt, input);
    assert AfterPoll(b.(cycles := b.cycles + 1), input).latched == AfterPoll(b, input).latched;
  }

  // ----- Every input sequence is a run ------------------------------------

  lemma {:induction false} RunsExist(start: BusState, inputs: seq<Input>) returns (run: BusRun)
    requires Fresh(start)
    ensures IsRun(run) && run.states[0] == start && run.inputs == inputs
    decreases |inputs|
  {
    if inputs == [] {
      run := BusRun([start], [], []);
    } else {
      var n := |inputs| - 1;
      var earlier := RunsExist(start, inputs[..n]);
      var c := Cycle(earlier.states[n], inputs[n]);
      run := BusRun(earlier.states + [c.bus], inputs, earlier.requests + [c.request]);
      forall i | 0 <= i < |run.inputs|
        ensures StepAt(run, i)
      {
        if i < n {
          assert StepAt(earlier, i);
        }
      }
    }
  }

  // ----- The bus object ---------------------------------------------------

  class Bus {
    var running: bool
    var servos: seq<Runtime>
    var cursor: nat
    var pending: nat
    var dispatched: bool
    var startedAt: int
    var latched: bool
    var health: nat
    var cycles: nat

    function View(): BusState
      reads this
    {
      BusState(running, servos, cursor, pending, dispatched, startedAt, latched, health, cycles)
    }

    constructor (servos: seq<Runtime>, startedAt: int)
      requires servos != [] && Calibrated(servos) && forall s :: 0 <= s < |servos| ==> FreshRuntime(servos[s])
      ensures Fresh(View()) && View().servos == servos && health == HEALTHY
    {
      this.running, this.servos, this.cursor, this.pending := true, servos, 0, 0;
      this.dispatched, this.startedAt, this.latched, this.cycles := false, startedAt, false, 0;
      this.health := HEALTHY;
    }

    method RefreshStaged(s: nat, read: Option<Staged>, now: int)
      requires s < |servos|
      modifies this
      ensures View() == old(View()).(servos := old(servos)[s := Refresh(old(servos)[s], read, now)])
    {
      var rt := servos[s];
      if read.Some? && read.value.publication != rt.consumed {
        rt := rt.(consumed := read.value.publication, command := read.value.command, hasCommand := true,
                  timedOut := false);
      }
      if rt.hasCommand && rt.config.commandTimeout > 0
         && (now < rt.command.timestamp || now - rt.command.timestamp > rt.config.commandTimeout) {
        rt := rt.(hasCommand := false, command := rt.command.(enabled := false), timedOut := true);
      }
      servos := servos[s := rt];
    }

    /** Publish the last feedback once more, as failed. */
    method PublishFailedFeedback(s: nat, flag: Flag, input: Input)
      requires s < |servos|
      modifies this
      ensures View() == old(View()).(servos := old(servos)[s := PublishFailed(old(servos)[s], flag, input)],
                                     health := input.status.health)
    {
      var rt := servos[s];
      var feedback := rt.feedback;
      rt := rt.(feedbackSequence := rt.feedbackSequence + 1);
      feedback := feedback.(sequence := rt.feedbackSequence);
      feedback := feedback.(commandSequence := if rt.hasCommand then rt.command.sequence else 0);
      feedback := feedback.(timestamp := input.now);
      feedback := feedback.(flags := feedback.flags - {Valid});
      feedback := feedback.(flags := feedback.flags + {Stale, flag});
      feedback := feedback.(transport := input.status);
      health := input.status.health;
      servos := servos[s := rt.(feedback := feedback)];
    }

    /** The feedback a response makes, or the error it is. */
    method ConsumeResponse(s: nat, input: Input) returns (result: Result<Feedback, Code>)
      requires s < |servos| && Calibrated(servos) && !input.response.ReadThrew?
      modifies this
      ensures match Answer(old(servos)[s], input.response)
              case Failure(code) => result == Failure(code) && View() == old(View())
              case Success(packet) =>
                var rt := old(servos)[s];
                && result == Success(AnswerBase(rt, packet, input))
                && View() == old(View()).(
                     servos := old(servos)[s := rt.(feedbackSequence := rt.feedbackSequence + 1)])
    {
      if input.response.ReadFailed? {
        return Failure(input.response.code);
      }
      var status := Decode(input.response.bytes);
      if status.Failure? {
        return Failure(CodeProtocol);
      }
      var rt := servos[s];
      if status.value.deviceId != rt.config.deviceId {
        return Failure(CodeProtocol);
      }
      var error := status.value.instruction;
      rt := rt.(feedbackSequence := rt.feedbackSequence + 1);
      servos := servos[s := rt];
      var feedback := rt.feedback.(sequence := rt.feedbackSequence);
      feedback := feedback.(commandSequence := if rt.hasCommand then rt.command.sequence else 0);
      feedback := feedback.(timestamp := input.now, statusError := error, transport := input.status);
      if error == 0 {
        feedback := feedback.(flags := {Valid});
      } else {
        feedback := feedback.(flags := {Stale, DeviceError});
      }
      if error == 0 && |status.value.parameters| >= 2 {
        var raw := FromLittleEndian(status.value.parameters, 0);
        feedback := feedback.(rawPosition := raw, position := PositionRadians(raw, rt.config.maximumUnits));
      }
      return Success(feedback);
    }

    /** Publish the feedback of a response, marked late or disabled as the command stands. */
    method PublishAnswer(s: nat, response: Feedback, now: int)
      requires s < |servos|
      modifies this
      ensures var rt := old(servos)[s];
              View() == old(View()).(
                servos := old(servos)[s := rt.(feedback := Adjusted(rt, response), lastResponse := now)])
    {
      var rt, feedback := servos[s], response;
      if rt.timedOut {
        feedback := feedback.(commandSequence := rt.command.sequence);
        feedback := feedback.(flags := feedback.flags - {Valid});
        feedback := feedback.(flags := feedback.flags + {Stale, Timeout});
      }
      if !rt.hasCommand || !rt.command.enabled || rt.command.emergencyStop {
        feedback := feedback.(flags := feedback.flags + {Disabled});
      }
      servos := servos[s := rt.(feedback := feedback, lastResponse := now)];
    }

    /** False when the transport threw. */
    method PollResponse(s: nat, input: Input) returns (returned: bool)
      requires s < |servos| && Calibrated(servos) && !latched
      modifies this
      ensures returned <==> !input.response.ReadThrew?
      ensures var held := Refresh(old(servos)[s], input.pollRead, input.now);
              if !returned then View() == old(View()).(servos := old(servos)[s := held])
              else
                var polled := Poll(held, startedAt, input);
                View() == old(View()).(servos := old(servos)[s := polled.rt], latched := polled.latch,
                                       health := if polled.latch then input.status.health else old(health))
    {
      RefreshStaged(s, input.pollRead, input.now);
      if input.response.ReadThrew? {
        return false;
      }
      var response := ConsumeResponse(s, input);
      if response.Success? {
        PublishAnswer(s, response.value, input.now);
      } else if response.error != CodeTimeout {
        latched, health := true, FAILED;
        PublishFailedFeedback(s, FlagFor(response.error), input);
      } else {
        var rt := servos[s];
        var reference := if rt.lastResponse < startedAt then startedAt else rt.lastResponse;
        if input.now - reference > rt.config.feedbackTimeout * 1_000_000 {
          latched, health := true, FAILED;
          PublishFailedFeedback(s, Timeout, input);
        }
      }
      return true;
    }

    /** The request given to the transport, if any, the error it ended with, and false when the transport threw. */
    method SendRequest(s: nat, write: WriteOutcome) returns (request: Option<Request>, failure: Option<Code>,
                                                             returned: bool)
      requires s < |servos|
      modifies this
      ensures match Build(old(servos)[s])
              case NotBuilt =>
                request == None && failure == Some(CodeInvalidArgument) && returned && View() == old(View())
              case Built(rt, bytes, goal) =>
                && request == Some(Request(s, bytes, goal)) && returned == !write.WriteThrew?
                && failure == (if write.WriteFailed? then Some(write.code) else None)
                && View() == old(View()).(servos := old(servos)[s := rt])
    {
      var rt := servos[s];
      var active := rt.hasCommand && rt.command.enabled && !rt.command.emergencyStop;
      if active && (!rt.goalDispatched || rt.goalSequence != rt.command.sequence) {
        if rt.command.target.None? || rt.config.maximumUnits == 0 {
          return None, Some(CodeInvalidArgument), true;
        }
        var position := PositionUnits(rt.command.target.value, rt.config.maximumUnits);
        request := Some(Request(s, GoalFrame(rt.config, position), Some(rt.command)));
        servos := servos[s := rt.(goalDispatched := true, goalSequence := rt.command.sequence)];
      } else {
        request := Some(Request(s, ReadFrame(rt.config), None));
      }
      failure := if write.WriteFailed? then Some(write.code) else None;
      returned := !write.WriteThrew?;
    }

    method DispatchRequest(s: nat, input: Input) returns (request: Option<Request>, returned: bool)
      requires s < |servos| && !latched
      modifies this
      ensures var a := AskHeld(old(servos)[s], input);
              && returned == !a.threw
              && request == (if a.built then Some(Request(s, a.bytes, a.goal)) else None)
              && |servos| == |old(servos)|
              && (if returned then servos[s] else PublishFailed(servos[s], Io, input)) == a.rt
              && View() == old(View()).(servos := old(servos)[s := servos[s]], latched := returned && a.latch,
                                        health := if returned && a.latch then input.status.health else old(health))
    {
      var failure;
      request, failure, returned := SendRequest(s, input.write);
      if returned && failure.Some? {
        latched, health := true, FAILED;
        PublishFailedFeedback(s, FlagFor(failure.value), input);
      }
    }

    /** Poll the servo asked in the cycle before, if there is one. */
    method PollPending(input: Input) returns (returned: bool)
      requires BusShape(View()) && servos != [] && !latched
      modifies this
      ensures |servos| == |old(servos)| && cursor == old(cursor)
      ensures (if returned then View() else Caught(View(), input)) == AfterPoll(old(View()), input)
    {
      returned := true;
      if dispatched {
        returned := PollResponse(pending, input);
      }
    }

    /** Move on to the next servo and ask it. */
    method AskNext(input: Input) returns (request: Option<Request>, returned: bool)
      requires BusShape(View()) && servos != [] && !latched
      modifies this
      ensures |servos| == |old(servos)| && cursor < |servos|
      ensures Cycled(if returned then View() else Caught(View(), input), request) == Dispatch(old(View()), input)
    {
      cursor := if dispatched then (pending + 1) % |servos| else 0;
      assert cursor == NextCursor(old(View()));
      RefreshStaged(cursor, input.dispatchRead, input.now);
      request, returned := DispatchRequest(cursor, input);
      if returned {
        pending := cursor;
        dispatched := true;
      }
    }

    /** One poll and one request; false when the transport threw in either. */
    method ServiceStep(input: Input) returns (request: Option<Request>, returned: bool)
      requires BusShape(View()) && servos != [] && !latched
      modifies this
      ensures |servos| == |old(servos)| && cursor < |servos|
      ensures Cycled(if returned then View() else Caught(View(), input), request) == Service(old(View()), input)
    {
      returned := PollPending(input);
      request := None;
      if returned && !latched {
        request, returned := AskNext(input);
      }
    }

    /** The step inside its exception handler. */
    method GuardedStep(input: Input) returns (request: Option<Request>)
      requires BusShape(View()) && servos != [] && !latched
      modifies this
      ensures Cycled(View(), request) == Service(old(View()), input)
    {
      var returned;
      request, returned := ServiceStep(input);
      if !returned {
        latched, health := true, FAILED;
        PublishFailedFeedback(cursor, Io, input);
      }
    }

    method RunCycle(input: Input) returns (request: Option<Request>)
      requires BusShape(View())
      modifies this
      ensures Cycled(View(), request) == Cycle(old(View()), input)
    {
      if !running || |servos| == 0 {
        return None;
      }
      cycles := cycles + 1;
      if latched {
        PublishFailedFeedback(cursor, Io, input);
        return None;
      }
      request := GuardedStep(input);
    }
  }

  /** What the handler around the cycle does with an exception of the transport. */
  function Caught(b: BusState, input: Input): BusState
    requires b.cursor < |b.servos|
  {
    Update(b, b.cursor, PublishFailed(b.servos[b.cursor], Io, input)).(latched := true, health := input.status.health)
  }
}
