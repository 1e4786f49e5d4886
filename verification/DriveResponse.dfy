/**
 The other side of the control word: how a CiA 402 drive answers it. The drive reads
 the word by the bit patterns of the device profile and moves along its power state
 machine; the words of `ControlWord` are judged by where they take such a drive.
 */
module DriveResponse {
  import opened Cia402

  // ----- The drive --------------------------------------------------------

  datatype DriveCommand = Shutdown | SwitchOn | EnableOperation | Halt | DisableVoltage

  /**
   The device control commands of the profile: bit 0 switch on, bit 1 enable voltage, bit 2 quick stop
   (active low), bit 3 enable operation. `Halt` is the profile's quick stop.
   */
  function CommandIn(word: bv16): DriveCommand {
    if word & 0x0002 == 0 then DisableVoltage
    else if word & 0x0004 == 0 then Halt
    else if word & 0x0001 == 0 then Shutdown
    else if word & 0x0008 == 0 then SwitchOn
    else EnableOperation
  }

  /** A rising edge of bit 7 acknowledges a fault. */
  predicate FaultAcknowledged(previous: bv16, word: bv16) {
    previous & 0x0080 == 0 && word & 0x0080 != 0
  }

  /** The transitions that a control word can cause; a drive that is starting or reacting to a fault ignores it. */
  function Respond(state: DriveState, previous: bv16, word: bv16): DriveState {
    var command := CommandIn(word);
    match state
    case SwitchOnDisabled => if command == Shutdown then ReadyToSwitchOn else state
    case ReadyToSwitchOn =>
      if command == SwitchOn || command == EnableOperation then SwitchedOn
      else if command == Shutdown then state else SwitchOnDisabled
    case SwitchedOn =>
      (match command
       case EnableOperation => OperationEnabled
       case SwitchOn => state
       case Shutdown => ReadyToSwitchOn
       case _ => SwitchOnDisabled)
    case OperationEnabled =>
      (match command
       case EnableOperation => state
       case SwitchOn => SwitchedOn
       case Shutdown => ReadyToSwitchOn
       case Halt => QuickStopActive
       case DisableVoltage => SwitchOnDisabled)
    case QuickStopActive =>
      if command == EnableOperation then OperationEnabled
      else if command == DisableVoltage then SwitchOnDisabled else state
    case Fault => if FaultAcknowledged(previous, word) then SwitchOnDisabled else state
    case _ => state
  }

  // ----- The words against the drive --------------------------------------

  predicate OnThePowerLadder(state: DriveState) {
    state in {SwitchOnDisabled, ReadyToSwitchOn, SwitchedOn, OperationEnabled, QuickStopActive}
  }

  /** Quick stop is asked of the drive by its own pattern exactly in the four states that have voltage to stop with. */
  lemma QuickStopPattern(state: DriveState, previous: bv16, latched: bool)
    ensures CommandIn(ControlWord(state, QuickStop, latched)) == Halt <==>
              state in {ReadyToSwitchOn, SwitchedOn, OperationEnabled, QuickStopActive}
    ensures OnThePowerLadder(state) ==>
              Respond(state, previous, ControlWord(state, QuickStop, latched))
              == if state in {OperationEnabled, QuickStopActive} then QuickStopActive else SwitchOnDisabled
  {
  }

  /** A disable takes the voltage away from every state that has it. */
  lemma DisableTakesVoltage(state: DriveState, previous: bv16, latched: bool)
    ensures CommandIn(ControlWord(state, Disable, latched)) == DisableVoltage
    ensures OnThePowerLadder(state) ==>
              Respond(state, previous, ControlWord(state, Disable, latched)) == SwitchOnDisabled
  {
  }

  /** Whatever the drive's state, only an enable request leaves it in operation. */
  lemma OperationNeedsEnable(state: DriveState, previous: bv16, request: AxisRequest, latched: bool)
    ensures Respond(state, previous, ControlWord(state, request, latched)) == OperationEnabled ==> request == Enable
  {
  }

  // ----- Runs of requests -------------------------------------------------

  /** A drive and its state machine: the state it reports, the word it was last given, the reset latch. */
  datatype Drive = Drive(state: DriveState, word: bv16, latched: bool)

  function Next(d: Drive, request: AxisRequest): Drive {
    var word := ControlWord(d.state, request, d.latched);
    Drive(Respond(d.state, d.word, word), word, request == FaultReset)
  }

  function After(d: Drive, requests: seq<AxisRequest>): Drive {
    if requests == [] then d else Next(After(d, requests[..|requests| - 1]), requests[|requests| - 1])
  }

  function Enables(n: nat): (r: seq<AxisRequest>)
    ensures |r| == n && forall i :: 0 <= i < n ==> r[i] == Enable
  {
    if n == 0 then [] else Enables(n - 1) + [Enable]
  }

  /** The accepted words that lead from a state to operation enabled. */
  function Rungs(state: DriveState): nat
    requires OnThePowerLadder(state)
  {
    match state
    case SwitchOnDisabled => 3
    case ReadyToSwitchOn => 2
    case SwitchedOn => 1
    case QuickStopActive => 1
    case OperationEnabled => 0
  }

  /** One rung up, operation enabled kept, and every state off the ladder kept. */
  predicate Climbs(from: DriveState, to: DriveState) {
    if OnThePowerLadder(from)
    then OnThePowerLadder(to) && Rungs(to) == (if Rungs(from) == 0 then 0 else Rungs(from) - 1)
    else to == from
  }

  lemma EnableClimbs(d: Drive)
    ensures Climbs(d.state, Next(d, Enable).state)
  {
    ControlWordCauses(d.state, Enable, d.latched);
  }

  lemma EnableClimbsAt(d: Drive, n: nat)
    ensures Climbs(After(d, Enables(n)).state, After(d, Enables(n + 1)).state)
  {
    assert Enables(n + 1)[..n] == Enables(n);
    EnableClimbs(After(d, Enables(n)));
  }

  function StatesUnderEnable(d: Drive, n: nat): seq<DriveState> {
    seq(n + 1, i requires 0 <= i => After(d, Enables(i)).state)
  }

  lemma StatesClimb(d: Drive, n: nat)
    ensures forall i :: 0 <= i < n ==> Climbs(StatesUnderEnable(d, n)[i], StatesUnderEnable(d, n)[i + 1])
  {
    forall i | 0 <= i < n
      ensures Climbs(StatesUnderEnable(d, n)[i], StatesUnderEnable(d, n)[i + 1])
    {
      EnableClimbsAt(d, i);
    }
  }

  lemma {:induction false} ClimbToTheTop(states: seq<DriveState>, n: nat)
    requires n < |states| && forall i :: 0 <= i < n ==> Climbs(states[i], states[i + 1])
    ensures if OnThePowerLadder(states[0])
            then OnThePowerLadder(states[n])
                 && Rungs(states[n]) == (if n < Rungs(states[0]) then Rungs(states[0]) - n else 0)
            else states[n] == states[0]
  {
    if n > 0 {
      ClimbToTheTop(states, n - 1);
      assert Climbs(states[n - 1], states[n]);
    }
  }

  /**
   Under a steady enable request a drive is in operation after exactly as many words as its state is away from it:
   three from switch on disabled, and never from a fault, a fault reaction, a start-up or an unknown state.
   */
  lemma SteadyEnableReachesOperation(d: Drive, n: nat)
    ensures After(d, Enables(n)).state == OperationEnabled <==> OnThePowerLadder(d.state) && n >= Rungs(d.state)
    ensures !OnThePowerLadder(d.state) ==> After(d, Enables(n)).state == d.state
  {
    StatesClimb(d, n);
    ClimbToTheTop(StatesUnderEnable(d, n), n);
  }

  /** The latch is set whenever the reset bit was the last thing on the wire. */
  predicate LatchCovers(d: Drive) {
    d.word & 0x0080 != 0 ==> d.latched
  }

  lemma NextCovers(d: Drive, request: AxisRequest)
    ensures LatchCovers(Next(d, request))
  {
    ControlWordCauses(d.state, request, d.latched);
  }

  lemma RunCovers(d: Drive, requests: seq<AxisRequest>)
    requires LatchCovers(d)
    ensures LatchCovers(After(d, requests))
  {
    if requests != [] {
      NextCovers(After(d, requests[..|requests| - 1]), requests[|requests| - 1]);
    }
  }

  /**
   In every run, a fault ends exactly when a reset is asked for in a cycle after one that did not ask for it: the
   pulse is then a rising edge for the drive, and holding the request on gives no second one.
   */
  lemma FaultEndsExactlyOnNewReset(d: Drive, requests: seq<AxisRequest>, request: AxisRequest)
    requires LatchCovers(d) && After(d, requests).state == Fault
    ensures var before, after := After(d, requests), After(d, requests + [request]);
            && after.state == (if request == FaultReset && !before.latched then SwitchOnDisabled else Fault)
            && (requests != [] ==> (before.latched <==> requests[|requests| - 1] == FaultReset))
  {
    RunCovers(d, requests);
    assert (requests + [request])[..|requests|] == requests;
    ControlWordCauses(Fault, request, After(d, requests).latched);
  }

  /** Over every run, the drive is in operation only right after an enable request. */
  lemma OperationFollowsEnable(d: Drive, requests: seq<AxisRequest>)
    requires requests != [] && After(d, requests).state == OperationEnabled
    ensures requests[|requests| - 1] == Enable
  {
    var before := After(d, requests[..|requests| - 1]);
    OperationNeedsEnable(before.state, before.word, requests[|requests| - 1], before.latched);
  }

  // ----- On the wire ------------------------------------------------------

  /** The word the state machine class computes from a status word is the one judged above. */
  method Drives(machine: StateMachine, statusWord: bv16, request: AxisRequest, d: Drive) returns (next: Drive)
    requires d.state != Unknown && Matches(statusWord, d.state) && d.latched == machine.faultResetLatched
    modifies machine
    ensures next == Next(d, request) && machine.faultResetLatched == next.latched
  {
    DecodeIsTheTable(statusWord, d.state);
    var state, word := machine.Update(statusWord, request);
    next := Drive(Respond(d.state, d.word, word), word, request == FaultReset);
  }
}
