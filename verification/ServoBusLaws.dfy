/**
 What a servo bus does, told from its inputs: which cycles latch the fault, that a silent
 servo is found out, that a command is held until it expires and is then written, and that
 positions are rounded to the nearest unit.
 */
module ServoBusLaws {
  import opened Wrappers
  import opened St3215Protocol
  import opened ServoBus

  // ----- Positions --------------------------------------------------------

  lemma FloorOfTurns(whole: real, angle: real, turns: int, tau: real)
    requires 0.0 <= angle < tau && whole == angle + turns as real * tau
    ensures (whole / tau).Floor == turns
  {
    var share := whole / tau - turns as real;
    RatioCancels(whole, tau);
    assert share * tau == angle;
    assert share >= 1.0 ==> share * tau >= tau;
    assert share < 0.0 ==> share * tau < 0.0;
  }

  lemma WholeTurnsDrop(angle: real, turns: int)
    requires 0.0 <= angle < TAU
    ensures Wrapped(angle + turns as real * TAU) == angle
  {
    FloorOfTurns(angle + turns as real * TAU, angle, turns, TAU);
  }

  /** The share of a turn that an angle is, in units. */
  function Exact(angle: real, maximum: U16): real {
    angle / TAU * maximum as real
  }

  lemma ScaledOfTurns(radians: real, angle: real, maximum: U16)
    requires Wrapped(radians) == angle
    ensures Scaled(radians, maximum) == Exact(angle, maximum)
  {
    var share := angle / TAU;
    assert Wrapped(radians) / TAU == share;
  }

  lemma ExactIsBelow(angle: real, maximum: U16)
    requires 0.0 <= angle < TAU && maximum > 0
    ensures 0.0 <= Exact(angle, maximum) < maximum as real
  {
    FractionBelowOne(angle, TAU);
    ShareBelow(angle / TAU, maximum as real);
  }

  /** However many turns it is given with, an angle is written as the nearest unit, the even one of two equally near. */
  lemma PositionIsNearest(angle: real, turns: int, maximum: U16)
    requires 0.0 <= angle < TAU && maximum > 0
    ensures var exact, units := Exact(angle, maximum), PositionUnits(angle + turns as real * TAU, maximum);
            && -0.5 <= units as real - exact <= 0.5
            && (units as real - exact in {-0.5, 0.5} ==> units % 2 == 0)
  {
    var radians := angle + turns as real * TAU;
    WholeTurnsDrop(angle, turns);
    ScaledOfTurns(radians, angle, maximum);
    ExactIsBelow(angle, maximum);
    NearestOf(Scaled(radians, maximum), Exact(angle, maximum), maximum);
  }

  lemma NearestOf(scaled: real, exact: real, maximum: U16)
    requires scaled == exact && 0.0 <= exact < maximum as real
    ensures var units := RoundedUnits(scaled, maximum);
            && -0.5 <= units as real - exact <= 0.5
            && (units as real - exact in {-0.5, 0.5} ==> units % 2 == 0)
  {
    UnitsAreNearest(exact, maximum);
  }

  lemma ShareBelow(share: real, m: real)
    requires 0.0 <= share < 1.0 && m > 0.0
    ensures 0.0 <= share * m < m
  {
  }

  lemma UnitsAreNearest(exact: real, maximum: U16)
    requires 0.0 <= exact < maximum as real
    ensures var units := RoundedUnits(exact, maximum);
            && -0.5 <= units as real - exact <= 0.5
            && (units as real - exact in {-0.5, 0.5} ==> units % 2 == 0)
  {
  }

  // ----- The fault latch --------------------------------------------------

  /** A frame that decodes and comes from this servo, with whatever status. */
  predicate Replies(config: ServoConfig, response: Response) {
    && response.Received? && Decode(response.bytes).Success?
    && Decode(response.bytes).value.deviceId == config.deviceId
  }

  /** No bytes yet, within the feedback timeout in milliseconds of the last reply or of the start. */
  predicate Patient(rt: Runtime, startedAt: int, input: Input) {
    && input.response == ReadFailed(CodeTimeout)
    && (input.now <= rt.lastResponse + rt.config.feedbackTimeout * 1_000_000
        || input.now <= startedAt + rt.config.feedbackTimeout * 1_000_000)
  }

  lemma PollLatchesExactlyWhen(rt: Runtime, startedAt: int, input: Input)
    requires rt.config.maximumUnits > 0
    ensures PollServo(rt, startedAt, input).latch <==>
              !Replies(rt.config, input.response) && !Patient(rt, startedAt, input)
  {
  }

  lemma AskLatchesExactlyWhen(rt: Runtime, input: Input)
    requires rt.config.maximumUnits > 0
    ensures var held := Refresh(rt, input.dispatchRead, input.now);
            AskServo(rt, input).latch <==> input.write != Wrote || (SendsGoal(held) && held.command.target.None?)
  {
  }

  /**
   Exactly when a cycle latches the fault: the response due is neither a reply of that servo nor silence within its
   timeout, or the request cannot be built or written.
   */
  lemma FaultLatchesExactlyWhen(b: BusState, input: Input)
    requires BusShape(b) && Serves(b) && !b.latched
    ensures var asked := AfterPoll(b, input).servos[NextCursor(b)];
            var held := Refresh(asked, input.dispatchRead, input.now);
            Cycle(b, input).bus.latched <==>
              || (b.dispatched && !Replies(b.servos[b.pending].config, input.response)
                  && !Patient(b.servos[b.pending], b.startedAt, input))
              || input.write != Wrote || (SendsGoal(held) && held.command.target.None?)
  {
    var counted := b.(cycles := b.cycles + 1);
    assert AfterPoll(counted, input).servos == AfterPoll(b, input).servos;
    if b.dispatched {
      PollLatchesExactlyWhen(b.servos[b.pending], b.startedAt, input);
    }
    AskLatchesExactlyWhen(AfterPoll(b, input).servos[NextCursor(b)], input);
  }

  // ----- A silent servo is found out --------------------------------------

  /** Cycle `k` takes a reply of servo `s`. */
  predicate RepliedAt(run: BusRun, k: nat, s: nat)
    requires IsRun(run) && s < Servos(run) && k < |run.inputs|
  {
    && !run.states[k].latched && run.states[k].dispatched && run.states[k].pending == s
    && Replies(run.states[0].servos[s].config, run.inputs[k].response)
  }

  lemma PollKeepsTime(rt: Runtime, startedAt: int, input: Input)
    requires rt.config.maximumUnits > 0
    ensures PollServo(rt, startedAt, input).rt.lastResponse
            == if Replies(rt.config, input.response) then input.now else rt.lastResponse
  {
  }

  lemma AskKeepsTime(rt: Runtime, input: Input)
    ensures AskServo(rt, input).rt.lastResponse == rt.lastResponse
  {
  }

  lemma AfterPollKeepsTime(b: BusState, input: Input, s: nat)
    requires BusShape(b) && s < |b.servos|
    ensures AfterPoll(b, input).servos[s].lastResponse
            == if b.dispatched && b.pending == s && Replies(b.servos[s].config, input.response) then input.now
               else b.servos[s].lastResponse
  {
    PollKeepsTime(b.servos[s], b.startedAt, input);
  }

  lemma CycleKeepsTime(b: BusState, input: Input, s: nat)
    requires BusShape(b) && s < |b.servos| && Serves(b)
    ensures Cycle(b, input).bus.servos[s].lastResponse
            == if !b.latched then AfterPoll(b, input).servos[s].lastResponse else b.servos[s].lastResponse
  {
    if !b.latched {
      var counted := b.(cycles := b.cycles + 1);
      assert AfterPoll(counted, input).servos == AfterPoll(b, input).servos;
      AskKeepsTime(AfterPoll(b, input).servos[s], input);
    }
  }

  /** The time of the last response is that of a cycle which took a reply of that servo, or the one it started with. */
  lemma {:induction false} LastResponseIsTrue(run: BusRun, n: nat, s: nat)
    requires IsRun(run) && s < Servos(run) && n <= |run.inputs|
    ensures || run.states[n].servos[s].lastResponse == run.states[0].servos[s].lastResponse
            || exists k :: 0 <= k < n && RepliedAt(run, k, s)
                        && run.inputs[k].now == run.states[n].servos[s].lastResponse
    decreases n
  {
    if n > 0 {
      LastResponseIsTrue(run, n - 1, s);
      StillServes(run, n - 1);
      assert StepAt(run, n - 1);
      ConfigsStay(run, n - 1, s);
      CycleKeepsTime(run.states[n - 1], run.inputs[n - 1], s);
      AfterPollKeepsTime(run.states[n - 1], run.inputs[n - 1], s);
      if run.states[n].servos[s].lastResponse != run.states[n - 1].servos[s].lastResponse {
        assert RepliedAt(run, n - 1, s);
      }
    }
  }

  /** Nothing servo `s` did, nor its start, is within its feedback timeout at cycle `j`. */
  predicate SilentAt(run: BusRun, j: nat, s: nat)
    requires IsRun(run) && s < Servos(run) && j < |run.inputs|
  {
    var limit := run.inputs[j].now - run.states[0].servos[s].config.feedbackTimeout * 1_000_000;
    && run.states[0].startedAt < limit && run.states[0].servos[s].lastResponse < limit
    && forall k :: 0 <= k <= j && RepliedAt(run, k, s) ==> run.inputs[k].now < limit
  }

  /** In every run, a servo found silent in the cycle after its turn has latched the fault by the end of that round. */
  lemma SilentServoIsLatched(run: BusRun, i: nat, s: nat)
    requires IsRun(run) && s < Servos(run) && i + Servos(run) < |run.inputs|
    requires SilentAt(run, TurnOf(i, s, Servos(run)) + 1, s)
    ensures run.states[i + Servos(run) + 1].latched
  {
    var j := TurnOf(i, s, Servos(run)) + 1;
    if !run.states[i + Servos(run) + 1].latched {
      SilenceIsNoticed(run, i, s);
      UnlatchedBefore(run, j, i + Servos(run) + 1);
      LastResponseIsTrue(run, j, s);
      ConfigsStay(run, j, s);
      AfterPollKeepsTime(run.states[j], run.inputs[j], s);
    }
  }

  // ----- A command is held until it expires -------------------------------

  /** A command once read and no longer held has timed out. */
  predicate TimeoutFits(rt: Runtime) {
    rt.timedOut <==> rt.consumed > 0 && !rt.hasCommand
  }

  /** From `rt` to `rt'` a command in time is neither lost nor overlooked. */
  predicate Holds(rt: Runtime, rt': Runtime, log: seq<Command>, now: int) {
    && rt'.config == rt.config && rt.consumed <= rt'.consumed <= |log|
    && (rt'.consumed > 0 && (rt.hasCommand || rt.consumed < rt'.consumed) ==>
          InTime(rt.config, log[rt'.consumed - 1], now) ==> rt'.hasCommand)
  }

  lemma RefreshHolds(rt: Runtime, read: Option<Staged>, now: int, log: seq<Command>)
    requires RuntimeFits(rt, log) && TimeoutFits(rt) && ReadFits(read, rt.consumed, log)
    ensures var r := Refresh(rt, read, now);
            && TimeoutFits(r) && Holds(rt, r, log, now)
            && (r.hasCommand ==> r.consumed > 0 && InTime(r.config, log[r.consumed - 1], now))
            && r.consumed == if read.Some? then read.value.publication else rt.consumed
  {
  }

  /** Polling refreshes the command and otherwise leaves it alone. */
  lemma PollHolds(rt: Runtime, startedAt: int, input: Input, log: seq<Command>)
    requires rt.config.maximumUnits > 0
    requires RuntimeFits(rt, log) && TimeoutFits(rt) && ReadFits(input.pollRead, rt.consumed, log)
    ensures var r := PollServo(rt, startedAt, input).rt;
            TimeoutFits(r) && Holds(rt, r, log, input.now)
  {
    RefreshHolds(rt, input.pollRead, input.now, log);
  }

  lemma AskHolds(rt: Runtime, input: Input, log: seq<Command>)
    requires RuntimeFits(rt, log) && TimeoutFits(rt) && ReadFits(input.dispatchRead, rt.consumed, log)
    ensures var r := AskServo(rt, input).rt;
            TimeoutFits(r) && Holds(rt, r, log, input.now)
  {
    RefreshHolds(rt, input.dispatchRead, input.now, log);
  }

  lemma HoldsOn(a: Runtime, b: Runtime, c: Runtime, log: seq<Command>, now: int)
    requires Holds(a, b, log, now) && Holds(b, c, log, now) && RuntimeFits(b, log)
    ensures Holds(a, c, log, now)
  {
  }

  lemma ServiceHolds(b: BusState, input: Input, logs: seq<seq<Command>>, s: nat)
    requires BusShape(b) && Serves(b) && !b.latched && BusFits(b, logs) && InputFits(b, input, logs)
    requires AllIncreasing(logs) && s < |logs| && TimeoutFits(b.servos[s])
    ensures var polled := AfterPoll(b, input).servos[s];
            TimeoutFits(polled) && Holds(b.servos[s], polled, logs[s], input.now)
    ensures var r := Service(b, input).bus.servos[s];
            TimeoutFits(r) && Holds(b.servos[s], r, logs[s], input.now)
  {
    var polled := AfterPoll(b, input);
    PollFits(b, input, logs, s);
    if b.dispatched && s == b.pending {
      PollHolds(b.servos[s], b.startedAt, input, logs[s]);
    }
    if !polled.latched && s == NextCursor(polled) {
      AskHolds(polled.servos[s], input, logs[s]);
      HoldsOn(b.servos[s], polled.servos[s], Service(b, input).bus.servos[s], logs[s], input.now);
    }
  }

  lemma CycleHolds(b: BusState, input: Input, logs: seq<seq<Command>>, s: nat)
    requires BusShape(b) && BusFits(b, logs) && InputFits(b, input, logs) && AllIncreasing(logs)
    requires s < |logs| && TimeoutFits(b.servos[s])
    ensures var r := Cycle(b, input).bus.servos[s];
            TimeoutFits(r) && Holds(b.servos[s], r, logs[s], input.now)
  {
    if Serves(b) && !b.latched {
      var counted := b.(cycles := b.cycles + 1);
      assert InputFits(counted, input, logs);
      ServiceHolds(counted, input, logs, s);
    }
  }

  lemma {:induction false} TimeoutsFit(run: BusRun, logs: seq<seq<Command>>, i: nat, s: nat)
    requires IsRun(run) && |logs| == Servos(run) && RunFits(run, logs) && i <= |run.inputs| && s < |logs|
    ensures TimeoutFits(run.states[i].servos[s])
    decreases i
  {
    assert FreshRuntime(run.states[0].servos[s]);
    if i > 0 {
      TimeoutsFit(run, logs, i - 1, s);
      RunKeepsFits(run, logs, i - 1);
      assert StepAt(run, i - 1) && InputFits(run.states[i - 1], run.inputs[i - 1], logs);
      CycleHolds(run.states[i - 1], run.inputs[i - 1], logs, s);
    }
  }

  /**
   In every run, a command that a cycle reads, or finds held, is held after it unless the command is out of time in
   that cycle; and publications are only ever replaced by later ones.
   */
  lemma CommandIsHeldUntilExpiry(run: BusRun, logs: seq<seq<Command>>, i: nat, s: nat)
    requires IsRun(run) && |logs| == Servos(run) && RunFits(run, logs) && i < |run.inputs| && s < |logs|
    ensures var rt, rt' := run.states[i].servos[s], run.states[i + 1].servos[s];
            && rt.consumed <= rt'.consumed <= |logs[s]|
            && (rt'.hasCommand ==> rt'.consumed > 0 && rt'.command == logs[s][rt'.consumed - 1])
            && (rt'.consumed > 0 && (rt.hasCommand || rt.consumed < rt'.consumed) && !rt'.hasCommand ==>
                  !InTime(run.states[0].servos[s].config, logs[s][rt'.consumed - 1], run.inputs[i].now))
  {
    CycleHoldsAt(run, logs, i, s);
    RunKeepsFits(run, logs, i + 1);
    ConfigsStay(run, i, s);
    assert RuntimeFits(run.states[i + 1].servos[s], logs[s]);
  }

  lemma CycleHoldsAt(run: BusRun, logs: seq<seq<Command>>, i: nat, s: nat)
    requires IsRun(run) && |logs| == Servos(run) && RunFits(run, logs) && i < |run.inputs| && s < |logs|
    ensures Holds(run.states[i].servos[s], run.states[i + 1].servos[s], logs[s], run.inputs[i].now)
  {
    TimeoutsFit(run, logs, i, s);
    RunKeepsFits(run, logs, i);
    assert StepAt(run, i) && InputFits(run.states[i], run.inputs[i], logs);
    CycleHolds(run.states[i], run.inputs[i], logs, s);
  }

  /** What the turn of servo `s` in cycle `i` considers: nothing in time was lost on the way to it. */
  lemma ConsideredHolds(run: BusRun, logs: seq<seq<Command>>, i: nat, s: nat)
    requires IsRun(run) && |logs| == Servos(run) && RunFits(run, logs)
    requires i < |run.inputs| && !run.states[i + 1].latched && s == Turn(i, Servos(run))
    ensures var rt := Considered(run, i, s);
            && Holds(run.states[i].servos[s], rt, logs[s], run.inputs[i].now)
            && (rt.hasCommand ==> rt.consumed > 0 && InTime(rt.config, logs[s][rt.consumed - 1], run.inputs[i].now))
            && (run.inputs[i].dispatchRead.Some? ==> rt.consumed == run.inputs[i].dispatchRead.value.publication)
  {
    var b, input := run.states[i], run.inputs[i];
    CycleAsksInTurn(run, i);
    StillServes(run, i);
    assert StepAt(run, i) && InputFits(b, input, logs);
    RunKeepsFits(run, logs, i);
    TimeoutsFit(run, logs, i, s);
    CycleMoves(b, input);
    CycleBuilds(b, input, s);
    PollFits(b, input, logs, s);
    ServiceHolds(b, input, logs, s);
    var polled := AfterPoll(b, input).servos[s];
    RefreshHolds(polled, input.dispatchRead, input.now, logs[s]);
    HoldsOn(b.servos[s], polled, Considered(run, i, s), logs[s], input.now);
  }

  /**
   From the accepted commands to the wire: in its turn, in a cycle without a fault, a servo is written the command of
   the latest publication read, if that is enabled, not stopped, in time, and was not given up before; it is written
   unless its sequence was written before, and nothing else is.
   */
  lemma CommandInTimeIsWritten(run: BusRun, logs: seq<seq<Command>>, i: nat, s: nat)
    requires IsRun(run) && |logs| == Servos(run) && RunFits(run, logs)
    requires i < |run.inputs| && !run.states[i + 1].latched && s == Turn(i, Servos(run))
    requires var rt, read := run.states[i].servos[s], Considered(run, i, s).consumed;
             0 < read <= |logs[s]| && (rt.hasCommand || rt.consumed < read)
    ensures var command := logs[s][Considered(run, i, s).consumed - 1];
            var wanted := command.enabled && !command.emergencyStop
                          && InTime(run.states[0].servos[s].config, command, run.inputs[i].now);
            var before := exists k :: 0 <= k < i && WrittenAt(run, k, s, command.sequence);
            GoalAt(run, i, s) == if wanted && !before then Some(command) else None
  {
    ConsideredHolds(run, logs, i, s);
    ConsideredFits(run, logs, i, s);
    ActiveCommandIsWrittenOnce(run, logs, i, s);
    ConfigsStay(run, i, s);
  }

  // ----- Feedback shows a timeout -----------------------------------------

  /** An error-free reply is shown as valid exactly while the command last read has not timed out. */
  lemma FeedbackShowsExpiry(run: BusRun, logs: seq<seq<Command>>, j: nat, s: nat)
    requires IsRun(run) && |logs| == Servos(run) && RunFits(run, logs) && j < |run.inputs| && s < |logs|
    requires !run.states[j].latched && run.states[j].dispatched && run.states[j].pending == s
    requires Answers(run.states[0].servos[s].config, run.inputs[j].response)
    ensures var rt, now := AfterPoll(run.states[j], run.inputs[j]).servos[s], run.inputs[j].now;
            && rt.consumed <= |logs[s]|
            && (Valid in rt.feedback.flags <==> Timeout !in rt.feedback.flags)
            && (Valid in rt.feedback.flags <==> rt.consumed == 0 || rt.hasCommand)
            && (rt.hasCommand ==> rt.consumed > 0 && InTime(rt.config, logs[s][rt.consumed - 1], now))
  {
    var b, input := run.states[j], run.inputs[j];
    StillServes(run, j);
    RunKeepsFits(run, logs, j);
    TimeoutsFit(run, logs, j, s);
    ConfigsStay(run, j, s);
    assert InputFits(b, input, logs);
    RefreshHolds(b.servos[s], input.pollRead, input.now, logs[s]);
    ReplyIsShown(Refresh(b.servos[s], input.pollRead, input.now), b.startedAt, input);
  }

  lemma ReplyIsShown(rt: Runtime, startedAt: int, input: Input)
    requires rt.config.maximumUnits > 0 && Answers(rt.config, input.response)
    ensures var r := Poll(rt, startedAt, input).rt;
            && (Valid in r.feedback.flags <==> !rt.timedOut) && (Timeout in r.feedback.flags <==> rt.timedOut)
            && r.hasCommand == rt.hasCommand && r.consumed == rt.consumed && r.config == rt.config
  {
  }

  // ----- What feedback shows ----------------------------------------------

  /** The command a feedback names: the one held, the one that timed out, or none. */
  function NamedCommand(rt: Runtime): nat {
    if rt.hasCommand || rt.timedOut then rt.command.sequence else 0
  }

  predicate Moving(rt: Runtime) {
    rt.hasCommand && rt.command.enabled && !rt.command.emergencyStop
  }

  /** A reply is shown with its status, the time it was taken, the command it falls under and exactly these flags. */
  lemma ReplyIsShownInFull(rt: Runtime, startedAt: int, input: Input)
    requires rt.config.maximumUnits > 0 && Replies(rt.config, input.response)
    ensures var held := Refresh(rt, input.pollRead, input.now);
            var shown, packet := PollServo(rt, startedAt, input).rt.feedback, Decode(input.response.bytes).value;
            && (shown.sequence, shown.timestamp) == (rt.feedbackSequence + 1, input.now)
            && (shown.statusError, shown.transport) == (packet.instruction, input.status)
            && shown.commandSequence == NamedCommand(held)
            && (Valid in shown.flags <==> packet.instruction == 0 && !held.timedOut)
            && (Stale in shown.flags <==> packet.instruction != 0 || held.timedOut)
            && (DeviceError in shown.flags <==> packet.instruction != 0)
            && (Timeout in shown.flags <==> held.timedOut)
            && (Disabled in shown.flags <==> !Moving(held))
            && Io !in shown.flags && Protocol !in shown.flags
  {
  }

  /** The flag that names the cause of a failed read or write. */
  function CauseOf(code: Code): Flag {
    if code == CodeTimeout then Timeout
    else if code == CodeProtocol || code == CodeInvalidArgument then Protocol else Io
  }

  /** A response that latches the fault is shown as stale, with its cause, and no longer as valid. */
  lemma FaultIsShown(rt: Runtime, startedAt: int, input: Input)
    requires rt.config.maximumUnits > 0 && PollServo(rt, startedAt, input).latch
    ensures var held := Refresh(rt, input.pollRead, input.now);
            var shown := PollServo(rt, startedAt, input).rt.feedback;
            && (shown.sequence, shown.timestamp) == (rt.feedbackSequence + 1, input.now)
            && shown.transport == input.status
            && shown.commandSequence == (if held.hasCommand then held.command.sequence else 0)
            && shown.flags == rt.feedback.flags - {Valid}
                              + {Stale, FaultOf(input.response)}
  {
    FaultPublishes(rt, startedAt, input);
  }

  function FaultOf(response: Response): Flag {
    match response
    case ReadThrew => Io
    case ReadFailed(code) => CauseOf(code)
    case Received(_) => Protocol
  }

  lemma FaultPublishes(rt: Runtime, startedAt: int, input: Input)
    requires rt.config.maximumUnits > 0 && PollServo(rt, startedAt, input).latch
    ensures PollServo(rt, startedAt, input).rt
            == PublishFailed(Refresh(rt, input.pollRead, input.now), FaultOf(input.response), input)
  {
  }

  /** So is a request that cannot be written. */
  lemma FailedWriteIsShown(rt: Runtime, input: Input)
    requires rt.config.maximumUnits > 0 && input.write != Wrote
    requires var held := Refresh(rt, input.dispatchRead, input.now); SendsGoal(held) ==> held.command.target.Some?
    ensures var held := Refresh(rt, input.dispatchRead, input.now);
            var shown := AskServo(rt, input).rt.feedback;
            && (shown.sequence, shown.timestamp) == (rt.feedbackSequence + 1, input.now)
            && shown.commandSequence == (if held.hasCommand then held.command.sequence else 0)
            && shown.flags == rt.feedback.flags - {Valid}
                              + {Stale, if input.write.WriteThrew? then Io else CauseOf(input.write.code)}
  {
  }
}
