/**
 The supervisor and the axis each compute the target on their own. Here the two
 computations are shown to agree over every run, exactly when the configured
 range can be represented by the drive.
 */
module TargetAgreement {
  import opened Wrappers
  import opened Cia402
  import opened SafetySupervisor
  import opened SafetyRuns

  /** Both ends of the configured range have a device representation. */
  predicate Fits(limits: Limits) {
    DeviceLow(limits.mode) <= ToCounts(limits.minimum, limits.scale)
    && ToCounts(limits.maximum, limits.scale) <= DeviceHigh(limits.mode)
  }

  lemma BetweenIsStageable(limits: Limits, low: real, x: real, high: real)
    requires ValidLimits(limits) && low <= x <= high
    requires DeviceLow(limits.mode) <= ToCounts(low, limits.scale)
    requires ToCounts(high, limits.scale) <= DeviceHigh(limits.mode)
    ensures Stageable(limits, x)
  {
    CountsMonotone(low, x, limits.scale);
    CountsMonotone(x, high, limits.scale);
  }

  lemma CountsMonotone(x: real, y: real, scale: real)
    requires scale > 0.0 && x <= y
    ensures ToCounts(x, scale) <= ToCounts(y, scale)
  {
    var a, b := x * scale, y * scale;
    ScaleMonotone(x, y, scale);
    assert a <= b;
    RoundMonotone(a, b);
  }

  lemma SlewedIsStageable(limits: Limits, last: real, target: real)
    requires ValidLimits(limits) && Fits(limits) && Stageable(limits, last)
    ensures Stageable(limits, SlewedTarget(limits, last, target))
  {
    var next := SlewedTarget(limits, last, target);
    if last <= next {
      BetweenIsStageable(limits, last, next, if last <= limits.maximum then limits.maximum else last);
    } else {
      BetweenIsStageable(limits, if limits.minimum <= last then limits.minimum else last, next, last);
    }
  }

  lemma {:induction false} SlewRunIsStageable(limits: Limits, last: real, target: real, n: nat)
    requires ValidLimits(limits) && Fits(limits) && Stageable(limits, last)
    ensures Stageable(limits, SlewRun(limits, last, target, n))
  {
    if n > 0 {
      SlewRunIsStageable(limits, last, target, n - 1);
      SlewedIsStageable(limits, SlewRun(limits, last, target, n - 1), target);
    }
  }

  /**
   Fitting is exact: it holds if and only if no constant command, started from any
   representable target, ever slews to a target the drive cannot be given.
   */
  lemma FitsIsExact(limits: Limits)
    requires ValidLimits(limits)
    ensures Fits(limits) <==>
            forall last: real, target: real, n: nat ::
              Stageable(limits, last) ==> Stageable(limits, SlewRun(limits, last, target, n))
  {
    if Fits(limits) {
      forall last: real, target: real, n: nat | Stageable(limits, last)
        ensures Stageable(limits, SlewRun(limits, last, target, n))
      {
        SlewRunIsStageable(limits, last, target, n);
      }
    } else {
      var n := UnfitEndIsReached(limits);
      ZeroIsStageable(limits);
    }
  }

  function KnownLast(env: Env, s: State, pdo: Pdo, i: nat): real
    requires i < |s.axes| == |env.configs|
  {
    KnownTarget(s.axes[i], env.configs[i].limits, pdo).lastTarget
  }

  lemma DecideKeepsTarget(options: Options, s: State, assessed: AxisState, requested: AxisRequest,
                          reasons: set<Reason>, triggered: bool, pdo: Pdo, now: int)
    ensures Decide(options, s, assessed, requested, reasons, triggered, pdo, now).state.hasLastTarget
            == assessed.hasLastTarget
  {
  }

  /** What the supervisor remembers as the target, and what it has checked when it enables. */
  lemma SupervisorTarget(env: Env, s: State, bus: Bus, pdos: seq<Pdo>, now: int, i: nat)
    requires ValidEnv(env) && i < |s.axes| == |s.commands| == |env.configs| == |pdos|
    ensures var (s', out) := Evaluate(env, s, bus, pdos, now);
            var limits, actual := env.configs[i].limits, AxisActual(env.configs[i].limits, pdos[i]);
            var slewed := SlewedTarget(limits, KnownLast(env, s, pdos[i], i), s.commands[i].target);
            && s'.axes[i].hasLastTarget
            && (out.requests[i] != Enable ==> s'.axes[i].lastTarget == actual)
            && (out.requests[i] == Enable ==>
                  && s'.axes[i].lastTarget == slewed
                  && pdos[i].modeDisplay == ModeCode(limits.mode)
                  && !(PoweredStatus(pdos[i].statusWord) && MeasuredApart(limits, pdos[i], slewed)))
  {
    var all, out := Assessments(env, s, bus, pdos, now), Evaluate(env, s, bus, pdos, now).1;
    var a := Assess(env, s, bus, pdos[i], now, i);
    assert all[i] == a;
    DecideKeepsTarget(env.options, s, a.state, Requested(s, i), FinalReasons(env, all, i), FinalTrigger(env, all, i),
                      pdos[i], now);
    ActualIsStageable(env.configs[i].limits, pdos[i]);
    if out.requests[i] == Enable {
      EnabledMeansQuiet(env, s, bus, pdos, now, i);
      assert SameGroup(env.configs, i, i) && !Triggers(all)[i];
      NoTriggerMeans(env, s, bus, pdos[i], now, i);
      TooFarMeansStrays(env.configs[i].limits, KnownLast(env, s, pdos[i], i), s.commands[i], pdos[i]);
    }
  }

  lemma NoTriggerMeans(env: Env, s: State, bus: Bus, pdo: Pdo, now: int, i: nat)
    requires i < |s.axes| == |s.commands| == |env.configs|
    requires !Assess(env, s, bus, pdo, now, i).trigger
    ensures pdo.modeDisplay == ModeCode(env.configs[i].limits.mode)
    ensures !Assess(env, s, bus, pdo, now, i).target.tooFar
  {
    assert ModeDiffers !in Assess(env, s, bus, pdo, now, i).reasons;
    assert TooFar !in Assess(env, s, bus, pdo, now, i).reasons;
  }

  /** Both checkers hold the same target, and the drive can be given it. */
  ghost predicate TargetInv(env: Env, r: Robot, i: nat)
    requires Shaped(env, r) && i < |env.configs|
  {
    && r.axes[i].hasLastTarget == r.sup.axes[i].hasLastTarget
    && (r.sup.axes[i].hasLastTarget ==>
          && r.axes[i].lastTarget == r.sup.axes[i].lastTarget
          && Stageable(env.configs[i].limits, r.sup.axes[i].lastTarget))
  }

  /** An enabled axis whose target is representable stages exactly the supervisor's target. */
  lemma AxisFollowsEnable(limits: Limits, memory: AxisMemory, s: State, i: nat, last: real, pdo: Pdo)
    requires ValidLimits(limits) && i < |s.commands|
    requires last == if memory.hasLastTarget then memory.lastTarget else AxisActual(limits, pdo)
    requires var slewed := SlewedTarget(limits, last, s.commands[i].target);
             && Stageable(limits, slewed)
             && !(PoweredStatus(pdo.statusWord) && MeasuredApart(limits, pdo, slewed))
    requires pdo.modeDisplay == ModeCode(limits.mode)
    ensures var outcome := AxisCycle(limits, memory, Outgoing(s, i, Enable), pdo);
            && outcome.request == Enable
            && outcome.memory.lastTarget == SlewedTarget(limits, last, s.commands[i].target)
  {
    RequestFlagsRoundTrip(Enable);
    FollowingErrorActiveOn(pdo.statusWord);
  }

  lemma TargetStep(env: Env, r: Robot, e: Event, i: nat)
    requires ValidEnv(env) && Shaped(env, r) && Drives(env, e) && i < |env.configs|
    requires Fits(env.configs[i].limits) && TargetInv(env, r, i)
    ensures TargetInv(env, Step(env, r, e), i)
    ensures AxisOutput(env, r, e, i).request == SupervisorOutput(env, r, e).requests[i]
  {
    var limits, pdo := env.configs[i].limits, e.pdos[i];
    var last := KnownLast(env, r.sup, pdo, i);
    var request := SupervisorOutput(env, r, e).requests[i];
    assert SupervisorOutput(env, r, e).commands[i] == Outgoing(r.sup, i, request);
    SupervisorTarget(env, r.sup, e.bus, e.pdos, e.now, i);
    AxisObeys(limits, r.axes[i], r.sup, i, request, pdo);
    ActualIsStageable(limits, pdo);
    if request == Enable {
      SlewedIsStageable(limits, last, r.sup.commands[i].target);
      AxisFollowsEnable(limits, r.axes[i], r.sup, i, last, pdo);
    }
  }

  lemma TargetEventStep(env: Env, r: Robot, e: Event, i: nat)
    requires ValidEnv(env) && Shaped(env, r) && i < |env.configs|
    requires Fits(env.configs[i].limits) && TargetInv(env, r, i)
    ensures TargetInv(env, Step(env, r, e), i)
  {
    if Drives(env, e) {
      TargetStep(env, r, e, i);
    } else {
      IdleStep(env, r, e);
    }
  }

  lemma {:induction false} TargetsAlwaysAgree(env: Env, events: seq<Event>, k: nat, i: nat)
    requires ValidEnv(env) && k <= |events| && i < |env.configs| && Fits(env.configs[i].limits)
    ensures TargetInv(env, At(env, events, k), i)
  {
    if k > 0 {
      TargetsAlwaysAgree(env, events, k - 1, i);
      TargetEventStep(env, At(env, events, k - 1), events[k - 1], i);
    }
  }

  /**
   In every cycle of every run, an axis whose range fits carries out the
   supervisor's decision unchanged and remembers the same target.
   */
  lemma CheckersAgree(env: Env, events: seq<Event>, k: nat, i: nat)
    requires ValidEnv(env) && k < |events| && i < |env.configs| && Fits(env.configs[i].limits)
    requires Drives(env, events[k])
    ensures var r := At(env, events, k);
            && AxisOutput(env, r, events[k], i).request == SupervisorOutput(env, r, events[k]).requests[i]
            && AxisOutput(env, r, events[k], i).memory.lastTarget == Step(env, r, events[k]).sup.axes[i].lastTarget
  {
    TargetsAlwaysAgree(env, events, k, i);
    TargetStep(env, At(env, events, k), events[k], i);
    SupervisorTarget(env, At(env, events, k).sup, events[k].bus, events[k].pdos, events[k].now, i);
  }

  // ----- Without the fit the agreement breaks ------------------------------

  /** In event `k` of a run the axis carries out the supervisor's request. */
  predicate AgreesAt(env: Env, events: seq<Event>, k: nat, i: nat)
    requires |env.configs| <= MAX_AXES && k < |events| && i < |env.configs| && Drives(env, events[k])
  {
    AxisOutput(env, At(env, events, k), events[k], i).request
    == SupervisorOutput(env, At(env, events, k), events[k]).requests[i]
  }

  ghost predicate AlwaysAgrees(env: Env, i: nat)
    requires |env.configs| <= MAX_AXES && i < |env.configs|
  {
    forall events: seq<Event>, k: nat :: k < |events| && Drives(env, events[k]) ==> AgreesAt(env, events, k, i)
  }

  /** Every axis is asked to go to the same target, by a command stamped 0. */
  function Push(target: real): AxisCommand {
    AxisCommand(0, 0, target, COMMAND_ENABLE, 0)
  }

  function PushAll(count: nat, target: real): Snapshot {
    RawSnapshot(0, 0, count, seq(MAX_AXES, _ => Push(target)))
  }

  const GOOD_BUS := Bus(0, None, true, true, true, true, {}, {})

  /** A drive that stands at zero, ready to switch on: no following error is checked there. */
  function StillPdo(limits: Limits): Pdo {
    Pdo(0x0021, ModeCode(limits.mode), 0, 0, 0, 0, 0, 0, 0)
  }

  function StillPdos(env: Env): (pdos: seq<Pdo>)
    ensures |pdos| == |env.configs|
  {
    seq(|env.configs|, j requires 0 <= j < |env.configs| => StillPdo(env.configs[j].limits))
  }

  function PushCycle(env: Env): (e: Event)
    ensures Drives(env, e)
  {
    Cycle(GOOD_BUS, StillPdos(env), 0)
  }

  /** One command, then cycles at constant time. */
  function PushEvents(env: Env, target: real, n: nat): (events: seq<Event>)
    ensures |events| == n + 1 && forall k :: 0 < k <= n ==> events[k] == PushCycle(env)
  {
    [Commands(PushAll(|env.configs|, target), 0)] + seq(n, _ => PushCycle(env))
  }

  ghost predicate TimeoutsAllowZero(env: Env) {
    forall j :: 0 <= j < |env.configs| ==> env.configs[j].commandTimeout >= 0
  }

  /** The command is held and trusted, and no axis has begun to stop. */
  ghost predicate Cruising(env: Env, s: State, target: real) {
    && |s.axes| == |s.commands| == |env.configs|
    && s.hasCommand && s.commandsValid && !s.shutdownRequested && s.lastTimestamp == 0
    && forall j :: 0 <= j < |s.axes| ==> s.axes[j].phase == Running && s.commands[j] == Push(target)
  }

  lemma PushIsAccepted(env: Env, target: real)
    requires ValidEnv(env)
    ensures Cruising(env, Step(env, Start(env), Commands(PushAll(|env.configs|, target), 0)).sup, target)
  {
    RequestFlagsRoundTrip(Enable);
  }

  lemma StillDrive(limits: Limits)
    ensures Decode(StillPdo(limits).statusWord) == ReadyToSwitchOn
    ensures ValidLimits(limits) ==> AxisActual(limits, StillPdo(limits)) == 0.0
  {
  }

  lemma CruisingMayMove(env: Env, s: State, target: real, j: nat)
    requires ValidEnv(env) && TimeoutsAllowZero(env) && Cruising(env, s, target) && j < |env.configs|
    ensures MayMove(env, s, GOOD_BUS, StillPdo(env.configs[j].limits), 0, j) && WantsToMove(s, j)
  {
    RequestFlagsRoundTrip(Enable);
    StillDrive(env.configs[j].limits);
  }

  lemma CruisingEnables(env: Env, r: Robot, target: real, i: nat)
    requires ValidEnv(env) && TimeoutsAllowZero(env) && Shaped(env, r) && Cruising(env, r.sup, target)
    requires i < |env.configs|
    ensures SupervisorOutput(env, r, PushCycle(env)).requests[i] == Enable
  {
    forall j | 0 <= j < |env.configs|
      ensures MayMove(env, r.sup, GOOD_BUS, StillPdos(env)[j], 0, j) && WantsToMove(r.sup, j)
    {
      CruisingMayMove(env, r.sup, target, j);
    }
    EnabledExactlyWhen(env, r, PushCycle(env), i);
  }

  lemma EnableKeepsRunning(options: Options, s: State, assessed: AxisState, requested: AxisRequest,
                           reasons: set<Reason>, triggered: bool, pdo: Pdo, now: int)
    ensures var v := Decide(options, s, assessed, requested, reasons, triggered, pdo, now);
            v.request == Enable ==> v.state.phase == Running
  {
  }

  lemma EnabledStaysRunning(env: Env, s: State, bus: Bus, pdos: seq<Pdo>, now: int, i: nat)
    requires i < |s.axes| == |s.commands| == |env.configs| == |pdos|
    ensures var (s', out) := Evaluate(env, s, bus, pdos, now);
            && (out.requests[i] == Enable ==> s'.axes[i].phase == Running)
            && s'.commands == s.commands && s'.hasCommand == s.hasCommand && s'.commandsValid == s.commandsValid
            && s'.shutdownRequested == s.shutdownRequested && s'.lastTimestamp == s.lastTimestamp
  {
    var a := Assessments(env, s, bus, pdos, now);
    EnableKeepsRunning(env.options, s, a[i].state, Requested(s, i), FinalReasons(env, a, i), FinalTrigger(env, a, i),
                       pdos[i], now);
  }

  lemma CruisingGoesOn(env: Env, r: Robot, target: real)
    requires ValidEnv(env) && TimeoutsAllowZero(env) && Shaped(env, r) && Cruising(env, r.sup, target)
    ensures Cruising(env, Step(env, r, PushCycle(env)).sup, target)
  {
    var r' := Step(env, r, PushCycle(env));
    forall j | 0 <= j < |env.configs|
      ensures r'.sup.axes[j].phase == Running
    {
      CruisingEnables(env, r, target, j);
      EnabledStaysRunning(env, r.sup, GOOD_BUS, StillPdos(env), 0, j);
    }
  }

  /** The target both checkers start the next cycle from, the measured zero if there is none yet. */
  function Held(memory: AxisMemory): real {
    if memory.hasLastTarget then memory.lastTarget else 0.0
  }

  function SupervisorHeld(state: AxisState): real {
    if state.hasLastTarget then state.lastTarget else 0.0
  }

  /** An axis that carries out enable could stage the slewed target, and holds it afterwards. */
  lemma AxisEnableMeans(limits: Limits, memory: AxisMemory, s: State, i: nat)
    requires ValidLimits(limits) && i < |s.commands|
    ensures var outcome := AxisCycle(limits, memory, Outgoing(s, i, Enable), StillPdo(limits));
            var slewed := SlewedTarget(limits, Held(memory), s.commands[i].target);
            && (outcome.request == Enable <==> Stageable(limits, slewed))
            && (outcome.request == Enable ==> Held(outcome.memory) == slewed)
            && (outcome.request != Enable ==> outcome.request == QuickStop)
  {
    RequestFlagsRoundTrip(Enable);
    StillDrive(limits);
  }

  /** One cycle: both move to the slewed target, or the axis cannot stage it and refuses. */
  lemma CruiseStep(env: Env, r: Robot, target: real, i: nat)
    requires ValidEnv(env) && TimeoutsAllowZero(env) && Shaped(env, r) && Cruising(env, r.sup, target)
    requires i < |env.configs|
    requires Held(r.axes[i]) == SupervisorHeld(r.sup.axes[i])
    ensures var e, limits := PushCycle(env), env.configs[i].limits;
            var r', slewed := Step(env, r, e), SlewedTarget(limits, Held(r.axes[i]), target);
            && SupervisorOutput(env, r, e).requests[i] == Enable
            && AxisOutput(env, r, e, i).request == (if Stageable(limits, slewed) then Enable else QuickStop)
            && (Stageable(limits, slewed) ==> Held(r'.axes[i]) == SupervisorHeld(r'.sup.axes[i]) == slewed)
  {
    var limits := env.configs[i].limits;
    CruisingEnables(env, r, target, i);
    SupervisorTarget(env, r.sup, GOOD_BUS, StillPdos(env), 0, i);
    StillDrive(limits);
    AxisEnableMeans(limits, r.axes[i], r.sup, i);
    assert SupervisorOutput(env, r, PushCycle(env)).commands[i] == Outgoing(r.sup, i, Enable);
  }

  /** After `k` cycles without a disagreement both hold the slew run from zero, and it could be staged. */
  ghost predicate InStep(env: Env, r: Robot, target: real, i: nat, k: nat)
    requires Shaped(env, r) && i < |env.configs|
  {
    var reached := SlewRun(env.configs[i].limits, 0.0, target, k);
    Held(r.axes[i]) == SupervisorHeld(r.sup.axes[i]) == reached && Stageable(env.configs[i].limits, reached)
  }

  lemma ZeroIsStageable(limits: Limits)
    requires ValidLimits(limits)
    ensures Stageable(limits, 0.0)
  {
  }

  lemma PushBegins(env: Env, target: real, n: nat, i: nat)
    requires ValidEnv(env) && i < |env.configs|
    ensures var r := At(env, PushEvents(env, target, n), 1);
            Cruising(env, r.sup, target) && InStep(env, r, target, i, 0)
  {
    var events := PushEvents(env, target, n);
    PushIsAccepted(env, target);
    ZeroIsStageable(env.configs[i].limits);
    assert At(env, events, 1) == Step(env, At(env, events, 0), events[0]);
  }

  ghost predicate Pushed(env: Env, r: Robot, target: real, i: nat, k: nat)
    requires i < |env.configs|
  {
    Shaped(env, r) && Cruising(env, r.sup, target) && InStep(env, r, target, i, k)
  }

  /** One push cycle in which supervisor and axis agree. */
  lemma PushStep(env: Env, r: Robot, target: real, i: nat, k: nat)
    requires ValidEnv(env) && TimeoutsAllowZero(env) && Shaped(env, r) && i < |env.configs|
    requires Cruising(env, r.sup, target) && InStep(env, r, target, i, k)
    requires AxisOutput(env, r, PushCycle(env), i).request == SupervisorOutput(env, r, PushCycle(env)).requests[i]
    ensures var r' := Step(env, r, PushCycle(env)); Cruising(env, r'.sup, target) && InStep(env, r', target, i, k + 1)
  {
    CruiseStep(env, r, target, i);
    CruisingGoesOn(env, r, target);
  }

  /** The push goes on from robot `j` to the next. */
  ghost predicate GoesOn(env: Env, robots: seq<Robot>, target: real, i: nat, j: nat)
    requires i < |env.configs| && j + 1 < |robots|
  {
    Pushed(env, robots[j], target, i, j) ==> Pushed(env, robots[j + 1], target, i, j + 1)
  }

  lemma {:induction false} PushRun(env: Env, target: real, robots: seq<Robot>, k: nat, i: nat)
    requires k < |robots| && i < |env.configs| && Pushed(env, robots[0], target, i, 0)
    requires forall j :: 0 <= j < k ==> GoesOn(env, robots, target, i, j)
    ensures Pushed(env, robots[k], target, i, k)
  {
    if k > 0 {
      PushRun(env, target, robots, k - 1, i);
      assert GoesOn(env, robots, target, i, k - 1);
    }
  }

  /** The robots of a push, from the one that has taken the command on. */
  function PushedRobots(env: Env, target: real, n: nat): (robots: seq<Robot>)
    requires |env.configs| <= MAX_AXES
    ensures |robots| == n + 1
    ensures forall j :: 0 <= j <= n ==> robots[j] == At(env, PushEvents(env, target, n), j + 1)
  {
    seq(n + 1, j requires 0 <= j <= n => At(env, PushEvents(env, target, n), j + 1))
  }

  lemma AgreementGoesOn(env: Env, target: real, n: nat, j: nat, i: nat)
    requires ValidEnv(env) && TimeoutsAllowZero(env) && j < n && i < |env.configs|
    requires AgreesAt(env, PushEvents(env, target, n), j + 1, i)
    ensures GoesOn(env, PushedRobots(env, target, n), target, i, j)
  {
    var events := PushEvents(env, target, n);
    var r := At(env, events, j + 1);
    assert At(env, events, j + 2) == Step(env, r, events[j + 1]);
    if Pushed(env, r, target, i, j) {
      PushStep(env, r, target, i, j);
    }
  }

  /** The end of the range that has no representation. */
  function UnfitEnd(limits: Limits): real {
    if ToCounts(limits.maximum, limits.scale) > DeviceHigh(limits.mode) then limits.maximum else limits.minimum
  }

  lemma UnfitEndIsReached(limits: Limits) returns (n: nat)
    requires ValidLimits(limits) && !Fits(limits)
    ensures SlewRun(limits, 0.0, UnfitEnd(limits), n) == UnfitEnd(limits) && !Stageable(limits, UnfitEnd(limits))
  {
    var target := UnfitEnd(limits);
    var cycles := CyclesToCover(DistanceToGoal(limits, 0.0, target), limits.slewLimit);
    n := if cycles < 0 then 0 else cycles;
    ConstantCommandReached(limits, 0.0, target, n);
  }

  lemma PushStaysStageable(env: Env, target: real, n: nat, i: nat)
    requires ValidEnv(env) && TimeoutsAllowZero(env) && i < |env.configs| && AlwaysAgrees(env, i)
    ensures Stageable(env.configs[i].limits, SlewRun(env.configs[i].limits, 0.0, target, n))
  {
    PushBegins(env, target, n, i);
    forall j | 0 <= j < n
      ensures GoesOn(env, PushedRobots(env, target, n), target, i, j)
    {
      assert AgreesAt(env, PushEvents(env, target, n), j + 1, i);
      AgreementGoesOn(env, target, n, j, i);
    }
    PushRun(env, target, PushedRobots(env, target, n), n, i);
  }

  /** An unfit range has a run from the start in which the axis overrides an enable decision. */
  lemma UnfitRangeIsOverridden(env: Env, i: nat)
    requires ValidEnv(env) && TimeoutsAllowZero(env) && i < |env.configs| && !Fits(env.configs[i].limits)
    ensures !AlwaysAgrees(env, i)
  {
    var limits := env.configs[i].limits;
    var n := UnfitEndIsReached(limits);
    if AlwaysAgrees(env, i) {
      PushStaysStageable(env, UnfitEnd(limits), n, i);
      assert false;
    }
  }

  /**
   The two checkers agree in every run if and only if both ends of the configured range have a
   device representation. Command timeouts are those the supervisor accepts: not negative.
   */
  lemma AgreementIsExact(env: Env, i: nat)
    requires ValidEnv(env) && TimeoutsAllowZero(env) && i < |env.configs|
    ensures Fits(env.configs[i].limits) <==> AlwaysAgrees(env, i)
  {
    if Fits(env.configs[i].limits) {
      forall events: seq<Event>, k: nat | k < |events| && Drives(env, events[k])
        ensures AgreesAt(env, events, k, i)
      {
        CheckersAgree(env, events, k, i);
      }
    } else {
      UnfitRangeIsOverridden(env, i);
    }
  }

  /** A torque axis whose maximum does not fit 16 bits. */
  function TorqueEnv(): Env {
    Env(Options(1, 1, 1, 0, 1), [AxisConfig(1, Limits(Cst, 1.0, 0.0, 40000.0, 40000.0, 1.0), 0)])
  }

  /** Such a run, written out: one command and one cycle; enable becomes quick stop, and torque 0 is written. */
  lemma OverriddenTorqueRun()
    ensures var env := TorqueEnv();
            var events := PushEvents(env, 40000.0, 1);
            && ValidEnv(env) && !Fits(env.configs[0].limits)
            && SupervisorOutput(env, At(env, events, 1), events[1]).requests[0] == Enable
            && AxisOutput(env, At(env, events, 1), events[1], 0).request == QuickStop
            && AxisOutput(env, At(env, events, 1), events[1], 0).pdo.targetTorque == 0
  {
    var env, target := TorqueEnv(), 40000.0;
    var events := PushEvents(env, target, 1);
    PushBegins(env, target, 1, 0);
    TorqueStep(At(env, events, 1), target);
  }

  lemma TorqueStep(r: Robot, target: real)
    requires target == 40000.0 && Shaped(TorqueEnv(), r) && Cruising(TorqueEnv(), r.sup, target)
    requires Held(r.axes[0]) == SupervisorHeld(r.sup.axes[0]) == 0.0
    ensures var env, e := TorqueEnv(), PushCycle(TorqueEnv());
            && SupervisorOutput(env, r, e).requests[0] == Enable
            && AxisOutput(env, r, e, 0).request == QuickStop && AxisOutput(env, r, e, 0).pdo.targetTorque == 0
  {
    CruiseStep(TorqueEnv(), r, target, 0);
  }

  // ----- Motion of the agreed target --------------------------------------

  /** While an axis is enabled its target moves by at most the slew limit and only towards its range. */
  lemma EnabledTargetMoves(env: Env, r: Robot, e: Event, i: nat)
    requires ValidEnv(env) && Shaped(env, r) && Drives(env, e) && i < |env.configs|
    requires r.sup.axes[i].hasLastTarget
    requires SupervisorOutput(env, r, e).requests[i] == Enable
    ensures Step(env, r, e).sup.commands == r.sup.commands && Step(env, r, e).sup.axes[i].hasLastTarget
    ensures var limits := env.configs[i].limits;
            var last, next := r.sup.axes[i].lastTarget, Step(env, r, e).sup.axes[i].lastTarget;
            && next == SlewedTarget(limits, last, r.sup.commands[i].target)
            && Abs(next - last) <= limits.slewLimit
            && (limits.minimum <= last <= limits.maximum ==> limits.minimum <= next <= limits.maximum)
            && (last < limits.minimum ==> last < next <= limits.maximum)
            && (last > limits.maximum ==> limits.minimum <= next < last)
  {
    SupervisorTarget(env, r.sup, e.bus, e.pdos, e.now, i);
    SlewStep(env.configs[i].limits, r.sup.axes[i].lastTarget, r.sup.commands[i].target);
  }

  /** One driven cycle that leaves axis `i` enabled. */
  ghost predicate EnabledStep(env: Env, r: Robot, e: Event, next: Robot, i: nat)
    requires i < |env.configs|
  {
    && Shaped(env, r) && Drives(env, e)
    && SupervisorOutput(env, r, e).requests[i] == Enable
    && next == Step(env, r, e)
  }

  /** Cycles from any state during which axis `i` stays enabled; `robots[k]` is the robot before event `k`. */
  ghost predicate EnabledRun(env: Env, robots: seq<Robot>, events: seq<Event>, i: nat)
    requires i < |env.configs|
  {
    && |robots| == |events| + 1
    && (forall k :: 0 <= k < |robots| ==> Shaped(env, robots[k]))
    && (forall k :: 0 <= k < |events| ==> EnabledStep(env, robots[k], events[k], robots[k + 1], i))
    && robots[0].sup.axes[i].hasLastTarget
  }

  /** What an enabled cycle does to the target of axis `i`. */
  ghost predicate TargetFollows(limits: Limits, r: State, next: State, i: nat)
    requires i < |r.axes| == |r.commands| && i < |next.axes|
  {
    r.axes[i].hasLastTarget ==>
      && next.axes[i].hasLastTarget && next.commands == r.commands
      && next.axes[i].lastTarget == SlewedTarget(limits, r.axes[i].lastTarget, r.commands[i].target)
  }

  lemma EnabledStepFollows(env: Env, robots: seq<Robot>, events: seq<Event>, i: nat, k: nat)
    requires ValidEnv(env) && i < |env.configs| && EnabledRun(env, robots, events, i) && k < |events|
    ensures TargetFollows(env.configs[i].limits, robots[k].sup, robots[k + 1].sup, i)
  {
    assert EnabledStep(env, robots[k], events[k], robots[k + 1], i);
    if robots[k].sup.axes[i].hasLastTarget {
      EnabledTargetMoves(env, robots[k], events[k], i);
    }
  }

  /** States of the supervisor in which the target of axis `i` follows its command cycle after cycle. */
  ghost predicate Follows(limits: Limits, states: seq<State>, i: nat) {
    && states != []
    && (forall k :: 0 <= k < |states| ==> i < |states[k].axes| == |states[k].commands|)
    && states[0].axes[i].hasLastTarget
    && forall k :: 0 <= k < |states| - 1 ==> TargetFollows(limits, states[k], states[k + 1], i)
  }

  lemma {:induction false} FollowsSlewRun(limits: Limits, states: seq<State>, i: nat, n: nat)
    requires Follows(limits, states, i) && n < |states|
    ensures states[n].axes[i].hasLastTarget && states[n].commands == states[0].commands
    ensures states[n].axes[i].lastTarget
            == SlewRun(limits, states[0].axes[i].lastTarget, states[0].commands[i].target, n)
    decreases n
  {
    if n > 0 {
      FollowsSlewRun(limits, states, i, n - 1);
      assert TargetFollows(limits, states[n - 1], states[n - 1 + 1], i);
    }
  }

  /** While an axis stays enabled, its target is the slew run of the command it started with. */
  lemma EnabledRunIsSlewRun(env: Env, robots: seq<Robot>, events: seq<Event>, i: nat, n: nat)
    requires ValidEnv(env) && i < |env.configs| && EnabledRun(env, robots, events, i) && n <= |events|
    ensures robots[n].sup.axes[i].hasLastTarget && robots[n].sup.commands == robots[0].sup.commands
    ensures robots[n].sup.axes[i].lastTarget
            == SlewRun(env.configs[i].limits, robots[0].sup.axes[i].lastTarget, robots[0].sup.commands[i].target, n)
  {
    var states := seq(|robots|, k requires 0 <= k < |robots| => robots[k].sup);
    forall k | 0 <= k < |states| - 1
      ensures TargetFollows(env.configs[i].limits, states[k], states[k + 1], i)
    {
      EnabledStepFollows(env, robots, events, i, k);
    }
    FollowsSlewRun(env.configs[i].limits, states, i, n);
  }

  /** An enabled axis is at its clamped command from cycle ceil(distance / slew limit) on, and not before. */
  lemma EnabledRunReachesCommand(env: Env, robots: seq<Robot>, events: seq<Event>, i: nat, n: nat)
    requires ValidEnv(env) && i < |env.configs| && EnabledRun(env, robots, events, i) && n <= |events|
    ensures var limits, target := env.configs[i].limits, robots[0].sup.commands[i].target;
            robots[n].sup.axes[i].lastTarget == Clamp(target, limits.minimum, limits.maximum)
            <==> n >= CyclesToCover(DistanceToGoal(limits, robots[0].sup.axes[i].lastTarget, target), limits.slewLimit)
  {
    EnabledRunIsSlewRun(env, robots, events, i, n);
    ConstantCommandReached(env.configs[i].limits, robots[0].sup.axes[i].lastTarget, robots[0].sup.commands[i].target,
                           n);
  }
}
