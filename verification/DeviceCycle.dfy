/**
 The daemon's device cycle: the supervisor object decides, then every axis object acts on its
 decision. One call is exactly one step of the runs that the safety theorems are about.
 */
module DeviceCycle {
  import opened Wrappers
  import opened Cia402
  import opened SafetySupervisor
  import opened SafetyRuns

  class Controller {
    const supervisor: Supervisor
    const axes: seq<Axis>

    ghost predicate Valid()
      reads this, supervisor
    {
      && supervisor.Valid() && supervisor.configured
      && |axes| == |supervisor.configs|
      && (forall i :: 0 <= i < |axes| ==> axes[i].limits == supervisor.configs[i].limits)
      && forall i, j :: 0 <= i < j < |axes| ==> axes[i] != axes[j] && axes[i].stateMachine != axes[j].stateMachine
    }

    ghost function AxisObjects(): set<object> {
      (set i | 0 <= i < |axes| :: axes[i]) + (set i | 0 <= i < |axes| :: axes[i].stateMachine)
    }

    ghost function Memories(): (m: seq<AxisMemory>)
      reads this, AxisObjects()
      ensures |m| == |axes| && forall i :: 0 <= i < |axes| ==> m[i] == axes[i].Memory()
    {
      seq(|axes|, i requires 0 <= i < |axes| reads AxisObjects() => axes[i].Memory())
    }

    ghost function View(): Robot
      reads this, supervisor, AxisObjects()
    {
      Robot(supervisor.Value(), Memories())
    }

    /** The axes take over the limits the supervisor was configured with. */
    constructor (supervisor: Supervisor, axes: seq<Axis>)
      requires supervisor.Valid() && supervisor.configured && |axes| == |supervisor.configs|
      requires forall i :: 0 <= i < |axes| ==> axes[i].limits == supervisor.configs[i].limits
      requires forall i, j :: 0 <= i < j < |axes| ==> axes[i] != axes[j] && axes[i].stateMachine != axes[j].stateMachine
      ensures Valid() && this.supervisor == supervisor && this.axes == axes
    {
      this.supervisor := supervisor;
      this.axes := axes;
    }

    /** Give every axis its decided command. */
    method CycleAxes(commands: seq<AxisCommand>, pdos: seq<Pdo>) returns (written: seq<Pdo>,
                                                                          feedback: seq<AxisFeedback>)
      requires Valid() && |commands| == |pdos| == |axes|
      modifies AxisObjects()
      ensures |written| == |feedback| == |axes|
      ensures forall i :: 0 <= i < |axes| ==>
                var outcome := AxisCycle(axes[i].limits, old(Memories())[i], commands[i], pdos[i]);
                axes[i].Memory() == outcome.memory && written[i] == outcome.pdo && feedback[i] == outcome.feedback
    {
      written, feedback := [], [];
      for i := 0 to |axes|
        invariant |written| == |feedback| == i
        invariant forall k :: i <= k < |axes| ==> axes[k].Memory() == old(Memories())[k]
        invariant forall k :: 0 <= k < i ==>
                    var outcome := AxisCycle(axes[k].limits, old(Memories())[k], commands[k], pdos[k]);
                    axes[k].Memory() == outcome.memory && written[k] == outcome.pdo && feedback[k] == outcome.feedback
      {
        assert axes[i] in AxisObjects() && axes[i].stateMachine in AxisObjects();
        var pdo, value := axes[i].Cycle(commands[i], pdos[i]);
        written, feedback := written + [pdo], feedback + [value];
      }
    }

    /** Take over a staged snapshot and a stop request. */
    method TakeInputs(staged: Option<Snapshot>, at: int, stopRequested: bool)
      requires Valid()
      modifies supervisor
      ensures Valid() && supervisor.Environment() == old(supervisor.Environment())
      ensures View() == Inputs(old(supervisor.Environment()), old(View()), staged, at, stopRequested)
    {
      if staged.Some? {
        var acceptance := supervisor.AcceptCommands(staged.value, at);
      }
      if stopRequested {
        supervisor.RequestShutdown();
      }
      assert Memories() == old(Memories());
    }

    /** Let the supervisor decide and the axes act. */
    method Drive(bus: Bus, pdos: seq<Pdo>, now: int) returns (outcome: CycleOutcome)
      requires Valid() && |pdos| == |axes|
      modifies supervisor, AxisObjects()
      ensures Valid() && supervisor.Environment() == old(supervisor.Environment())
      ensures DrivenAs(supervisor.Environment(), old(View()), Cycle(bus, pdos, now), View(), outcome)
    {
      ghost var env, r, e := supervisor.Environment(), View(), Cycle(bus, pdos, now);
      var output := supervisor.EvaluateCycle(bus, pdos, now);
      assert Memories() == r.axes;
      var written, feedback := CycleAxes(output.commands, pdos);
      var stamped := Stamp(feedback, supervisor.lastSequence, now);
      outcome := CycleOutcome(written, stamped, output.reasons, output.requests, output.shutdownComplete);
      DrivenByParts(env, r, e, supervisor.Value(), output, Memories(), written, feedback);
    }

    /**
     Inputs, then one cycle. A daemon that is not running, or a cycle without one PDO per axis,
     takes no input, writes nothing and publishes nothing.
     */
    method ProcessDeviceCycle(
      running: bool, staged: Option<Snapshot>, at: int, stopRequested: bool, bus: Bus, pdos: seq<Pdo>, now: int)
      returns (outcome: Option<CycleOutcome>)
      requires Valid()
      modifies supervisor, AxisObjects()
      ensures Valid() && supervisor.Environment() == old(supervisor.Environment())
      ensures outcome.Some? <==> running && |pdos| == |axes|
      ensures outcome.None? ==> View() == old(View())
      ensures outcome.Some? ==>
                var env := supervisor.Environment();
                DrivenAs(env, Inputs(env, old(View()), staged, at, stopRequested), Cycle(bus, pdos, now),
                         View(), outcome.value)
    {
      if !running || |pdos| != |axes| {
        return None;
      }
      TakeInputs(staged, at, stopRequested);
      var driven := Drive(bus, pdos, now);
      return Some(driven);
    }
  }

  /** What a cycle writes to the bus and publishes. */
  datatype CycleOutcome = CycleOutcome(
    written: seq<Pdo>,
    feedback: seq<AxisFeedback>,
    reasons: seq<set<Reason>>,
    requests: seq<AxisRequest>,
    shutdownComplete: bool)

  /** Published feedback carries the accepted sequence and the time of the cycle. */
  function Stamp(feedback: seq<AxisFeedback>, sequence: nat, now: int): (r: seq<AxisFeedback>)
    ensures |r| == |feedback|
    ensures forall i :: 0 <= i < |r| ==> r[i] == feedback[i].(sequence := sequence, timestamp := now)
  {
    seq(|feedback|, i requires 0 <= i < |feedback| => feedback[i].(sequence := sequence, timestamp := now))
  }

  /** The driven cycle `e` took `r` to `r'` with this outcome. */
  ghost predicate DrivenAs(env: Env, r: Robot, e: Event, r': Robot, outcome: CycleOutcome)
    requires Shaped(env, r) && Drives(env, e)
  {
    var decided := SupervisorOutput(env, r, e);
    && r' == Step(env, r, e)
    && |outcome.written| == |outcome.feedback| == |env.configs|
    && (forall i :: 0 <= i < |env.configs| ==>
          && outcome.written[i] == AxisOutput(env, r, e, i).pdo
          && outcome.feedback[i] == AxisOutput(env, r, e, i).feedback.(sequence := r'.sup.lastSequence,
                                                                       timestamp := e.now))
    && outcome.reasons == decided.reasons && outcome.requests == decided.requests
    && outcome.shutdownComplete == decided.shutdownComplete
  }

  /** Evaluation and axis cycles, put together, are one driven step. */
  lemma DrivenByParts(env: Env, r: Robot, e: Event, sup: State, output: Evaluation,
                      memories: seq<AxisMemory>, written: seq<Pdo>, feedback: seq<AxisFeedback>)
    requires Shaped(env, r) && Drives(env, e)
    requires (sup, output) == Evaluate(env, r.sup, e.bus, e.pdos, e.now)
    requires |memories| == |written| == |feedback| == |env.configs|
    requires forall i :: 0 <= i < |env.configs| ==>
               AxisCycle(env.configs[i].limits, r.axes[i], output.commands[i], e.pdos[i]).(request := Disable)
               == AxisOutcome(memories[i], written[i], Disable, feedback[i])
    ensures DrivenAs(env, r, e, Robot(sup, memories),
                     CycleOutcome(written, Stamp(feedback, sup.lastSequence, e.now), output.reasons, output.requests,
                                  output.shutdownComplete))
  {
    forall i | 0 <= i < |env.configs|
      ensures AxisOutput(env, r, e, i).memory == memories[i]
      ensures AxisOutput(env, r, e, i).pdo == written[i] && AxisOutput(env, r, e, i).feedback == feedback[i]
    {
      assert AxisCycle(env.configs[i].limits, r.axes[i], output.commands[i], e.pdos[i]) == AxisOutput(env, r, e, i);
    }
    assert Step(env, r, e).axes == memories;
  }

  /** The robot once the cycle has taken over its inputs. */
  function Inputs(env: Env, r: Robot, staged: Option<Snapshot>, at: int, stopRequested: bool): (r': Robot)
    requires Shaped(env, r)
    ensures Shaped(env, r')
  {
    var r := if staged.Some? then Step(env, r, Commands(staged.value, at)) else r;
    if stopRequested then Step(env, r, ShutdownRequest) else r
  }
}
