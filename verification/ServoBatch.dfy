/**
 Staging servo commands: any number of batch stagers (one command for every servo) and
 single-servo stagers race for the per-servo gates. One atomic operation is one step.
 */
module ServoBatch {
  import opened Wrappers

  // ----- One servo --------------------------------------------------------

  datatype Acceptance = Accepted | Duplicate | Rejected

  /** `target` is None for a value that is not finite. */
  datatype Command = Command(
    sequence: nat,
    timestamp: int,
    target: Option<real>,
    enabled: bool,
    emergencyStop: bool,
    reserved: seq<nat>)

  datatype Config = Config(commandTimeout: int, maximumFuture: int)

  /** The k-th commit of a servo is its publication k + 1. */
  datatype Commit = Commit(command: Command, now: int, thread: nat)

  /** `last` is what has_command, last_command and its copied sequence and timestamp say. */
  datatype Servo = Servo(held: bool, last: Option<Command>, log: seq<Commit>)

  predicate WellFormed(command: Command) {
    && command.timestamp >= 0
    && command.target.Some?
    && forall i :: 0 <= i < |command.reserved| ==> command.reserved[i] == 0
  }

  predicate Timely(config: Config, command: Command, now: int) {
    config.commandTimeout > 0 ==>
      command.timestamp <= now + config.maximumFuture && now - command.timestamp <= config.commandTimeout
  }

  function Inspect(config: Config, last: Option<Command>, command: Command, now: int): Acceptance {
    if !WellFormed(command) || !Timely(config, command, now) then Rejected
    else if last.Some? && (command.sequence < last.value.sequence || command.timestamp < last.value.timestamp)
    then Rejected
    else if last.Some? && command.sequence == last.value.sequence then
      (if command == last.value then Duplicate else Rejected)
    else Accepted
  }

  /** A finite, unreserved command, not from before time zero, neither too old nor too far ahead at `now`. */
  predicate Sound(config: Config, command: Command, now: int) {
    && command.target.Some? && command.timestamp >= 0
    && (forall i :: 0 <= i < |command.reserved| ==> command.reserved[i] == 0)
    && (config.commandTimeout <= 0
        || now - config.commandTimeout <= command.timestamp <= now + config.maximumFuture)
  }

  predicate IsNewer(config: Config, last: Option<Command>, command: Command, now: int) {
    && Sound(config, command, now)
    && (last.Some? ==> command.sequence > last.value.sequence && command.timestamp >= last.value.timestamp)
  }

  predicate IsRepeated(config: Config, last: Option<Command>, command: Command, now: int) {
    Sound(config, command, now) && last == Some(command)
  }

  /**
   The verdict of one servo from the fields alone: accepted exactly for a sound command with a larger sequence and no
   earlier timestamp than the one held, duplicate exactly for a sound repetition of the one held.
   */
  lemma InspectionIsExact(config: Config, last: Option<Command>, command: Command, now: int)
    ensures Inspect(config, last, command, now) == Accepted <==> IsNewer(config, last, command, now)
    ensures Inspect(config, last, command, now) == Duplicate <==> IsRepeated(config, last, command, now)
  {
    assert Sound(config, command, now) <==> WellFormed(command) && Timely(config, command, now);
  }

  // ----- Requests and threads ---------------------------------------------

  datatype Snapshot = Snapshot(sequence: nat, timestamp: int, axes: seq<Command>)

  /** A single request runs the batch's steps over a range of one servo. */
  datatype Request =
    | Batch(snapshot: Snapshot, now: int)
    | Single(servo: nat, command: Command, now: int)

  datatype Phase =
    | Locking(k: nat)
    | RollingBack(k: nat, locked: nat)
    | Inspecting(k: nat, first: Acceptance, uniform: bool)
    | Committing(k: nat)
    | Unlocking(k: nat, result: Acceptance)
    | Done(result: Acceptance)

  datatype Thread = Thread(request: Request, phase: Phase)

  datatype State = State(configs: seq<Config>, servos: seq<Servo>, threads: seq<Thread>)

  function Low(request: Request): nat {
    if request.Batch? then 0 else request.servo
  }

  function High(request: Request): nat {
    if request.Batch? then |request.snapshot.axes| else request.servo + 1
  }

  function CommandFor(request: Request, s: nat): Command
    requires Low(request) <= s < High(request)
  {
    if request.Batch? then request.snapshot.axes[s] else request.command
  }

  /** The checks made before any gate is touched. */
  predicate Admissible(request: Request, servos: nat) {
    match request
    case Batch(snapshot, now) =>
      && |snapshot.axes| == servos > 0
      && 0 <= snapshot.timestamp <= now
      && forall i :: 0 <= i < servos ==>
           snapshot.axes[i].sequence == snapshot.sequence && snapshot.axes[i].timestamp == snapshot.timestamp
    case Single(servo, _, _) => servo < servos
  }

  // ----- Steps ------------------------------------------------------------

  /** What one step does to the servo at the thread's position, and where the thread goes. */
  datatype Turn = Turn(servo: Servo, phase: Phase)

  predicate Running(phase: Phase) {
    !phase.Done?
  }

  predicate PhaseInRange(request: Request, phase: Phase) {
    var low, high := Low(request), High(request);
    && low < high
    && (Running(phase) ==> low <= phase.k < high)
    && (phase.RollingBack? ==> phase.k < phase.locked < high)
  }

  function Act(config: Config, servo: Servo, t: nat, request: Request, phase: Phase): (turn: Turn)
    requires PhaseInRange(request, phase) && Running(phase)
    ensures PhaseInRange(request, turn.phase)
  {
    var low, high, k := Low(request), High(request), phase.k;
    match phase
    case Locking(_) =>
      if servo.held then Turn(servo, if k == low then Done(Rejected) else RollingBack(low, k))
      else Turn(servo.(held := true), if k + 1 < high then Locking(k + 1) else Inspecting(low, Rejected, false))
    case RollingBack(_, locked) =>
      Turn(servo.(held := false), if k + 1 < locked then RollingBack(k + 1, locked) else Done(Rejected))
    case Inspecting(_, first0, uniform0) =>
      var a := Inspect(config, servo.last, CommandFor(request, k), request.now);
      var first := if k == low then a else first0;
      var uniform := if k == low then a != Rejected else uniform0 && a == first;
      Turn(servo,
           if k + 1 < high then Inspecting(k + 1, first, uniform)
           else if uniform && first == Accepted then Committing(low)
           else Unlocking(low, if uniform then first else Rejected))
    case Committing(_) =>
      var command := CommandFor(request, k);
      Turn(servo.(last := Some(command), log := servo.log + [Commit(command, request.now, t)]),
           if k + 1 < high then Committing(k + 1) else Unlocking(low, Accepted))
    case Unlocking(_, result) =>
      Turn(servo.(held := false), if k + 1 < high then Unlocking(k + 1, result) else Done(result))
  }

  datatype Action = Begin(request: Request) | Step(thread: nat)

  predicate Shape(st: State) {
    && |st.configs| == |st.servos|
    && forall t :: 0 <= t < |st.threads| ==> ThreadShape(st.threads[t], |st.servos|)
  }

  predicate ThreadShape(thread: Thread, servos: nat) {
    if Admissible(thread.request, servos) then PhaseInRange(thread.request, thread.phase)
    else thread.phase == Done(Rejected)
  }

  function Apply(st: State, action: Action): State
    requires Shape(st)
  {
    match action
    case Begin(request) =>
      var phase := if Admissible(request, |st.servos|) then Locking(Low(request)) else Done(Rejected);
      st.(threads := st.threads + [Thread(request, phase)])
    case Step(t) =>
      if t < |st.threads| && Running(st.threads[t].phase) then
        var thread := st.threads[t];
        var turn := Act(st.configs[thread.phase.k], st.servos[thread.phase.k], t, thread.request, thread.phase);
        st.(servos := st.servos[thread.phase.k := turn.servo],
            threads := st.threads[t := thread.(phase := turn.phase)])
      else st
  }

  function Initial(configs: seq<Config>): State {
    State(configs, seq(|configs|, _ => Servo(false, None, [])), [])
  }

  function Run(configs: seq<Config>, actions: seq<Action>): (st: State)
    ensures Shape(st) && st.configs == configs
  {
    if actions == [] then Initial(configs)
    else Apply(Run(configs, actions[..|actions| - 1]), actions[|actions| - 1])
  }

  // ----- What every run keeps ---------------------------------------------

  predicate Owns(thread: Thread, s: nat) {
    var low, high := Low(thread.request), High(thread.request);
    match thread.phase
    case Locking(k) => low <= s < k
    case RollingBack(k, locked) => k <= s < locked
    case Inspecting(_, _, _) => low <= s < high
    case Committing(_) => low <= s < high
    case Unlocking(k, _) => k <= s < high
    case Done(_) => false
  }

  predicate Owner(st: State, t: nat, s: nat) {
    t < |st.threads| && Owns(st.threads[t], s)
  }

  /** A gate is closed exactly while one thread owns the servo. */
  ghost predicate Gates(st: State) {
    && (forall s :: 0 <= s < |st.servos| && st.servos[s].held ==> exists t: nat :: Owner(st, t, s))
    && (forall t: nat, s: nat :: Owner(st, t, s) ==> s < |st.servos| && st.servos[s].held)
    && (forall t: nat, u: nat, s: nat :: Owner(st, t, s) && Owner(st, u, s) ==> t == u)
  }

  predicate EntryFits(st: State, s: nat, entry: Commit)
    requires s < |st.configs|
  {
    && entry.thread < |st.threads|
    && IsFor(entry, st.threads[entry.thread].request, s)
    && WellFormed(entry.command)
    && Timely(st.configs[s], entry.command, entry.now)
  }

  predicate IsFor(entry: Commit, request: Request, s: nat) {
    && Low(request) <= s < High(request)
    && entry.command == CommandFor(request, s)
    && entry.now == request.now
  }

  /** Sequences of successive commits strictly increase and timestamps never go back. */
  predicate Ordered(log: seq<Commit>) {
    forall i, j :: 0 <= i < j < |log| ==>
      log[i].command.sequence < log[j].command.sequence && log[i].command.timestamp <= log[j].command.timestamp
  }

  predicate LogIs(st: State, s: nat)
    requires s < |st.servos| == |st.configs|
  {
    var servo := st.servos[s];
    && servo.last == (if servo.log == [] then None else Some(servo.log[|servo.log| - 1].command))
    && Ordered(servo.log)
    && forall i :: 0 <= i < |servo.log| ==> EntryFits(st, s, servo.log[i])
  }

  predicate Logs(st: State)
    requires |st.servos| == |st.configs|
  {
    forall s :: 0 <= s < |st.servos| ==> LogIs(st, s)
  }

  predicate Logged(servo: Servo, t: nat) {
    exists i :: 0 <= i < |servo.log| && servo.log[i].thread == t
  }

  predicate Recorded(servo: Servo, command: Command) {
    exists i :: 0 <= i < |servo.log| && servo.log[i].command == command
  }

  /** Thread `t` has committed on exactly the servos `a..b`. */
  predicate CommittedOn(servos: seq<Servo>, t: nat, a: nat, b: nat) {
    forall s :: 0 <= s < |servos| ==> (Logged(servos[s], t) <==> a <= s < b)
  }

  function InspectAt(configs: seq<Config>, servos: seq<Servo>, request: Request, s: nat): Acceptance
    requires s < |servos| == |configs| && Low(request) <= s < High(request)
  {
    Inspect(configs[s], servos[s].last, CommandFor(request, s), request.now)
  }

  predicate AllInspect(configs: seq<Config>, servos: seq<Servo>, request: Request, a: nat, b: nat, answer: Acceptance)
    requires |servos| == |configs| && Low(request) <= a && b <= High(request) <= |servos|
  {
    forall s :: a <= s < b ==> InspectAt(configs, servos, request, s) == answer
  }

  predicate AllRecorded(servos: seq<Servo>, request: Request)
    requires High(request) <= |servos|
  {
    forall s :: Low(request) <= s < High(request) ==> Recorded(servos[s], CommandFor(request, s))
  }

  predicate ThreadIs(configs: seq<Config>, servos: seq<Servo>, t: nat, thread: Thread)
    requires |servos| == |configs| && ThreadShape(thread, |servos|)
  {
    var request := thread.request;
    var low, high := Low(request), High(request);
    if !Admissible(request, |servos|) then CommittedOn(servos, t, 0, 0)
    else
      match thread.phase
      case Locking(_) => CommittedOn(servos, t, 0, 0)
      case RollingBack(_, _) => CommittedOn(servos, t, 0, 0)
      case Inspecting(k, first, uniform) =>
        && CommittedOn(servos, t, 0, 0)
        && (k > low ==>
              && first == InspectAt(configs, servos, request, low)
              && (uniform <==> first != Rejected && AllInspect(configs, servos, request, low, k, first)))
      case Committing(k) =>
        && CommittedOn(servos, t, low, k)
        && AllInspect(configs, servos, request, k, high, Accepted)
      case Unlocking(_, result) => Outcome(servos, t, request, result)
      case Done(result) => Outcome(servos, t, request, result)
  }

  /** Accepted: recorded by this thread on its whole range. Duplicate: already there. Otherwise: nothing written. */
  predicate Outcome(servos: seq<Servo>, t: nat, request: Request, result: Acceptance)
    requires High(request) <= |servos|
  {
    && CommittedOn(servos, t, Low(request), if result == Accepted then High(request) else Low(request))
    && (result == Duplicate ==> AllRecorded(servos, request))
  }

  predicate Threads(st: State)
    requires Shape(st)
  {
    forall t :: 0 <= t < |st.threads| ==> ThreadIs(st.configs, st.servos, t, st.threads[t])
  }

  ghost predicate Inv(st: State) {
    Shape(st) && Gates(st) && Logs(st) && Threads(st)
  }

  // ----- One step keeps the invariant -------------------------------------

  predicate Steps(st: State, t: nat) {
    Shape(st) && t < |st.threads| && Running(st.threads[t].phase)
  }

  lemma NextGates(st: State, t: nat)
    requires Steps(st, t) && Gates(st)
    ensures Gates(Apply(st, Step(t)))
  {
    var st' := Apply(st, Step(t));
    var k := st.threads[t].phase.k;
    forall u: nat, s: nat
      ensures Owner(st', u, s) <==> OwnsAfter(st, st', t, u, s)
    {
      OwnershipMoves(st, t, u, s);
    }
    forall u: nat, s: nat | Owner(st', u, s)
      ensures s < |st'.servos| && st'.servos[s].held
    {
      OwnershipMoves(st, t, u, s);
    }
    forall s | 0 <= s < |st'.servos| && st'.servos[s].held
      ensures exists u: nat :: Owner(st', u, s)
    {
      if s == k && !st.servos[k].held {
        assert Owner(st', t, k);
      } else {
        var u: nat :| Owner(st, u, s);
        assert Owner(st', u, s);
      }
    }
  }

  /** Who owns servo `s` after a step of thread `t`: only the stepping thread can gain or lose the servo it is at. */
  predicate OwnsAfter(st: State, st': State, t: nat, u: nat, s: nat)
    requires Steps(st, t) && |st'.servos| == |st.servos|
  {
    var k := st.threads[t].phase.k;
    if u == t && s == k then st'.servos[k].held && (Owner(st, t, k) || !st.servos[k].held) else Owner(st, u, s)
  }

  lemma OwnershipMoves(st: State, t: nat, u: nat, s: nat)
    requires Steps(st, t) && Gates(st)
    ensures var st', k := Apply(st, Step(t)), st.threads[t].phase.k;
            Owner(st', u, s) <==> OwnsAfter(st, st', t, u, s)
    ensures var st', k := Apply(st, Step(t)), st.threads[t].phase.k;
            st.servos[k].held && !st'.servos[k].held ==> Owner(st, t, k)
  {
    var thread := st.threads[t];
    assert ThreadShape(thread, |st.servos|);
    var k := thread.phase.k;
    assert Owner(st, t, k) <==> Owns(thread, k);
    TurnOwnership(st.configs[k], st.servos[k], t, thread, s);
    var turn := Act(st.configs[k], st.servos[k], t, thread.request, thread.phase);
    assert Apply(st, Step(t)).threads[t] == thread.(phase := turn.phase);
  }

  lemma TurnOwnership(config: Config, servo: Servo, t: nat, thread: Thread, s: nat)
    requires PhaseInRange(thread.request, thread.phase) && Running(thread.phase)
    requires Owns(thread, thread.phase.k) ==> servo.held
    ensures var turn, k := Act(config, servo, t, thread.request, thread.phase), thread.phase.k;
            Owns(thread.(phase := turn.phase), s) <==>
              if s == k then turn.servo.held && (Owns(thread, k) || !servo.held) else Owns(thread, s)
    ensures var turn, k := Act(config, servo, t, thread.request, thread.phase), thread.phase.k;
            servo.held && !turn.servo.held ==> Owns(thread, k)
  {
  }

  lemma AppendOrdered(log: seq<Commit>, entry: Commit)
    requires Ordered(log)
    requires log != [] ==>
               var last := log[|log| - 1].command;
               last.sequence < entry.command.sequence && last.timestamp <= entry.command.timestamp
    ensures Ordered(log + [entry])
  {
  }

  lemma EntriesStillFit(st: State, t: nat, s: nat)
    requires Steps(st, t) && Logs(st) && s < |st.servos|
    ensures var st' := Apply(st, Step(t));
            forall i :: 0 <= i < |st.servos[s].log| ==> EntryFits(st', s, st.servos[s].log[i])
  {
    assert LogIs(st, s);
  }

  lemma AcceptedExtends(config: Config, servo: Servo, entry: Commit)
    requires servo.last == (if servo.log == [] then None else Some(servo.log[|servo.log| - 1].command))
    requires Ordered(servo.log) && Inspect(config, servo.last, entry.command, entry.now) == Accepted
    ensures Ordered(servo.log + [entry]) && WellFormed(entry.command) && Timely(config, entry.command, entry.now)
  {
    AppendOrdered(servo.log, entry);
  }

  lemma CommitEntry(st: State, t: nat)
    requires Steps(st, t) && Threads(st) && st.threads[t].phase.Committing?
    ensures var request, k, st' := st.threads[t].request, st.threads[t].phase.k, Apply(st, Step(t));
            var entry := Commit(CommandFor(request, k), request.now, t);
            && InspectAt(st.configs, st.servos, request, k) == Accepted
            && st'.servos[k] == st.servos[k].(last := Some(entry.command), log := st.servos[k].log + [entry])
  {
    assert ThreadIs(st.configs, st.servos, t, st.threads[t]);
  }

  lemma NextLogOfCommit(st: State, t: nat)
    requires Steps(st, t) && Logs(st) && Threads(st) && st.threads[t].phase.Committing?
    ensures LogIs(Apply(st, Step(t)), st.threads[t].phase.k)
  {
    var request, k := st.threads[t].request, st.threads[t].phase.k;
    var entry := Commit(CommandFor(request, k), request.now, t);
    assert LogIs(st, k);
    CommitEntry(st, t);
    AcceptedExtends(st.configs[k], st.servos[k], entry);
    EntriesStillFit(st, t, k);
    assert EntryFits(Apply(st, Step(t)), k, entry);
  }

  lemma LogUntouched(st: State, t: nat, s: nat)
    requires Steps(st, t) && s < |st.servos|
    requires !(st.threads[t].phase.Committing? && s == st.threads[t].phase.k)
    ensures var st' := Apply(st, Step(t));
            st'.servos[s].log == st.servos[s].log && st'.servos[s].last == st.servos[s].last
  {
  }

  lemma NextLog(st: State, t: nat, s: nat)
    requires Steps(st, t) && Logs(st) && Threads(st) && s < |st.servos|
    ensures LogIs(Apply(st, Step(t)), s)
  {
    var phase := st.threads[t].phase;
    if phase.Committing? && s == phase.k {
      NextLogOfCommit(st, t);
    } else {
      assert LogIs(st, s);
      EntriesStillFit(st, t, s);
      LogUntouched(st, t, s);
    }
  }

  /** A servo that another thread has worked on still shows thread `u` the same. */
  lemma NextOtherThread(st: State, t: nat, u: nat)
    requires Steps(st, t) && Gates(st) && Threads(st) && u < |st.threads| && u != t
    ensures var st' := Apply(st, Step(t)); ThreadIs(st'.configs, st'.servos, u, st'.threads[u])
  {
    var st' := Apply(st, Step(t));
    var thread := st.threads[u];
    assert ThreadIs(st.configs, st.servos, u, thread);
    var k := st.threads[t].phase.k;
    forall s | 0 <= s < |st.servos|
      ensures Logged(st'.servos[s], u) <==> Logged(st.servos[s], u)
      ensures forall command :: Recorded(st.servos[s], command) ==> Recorded(st'.servos[s], command)
      ensures Owns(thread, s) ==> st'.servos[s].last == st.servos[s].last
    {
      OthersSee(st, t, u, s);
    }
    SameView(st.configs, st.servos, st'.servos, u, thread);
  }

  lemma OthersSee(st: State, t: nat, u: nat, s: nat)
    requires Steps(st, t) && Gates(st) && u < |st.threads| && u != t && s < |st.servos|
    ensures var st' := Apply(st, Step(t));
            && (Logged(st'.servos[s], u) <==> Logged(st.servos[s], u))
            && (forall command :: Recorded(st.servos[s], command) ==> Recorded(st'.servos[s], command))
            && (Owns(st.threads[u], s) ==> st'.servos[s].last == st.servos[s].last)
  {
    var thread := st.threads[t];
    var st' := Apply(st, Step(t));
    if s == thread.phase.k && thread.phase.Committing? {
      assert Owner(st, t, s);
      assert Owns(st.threads[u], s) ==> Owner(st, u, s);
      var log, log' := st.servos[s].log, st'.servos[s].log;
      assert log' == log + [log'[|log|]] && log'[|log|].thread == t;
      forall command | Recorded(st.servos[s], command)
        ensures Recorded(st'.servos[s], command)
      {
        var i :| 0 <= i < |log| && log[i].command == command;
        assert log'[i].command == command;
      }
      if Logged(st.servos[s], u) {
        var i :| 0 <= i < |log| && log[i].thread == u;
        assert log'[i].thread == u;
      }
    } else {
      LogUntouched(st, t, s);
    }
  }

  /** ThreadIs depends only on the thread's own entries and on the last command of the servos it owns. */
  lemma SameView(configs: seq<Config>, servos: seq<Servo>, servos': seq<Servo>, u: nat, thread: Thread)
    requires |configs| == |servos| == |servos'| && ThreadShape(thread, |servos|)
    requires ThreadIs(configs, servos, u, thread)
    requires forall s :: 0 <= s < |servos| ==> (Logged(servos'[s], u) <==> Logged(servos[s], u))
    requires forall s, command :: 0 <= s < |servos| && Recorded(servos[s], command) ==> Recorded(servos'[s], command)
    requires forall s :: 0 <= s < |servos| && Owns(thread, s) ==> servos'[s].last == servos[s].last
    ensures ThreadIs(configs, servos', u, thread)
  {
    var request := thread.request;
    if Admissible(request, |servos|) && (thread.phase.Inspecting? || thread.phase.Committing?) {
      forall s | Low(request) <= s < High(request)
        ensures InspectAt(configs, servos', request, s) == InspectAt(configs, servos, request, s)
      {
        assert Owns(thread, s);
      }
    }
  }

  lemma NextOwnThread(st: State, t: nat)
    requires Steps(st, t) && Logs(st) && Threads(st)
    ensures var st' := Apply(st, Step(t)); ThreadIs(st'.configs, st'.servos, t, st'.threads[t])
  {
    var thread := st.threads[t];
    assert ThreadIs(st.configs, st.servos, t, thread);
    var st' := Apply(st, Step(t));
    if thread.phase.Committing? {
      NextCommit(st, t);
    } else {
      var k := thread.phase.k;
      forall s | 0 <= s < |st.servos|
        ensures st'.servos[s].log == st.servos[s].log && st'.servos[s].last == st.servos[s].last
      {
        LogUntouched(st, t, s);
      }
      if thread.phase.Inspecting? {
        assert st'.servos == st.servos;
        NextInspect(st, t);
      } else {
        SameLogs(st.servos, st'.servos, t, thread.request);
      }
    }
  }

  lemma SameLogs(servos: seq<Servo>, servos': seq<Servo>, t: nat, request: Request)
    requires |servos| == |servos'|
    requires forall s :: 0 <= s < |servos| ==> servos'[s].log == servos[s].log
    ensures forall a, b :: CommittedOn(servos, t, a, b) ==> CommittedOn(servos', t, a, b)
    ensures High(request) <= |servos| && AllRecorded(servos, request) ==> AllRecorded(servos', request)
  {
    forall s | 0 <= s < |servos|
      ensures Logged(servos'[s], t) == Logged(servos[s], t)
      ensures forall command :: Recorded(servos[s], command) ==> Recorded(servos'[s], command)
    {
      assert servos'[s].log == servos[s].log;
    }
  }

  lemma InspectOneMore(configs: seq<Config>, servos: seq<Servo>, request: Request, k: nat, answer: Acceptance)
    requires |servos| == |configs| && Low(request) <= k < High(request) <= |servos|
    ensures AllInspect(configs, servos, request, Low(request), k + 1, answer) <==>
              (AllInspect(configs, servos, request, Low(request), k, answer) && InspectAt(configs, servos, request,
                                                                                          k) == answer)
  {
  }

  lemma NextInspect(st: State, t: nat)
    requires Steps(st, t) && Logs(st) && st.threads[t].phase.Inspecting?
    requires ThreadIs(st.configs, st.servos, t, st.threads[t])
    ensures var st' := Apply(st, Step(t)); ThreadIs(st.configs, st.servos, t, st'.threads[t])
  {
    var thread := st.threads[t];
    var phase' := Apply(st, Step(t)).threads[t].phase;
    var request, k := thread.request, thread.phase.k;
    InspectOneMore(st.configs, st.servos, request, k, InspectAt(st.configs, st.servos, request, Low(request)));
    if phase'.Unlocking? && phase'.result == Duplicate {
      forall s | Low(request) <= s < High(request)
        ensures Recorded(st.servos[s], CommandFor(request, s))
      {
        assert InspectAt(st.configs, st.servos, request, s) == Duplicate;
        assert LogIs(st, s);
      }
    }
  }

  lemma NextCommit(st: State, t: nat)
    requires Steps(st, t) && st.threads[t].phase.Committing?
    requires ThreadIs(st.configs, st.servos, t, st.threads[t])
    ensures var st' := Apply(st, Step(t)); ThreadIs(st'.configs, st'.servos, t, st'.threads[t])
  {
    var thread := st.threads[t];
    var request, k := thread.request, thread.phase.k;
    var st' := Apply(st, Step(t));
    var log' := st'.servos[k].log;
    assert log'[|log'| - 1].thread == t;
    assert Logged(st'.servos[k], t);
    forall s | k < s < High(request)
      ensures InspectAt(st'.configs, st'.servos, request, s) == Accepted
    {
      assert InspectAt(st.configs, st.servos, request, s) == Accepted;
    }
  }

  lemma NextBegin(st: State, request: Request)
    requires Inv(st)
    ensures Inv(Apply(st, Begin(request)))
  {
    var st' := Apply(st, Begin(request));
    var n := |st.threads|;
    forall t: nat, s: nat
      ensures Owner(st', t, s) <==> Owner(st, t, s)
    {
    }
    forall s | 0 <= s < |st.servos|
      ensures LogIs(st', s) && !Logged(st.servos[s], n)
    {
      assert LogIs(st, s);
      forall i | 0 <= i < |st.servos[s].log|
        ensures EntryFits(st', s, st.servos[s].log[i])
      {
        assert EntryFits(st, s, st.servos[s].log[i]);
      }
    }
    assert CommittedOn(st'.servos, n, 0, 0);
    forall s | 0 <= s < |st'.servos| && st'.servos[s].held
      ensures exists t: nat :: Owner(st', t, s)
    {
      var t: nat :| Owner(st, t, s);
      assert Owner(st', t, s);
    }
    forall t | 0 <= t < |st'.threads|
      ensures ThreadIs(st'.configs, st'.servos, t, st'.threads[t])
    {
      if t < n {
        assert ThreadIs(st.configs, st.servos, t, st.threads[t]);
      }
    }
  }

  lemma NextStep(st: State, t: nat)
    requires Inv(st) && Steps(st, t)
    ensures Inv(Apply(st, Step(t)))
  {
    var st' := Apply(st, Step(t));
    NextGates(st, t);
    forall s | 0 <= s < |st'.servos|
      ensures LogIs(st', s)
    {
      NextLog(st, t, s);
    }
    forall u | 0 <= u < |st'.threads|
      ensures ThreadIs(st'.configs, st'.servos, u, st'.threads[u])
    {
      if u == t {
        NextOwnThread(st, t);
      } else {
        NextOtherThread(st, t, u);
      }
    }
  }

  lemma {:induction false} RunInv(configs: seq<Config>, actions: seq<Action>)
    ensures Inv(Run(configs, actions))
    decreases |actions|
  {
    if actions != [] {
      var before, action := Run(configs, actions[..|actions| - 1]), actions[|actions| - 1];
      RunInv(configs, actions[..|actions| - 1]);
      match action
      case Begin(request) => NextBegin(before, request);
      case Step(t) => if Steps(before, t) { NextStep(before, t); }
    }
  }

  // ----- Results ----------------------------------------------------------

  /** Thread `t` wrote `command` to the servo exactly once. */
  predicate WrittenOnce(servo: Servo, t: nat, command: Command) {
    exists i :: 0 <= i < |servo.log| && servo.log[i].thread == t && servo.log[i].command == command
             && forall j :: 0 <= j < |servo.log| && j != i ==> servo.log[j].thread != t
  }

  lemma LoggedOnce(st: State, t: nat, s: nat)
    requires Inv(st) && t < |st.threads| && s < |st.servos|
    requires Logged(st.servos[s], t)
    ensures Low(st.threads[t].request) <= s < High(st.threads[t].request)
    ensures WrittenOnce(st.servos[s], t, CommandFor(st.threads[t].request, s))
  {
    assert LogIs(st, s);
    var log := st.servos[s].log;
    var i :| 0 <= i < |log| && log[i].thread == t;
    assert EntryFits(st, s, log[i]);
    forall j | 0 <= j < |log| && j != i
      ensures log[j].thread != t
    {
      assert EntryFits(st, s, log[j]);
    }
  }

  /**
   A finished batch has written each servo's command to that servo exactly once, or has
   written nothing at all; a duplicate answer means every servo had the record already.
   */
  lemma BatchIsAllOrNone(configs: seq<Config>, actions: seq<Action>, t: nat)
    requires var st := Run(configs, actions);
             t < |st.threads| && st.threads[t].request.Batch? && st.threads[t].phase.Done?
    ensures var st := Run(configs, actions);
            var axes, result := st.threads[t].request.snapshot.axes, st.threads[t].phase.result;
            && (result != Rejected ==> |axes| == |st.servos| > 0)
            && (result == Accepted ==> forall s :: 0 <= s < |st.servos| ==> WrittenOnce(st.servos[s], t, axes[s]))
            && (result != Accepted ==> forall s :: 0 <= s < |st.servos| ==> !Logged(st.servos[s], t))
            && (result == Duplicate ==> forall s :: 0 <= s < |st.servos| ==> Recorded(st.servos[s], axes[s]))
  {
    RunInv(configs, actions);
    var st := Run(configs, actions);
    var thread := st.threads[t];
    assert ThreadShape(thread, |st.servos|) && ThreadIs(st.configs, st.servos, t, thread);
    if thread.phase.result == Accepted {
      forall s | 0 <= s < |st.servos|
        ensures WrittenOnce(st.servos[s], t, thread.request.snapshot.axes[s])
      {
        LoggedOnce(st, t, s);
      }
    }
  }

  predicate AllNewer(st: State, request: Request)
    requires |st.servos| == |st.configs| && High(request) <= |st.servos|
  {
    forall s :: Low(request) <= s < High(request) ==>
      IsNewer(st.configs[s], st.servos[s].last, CommandFor(request, s), request.now)
  }

  predicate AllRepeated(st: State, request: Request)
    requires |st.servos| == |st.configs| && High(request) <= |st.servos|
  {
    forall s :: Low(request) <= s < High(request) ==>
      IsRepeated(st.configs[s], st.servos[s].last, CommandFor(request, s), request.now)
  }

  /** What the servos of a request say together, from the fields of the commands. */
  function JointVerdict(st: State, request: Request): Acceptance
    requires |st.servos| == |st.configs| && High(request) <= |st.servos|
  {
    if AllNewer(st, request) then Accepted else if AllRepeated(st, request) then Duplicate else Rejected
  }

  lemma JointMeansInspected(st: State, request: Request)
    requires |st.servos| == |st.configs| && High(request) <= |st.servos|
    ensures AllNewer(st, request) <==>
              AllInspect(st.configs, st.servos, request, Low(request), High(request), Accepted)
    ensures AllRepeated(st, request) <==>
              AllInspect(st.configs, st.servos, request, Low(request), High(request), Duplicate)
  {
    forall s | Low(request) <= s < High(request)
      ensures InspectAt(st.configs, st.servos, request, s) == Accepted <==>
                IsNewer(st.configs[s], st.servos[s].last, CommandFor(request, s), request.now)
      ensures InspectAt(st.configs, st.servos, request, s) == Duplicate <==>
                IsRepeated(st.configs[s], st.servos[s].last, CommandFor(request, s), request.now)
    {
      InspectionIsExact(st.configs[s], st.servos[s].last, CommandFor(request, s), request.now);
    }
  }

  /** Where the last inspection sends a stager. */
  function Verdict(low: nat, answer: Acceptance): Phase {
    if answer == Accepted then Committing(low) else Unlocking(low, answer)
  }

  lemma LastInspection(st: State, t: nat)
    requires Steps(st, t) && ThreadIs(st.configs, st.servos, t, st.threads[t])
    requires st.threads[t].phase.Inspecting? && st.threads[t].phase.k + 1 == High(st.threads[t].request)
    ensures High(st.threads[t].request) <= |st.servos|
    ensures var request := st.threads[t].request;
            Apply(st, Step(t)).threads[t].phase == Verdict(Low(request), JointVerdict(st, request))
  {
    var thread := st.threads[t];
    assert ThreadShape(thread, |st.servos|);
    var first := InspectAt(st.configs, st.servos, thread.request, Low(thread.request));
    InspectOneMore(st.configs, st.servos, thread.request, thread.phase.k, first);
    JointMeansInspected(st, thread.request);
  }

  /**
   Once all gates are held, the verdict is exactly what all the servos say, each answer counting: accepted when every
   servo's command is sound and newer, duplicate when every servo holds it already, rejected otherwise.
   */
  lemma VerdictIsUniform(configs: seq<Config>, actions: seq<Action>, t: nat)
    requires var st := Run(configs, actions);
             && t < |st.threads| && st.threads[t].phase.Inspecting?
             && st.threads[t].phase.k + 1 == High(st.threads[t].request)
    ensures var st, st' := Run(configs, actions), Run(configs, actions + [Step(t)]);
            var request := st.threads[t].request;
            && |st.servos| == |st.configs| && High(request) <= |st.servos|
            && st'.threads[t].phase == Verdict(Low(request), JointVerdict(st, request))
  {
    RunInv(configs, actions);
    assert (actions + [Step(t)])[..|actions|] == actions;
    LastInspection(Run(configs, actions), t);
  }

  /** A stager turns back before inspecting only because another one holds the gate it needs. */
  lemma TurningBackNeedsARival(configs: seq<Config>, actions: seq<Action>, t: nat)
    requires var st := Run(configs, actions);
             t < |st.threads| && st.threads[t].phase.Locking?
    ensures var st, st' := Run(configs, actions), Run(configs, actions + [Step(t)]);
            var phase' := st'.threads[t].phase;
            phase'.Locking? || phase'.Inspecting? || exists u: nat :: u != t && Owner(st, u, st.threads[t].phase.k)
  {
    RunInv(configs, actions);
    var st := Run(configs, actions);
    var k := st.threads[t].phase.k;
    assert ThreadShape(st.threads[t], |st.servos|);
    assert (actions + [Step(t)])[..|actions|] == actions;
    if st.servos[k].held {
      var u: nat :| Owner(st, u, k);
      assert u != t;
    }
  }

  /** While a batch is still writing, it holds every gate: nobody else can write in between. */
  lemma WritingHoldsEveryGate(configs: seq<Config>, actions: seq<Action>, t: nat, u: nat, s: nat)
    requires var st := Run(configs, actions);
             && t < |st.threads| && st.threads[t].request.Batch? && st.threads[t].phase.Committing?
             && u < |st.threads| && u != t && s < |st.servos|
    ensures var st := Run(configs, actions); st.servos[s].held && !Owns(st.threads[u], s)
  {
    RunInv(configs, actions);
    var st := Run(configs, actions);
    assert ThreadShape(st.threads[t], |st.servos|);
    assert Owner(st, t, s);
    assert Owns(st.threads[u], s) <==> Owner(st, u, s);
  }

  /** When every stager has returned, on whatever path, every gate is open. */
  lemma GatesAreReleased(configs: seq<Config>, actions: seq<Action>, s: nat)
    requires var st := Run(configs, actions);
             && s < |st.servos|
             && forall t :: 0 <= t < |st.threads| ==> st.threads[t].phase.Done?
    ensures !Run(configs, actions).servos[s].held
  {
    RunInv(configs, actions);
    var st := Run(configs, actions);
    assert forall t: nat :: !Owner(st, t, s);
  }

  /** On every servo, in every run, commits carry strictly newer sequences, timestamps in order, and were timely. */
  lemma CommitsAreOrdered(configs: seq<Config>, actions: seq<Action>, s: nat, i: nat, j: nat)
    requires s < |Run(configs, actions).servos| && i < j < |Run(configs, actions).servos[s].log|
    ensures var log := Run(configs, actions).servos[s].log;
            && log[i].command.sequence < log[j].command.sequence
            && log[i].command.timestamp <= log[j].command.timestamp
            && s < |configs|
            && Timely(configs[s], log[j].command, log[j].now)
  {
    RunInv(configs, actions);
    var st := Run(configs, actions);
    assert LogIs(st, s);
    assert EntryFits(st, s, st.servos[s].log[j]);
  }

  /** Two accepted batches are written in the same order on every servo: the order of their sequences. */
  lemma BatchesAreSerialised(configs: seq<Config>, actions: seq<Action>, a: nat, b: nat, s: nat, i: nat, j: nat)
    requires var st := Run(configs, actions);
             && a < |st.threads| && b < |st.threads| && a != b && s < |st.servos|
             && st.threads[a].request.Batch? && st.threads[b].request.Batch?
             && i < |st.servos[s].log| && st.servos[s].log[i].thread == a
             && j < |st.servos[s].log| && st.servos[s].log[j].thread == b
    ensures var st := Run(configs, actions);
            i < j <==> st.threads[a].request.snapshot.sequence < st.threads[b].request.snapshot.sequence
  {
    RunInv(configs, actions);
    var st := Run(configs, actions);
    assert LogIs(st, s);
    var log := st.servos[s].log;
    assert EntryFits(st, s, log[i]) && EntryFits(st, s, log[j]);
    assert ThreadShape(st.threads[a], |st.servos|) && ThreadShape(st.threads[b], |st.servos|);
    assert ThreadIs(st.configs, st.servos, a, st.threads[a]) && ThreadIs(st.configs, st.servos, b, st.threads[b]);
    assert Logged(st.servos[s], a) && Logged(st.servos[s], b);
  }

  // ----- Every stager returns ---------------------------------------------

  /** An upper bound on the steps a thread still takes. */
  function Remaining(thread: Thread): (r: int)
    requires PhaseInRange(thread.request, thread.phase)
    ensures r >= 0 && (r == 0 <==> thread.phase.Done?)
  {
    var n := High(thread.request) - Low(thread.request);
    match thread.phase
    case Locking(k) => High(thread.request) - k + 3 * n
    case RollingBack(k, locked) => locked - k
    case Inspecting(k, _, _) => High(thread.request) - k + 2 * n
    case Committing(k) => High(thread.request) - k + n
    case Unlocking(k, _) => High(thread.request) - k
    case Done(_) => 0
  }

  lemma StepIsProgress(config: Config, servo: Servo, t: nat, thread: Thread)
    requires PhaseInRange(thread.request, thread.phase) && Running(thread.phase)
    ensures var turn := Act(config, servo, t, thread.request, thread.phase);
            Remaining(thread.(phase := turn.phase)) < Remaining(thread)
  {
  }

  function StepsOf(t: nat, actions: seq<Action>): nat {
    if actions == [] then 0
    else StepsOf(t, actions[..|actions| - 1]) + (if actions[|actions| - 1] == Step(t) then 1 else 0)
  }

  /** What is left for a thread, 0 for one that has returned. */
  function Left(thread: Thread): (r: int)
    requires !thread.phase.Done? ==> PhaseInRange(thread.request, thread.phase)
    ensures r >= 0 && (r == 0 <==> thread.phase.Done?)
  {
    if thread.phase.Done? then 0 else Remaining(thread)
  }

  lemma ActionIsProgress(st: State, action: Action, t: nat)
    requires Shape(st) && t < |st.threads|
    ensures Shape(Apply(st, action)) && t < |Apply(st, action).threads|
    ensures var thread, thread' := st.threads[t], Apply(st, action).threads[t];
            && thread'.request == thread.request
            && (!thread.phase.Done? ==> PhaseInRange(thread.request, thread.phase))
            && (!thread'.phase.Done? ==> PhaseInRange(thread'.request, thread'.phase))
            && Left(thread') <= Left(thread)
            && (action == Step(t) && Left(thread) > 0 ==> Left(thread') < Left(thread))
  {
    var thread := st.threads[t];
    assert ThreadShape(thread, |st.servos|);
    if action == Step(t) && Running(thread.phase) {
      StepIsProgress(st.configs[thread.phase.k], st.servos[thread.phase.k], t, thread);
    }
  }

  lemma LeftIsBounded(thread: Thread)
    requires !thread.phase.Done? ==> PhaseInRange(thread.request, thread.phase)
    ensures thread.phase.Done? || Left(thread) <= 4 * (High(thread.request) - Low(thread.request))
  {
  }

  lemma LastOfConcat(before: seq<Action>, actions: seq<Action>)
    requires actions != []
    ensures var all := before + actions;
            all[..|all| - 1] == before + actions[..|actions| - 1] && all[|all| - 1] == actions[|actions| - 1]
  {
  }

  lemma RunOfConcat(configs: seq<Config>, before: seq<Action>, actions: seq<Action>)
    requires actions != []
    ensures Run(configs, before + actions)
            == Apply(Run(configs, before + actions[..|actions| - 1]), actions[|actions| - 1])
  {
    LastOfConcat(before, actions);
  }

  lemma {:induction false} StepsUseUpWhatIsLeft(configs: seq<Config>, before: seq<Action>, actions: seq<Action>, t: nat)
    requires t < |Run(configs, before).threads|
    ensures t < |Run(configs, before + actions).threads|
    ensures var start, thread := Run(configs, before).threads[t], Run(configs, before + actions).threads[t];
            && thread.request == start.request
            && (!start.phase.Done? ==> PhaseInRange(start.request, start.phase))
            && (!thread.phase.Done? ==> PhaseInRange(thread.request, thread.phase))
            && (Left(thread) > 0 ==> Left(thread) + StepsOf(t, actions) <= Left(start))
    decreases |actions|
  {
    var st := Run(configs, before);
    assert ThreadShape(st.threads[t], |st.servos|);
    if actions == [] {
      assert before + actions == before;
    } else {
      var earlier, last := actions[..|actions| - 1], actions[|actions| - 1];
      StepsUseUpWhatIsLeft(configs, before, earlier, t);
      RunOfConcat(configs, before, actions);
      ActionIsProgress(Run(configs, before + earlier), last, t);
    }
  }

  /**
   Whatever the others do, a stager that has started returns within four of its own steps
   per servo of its range: it never waits for a gate.
   */
  lemma StagersReturn(configs: seq<Config>, before: seq<Action>, actions: seq<Action>, t: nat)
    requires t < |Run(configs, before).threads|
    ensures t < |Run(configs, before + actions).threads|
    ensures var thread := Run(configs, before + actions).threads[t];
            && thread.request == Run(configs, before).threads[t].request
            && (StepsOf(t, actions) >= 4 * (High(thread.request) - Low(thread.request)) ==> thread.phase.Done?)
  {
    StepsUseUpWhatIsLeft(configs, before, actions, t);
    LeftIsBounded(Run(configs, before).threads[t]);
  }

  // ----- An undisturbed stager gets the answer it deserves -----------------

  /** Thread `t` is on its way to the answer its commands deserve. */
  ghost predicate OnTrack(st: State, t: nat, answer: Acceptance)
    requires Shape(st) && t < |st.threads|
  {
    var request := st.threads[t].request;
    && Admissible(request, |st.servos|)
    && match st.threads[t].phase
       case Locking(k) =>
         JointVerdict(st, request) == answer && forall s :: k <= s < High(request) ==> !st.servos[s].held
       case RollingBack(_, _) => false
       case Inspecting(_, _, _) => JointVerdict(st, request) == answer
       case Committing(_) => answer == Accepted
       case Unlocking(_, result) => result == answer
       case Done(result) => result == answer
  }

  lemma JointVerdictIsOfLast(st: State, st': State, request: Request)
    requires |st.servos| == |st.configs| && High(request) <= |st.servos|
    requires st'.configs == st.configs && |st'.servos| == |st.servos|
    requires forall s :: 0 <= s < |st.servos| ==> st'.servos[s].last == st.servos[s].last
    ensures JointVerdict(st', request) == JointVerdict(st, request)
  {
  }

  lemma LockingStaysOnTrack(st: State, t: nat, answer: Acceptance)
    requires Steps(st, t) && OnTrack(st, t, answer) && st.threads[t].phase.Locking?
    ensures Shape(Apply(st, Step(t))) && OnTrack(Apply(st, Step(t)), t, answer)
  {
    ActionIsProgress(st, Step(t), t);
    JointVerdictIsOfLast(st, Apply(st, Step(t)), st.threads[t].request);
  }

  lemma InspectingStaysOnTrack(st: State, t: nat, answer: Acceptance)
    requires Inv(st) && Steps(st, t) && OnTrack(st, t, answer) && st.threads[t].phase.Inspecting?
    ensures Shape(Apply(st, Step(t))) && OnTrack(Apply(st, Step(t)), t, answer)
  {
    ActionIsProgress(st, Step(t), t);
    JointVerdictIsOfLast(st, Apply(st, Step(t)), st.threads[t].request);
    if st.threads[t].phase.k + 1 == High(st.threads[t].request) {
      LastInspection(st, t);
    }
  }

  lemma StepStaysOnTrack(st: State, t: nat, answer: Acceptance)
    requires Inv(st) && t < |st.threads| && OnTrack(st, t, answer)
    ensures Shape(Apply(st, Step(t))) && t < |Apply(st, Step(t)).threads| && OnTrack(Apply(st, Step(t)), t, answer)
  {
    ActionIsProgress(st, Step(t), t);
    if st.threads[t].phase.Locking? {
      LockingStaysOnTrack(st, t, answer);
    } else if st.threads[t].phase.Inspecting? {
      InspectingStaysOnTrack(st, t, answer);
    }
  }

  function OwnSteps(t: nat, n: nat): (r: seq<Action>)
    ensures |r| == n && forall i :: 0 <= i < n ==> r[i] == Step(t)
  {
    if n == 0 then [] else OwnSteps(t, n - 1) + [Step(t)]
  }

  lemma {:induction false} OwnStepsAreCounted(t: nat, n: nat)
    ensures StepsOf(t, OwnSteps(t, n)) == n
  {
    if n > 0 {
      OwnStepsAreCounted(t, n - 1);
      assert OwnSteps(t, n)[..n - 1] == OwnSteps(t, n - 1);
    }
  }

  lemma {:induction false} OwnStepsStayOnTrack(configs: seq<Config>, before: seq<Action>, t: nat, answer: Acceptance,
                                               n: nat)
    requires t < |Run(configs, before).threads| && OnTrack(Run(configs, before), t, answer)
    ensures t < |Run(configs, before + OwnSteps(t, n)).threads|
    ensures OnTrack(Run(configs, before + OwnSteps(t, n)), t, answer)
  {
    if n == 0 {
      assert before + OwnSteps(t, 0) == before;
    } else {
      OwnStepsStayOnTrack(configs, before, t, answer, n - 1);
      RunInv(configs, before + OwnSteps(t, n - 1));
      RunOfConcat(configs, before, OwnSteps(t, n));
      assert OwnSteps(t, n)[..n - 1] == OwnSteps(t, n - 1);
      StepStaysOnTrack(Run(configs, before + OwnSteps(t, n - 1)), t, answer);
    }
  }

  predicate GatesOpen(st: State, request: Request) {
    forall s :: Low(request) <= s < High(request) ==> s < |st.servos| && !st.servos[s].held
  }

  /**
   After any run that leaves the gates of its servos open, a stager that nobody disturbs returns, within four steps
   per servo, exactly the joint verdict of its commands: accepted when all are sound and newer.
   */
  lemma UndisturbedStagerIsAnswered(configs: seq<Config>, before: seq<Action>, request: Request)
    requires var st := Run(configs, before);
             Admissible(request, |st.servos|) && GatesOpen(st, request)
    ensures var st, n := Run(configs, before), 4 * (High(request) - Low(request));
            var t := |st.threads|;
            var st' := Run(configs, before + [Begin(request)] + OwnSteps(t, n));
            && t < |st'.threads| && High(request) <= |st.servos|
            && st'.threads[t] == Thread(request, Done(JointVerdict(st, request)))
  {
    var st, n, begun := Run(configs, before), 4 * (High(request) - Low(request)), before + [Begin(request)];
    var t, answer := |st.threads|, JointVerdict(st, request);
    RunOfConcat(configs, before, [Begin(request)]);
    assert before + [Begin(request)][..0] == before;
    JointVerdictIsOfLast(st, Run(configs, begun), request);
    OwnStepsStayOnTrack(configs, begun, t, answer, n);
    OwnStepsAreCounted(t, n);
    StagersReturn(configs, begun, OwnSteps(t, n), t);
  }

  /** One sound, newer command per servo, all with the batch's sequence and timestamp, and every gate open. */
  predicate FreshBatch(st: State, snapshot: Snapshot, now: int) {
    && |snapshot.axes| == |st.servos| == |st.configs| > 0 && 0 <= snapshot.timestamp <= now
    && forall s :: 0 <= s < |st.servos| ==>
         && !st.servos[s].held
         && (snapshot.axes[s].sequence, snapshot.axes[s].timestamp) == (snapshot.sequence, snapshot.timestamp)
         && IsNewer(st.configs[s], st.servos[s].last, snapshot.axes[s], now)
  }

  lemma FreshBatchIsAdmissible(st: State, snapshot: Snapshot, now: int)
    requires FreshBatch(st, snapshot, now)
    ensures Admissible(Batch(snapshot, now), |st.servos|) && GatesOpen(st, Batch(snapshot, now))
    ensures JointVerdict(st, Batch(snapshot, now)) == Accepted
  {
    forall s | 0 <= s < |st.servos|
      ensures !st.servos[s].held && IsNewer(st.configs[s], st.servos[s].last, snapshot.axes[s], now)
    {
    }
    assert AllNewer(st, Batch(snapshot, now));
  }

  /** Nobody but the new stager takes a step. */
  function Alone(st: State, before: seq<Action>, request: Request): seq<Action>
    requires Low(request) < High(request)
  {
    before + [Begin(request)] + OwnSteps(|st.threads|, 4 * (High(request) - Low(request)))
  }

  /** In particular a fresh batch is accepted and written to every servo exactly once. */
  lemma UndisturbedBatchIsWritten(configs: seq<Config>, before: seq<Action>, snapshot: Snapshot, now: int)
    requires FreshBatch(Run(configs, before), snapshot, now)
    ensures var st := Run(configs, before);
            var t, st' := |st.threads|, Run(configs, Alone(st, before, Batch(snapshot, now)));
            && t < |st'.threads| && st'.threads[t] == Thread(Batch(snapshot, now), Done(Accepted))
            && |st'.servos| == |snapshot.axes|
            && forall s :: 0 <= s < |st'.servos| ==> WrittenOnce(st'.servos[s], t, snapshot.axes[s])
  {
    var st := Run(configs, before);
    FreshBatchIsAdmissible(st, snapshot, now);
    UndisturbedStagerIsAnswered(configs, before, Batch(snapshot, now));
    BatchIsAllOrNone(configs, Alone(st, before, Batch(snapshot, now)), |st.threads|);
  }

  /**
   Exactly which requests are turned away before any gate is touched: a batch that is not one command per servo, all
   with the batch's own sequence and timestamp, from neither before zero nor the future; a single for no such servo.
   */
  lemma TurnedAwayExactlyWhen(configs: seq<Config>, before: seq<Action>, request: Request)
    ensures var st, st' := Run(configs, before), Run(configs, before + [Begin(request)]);
            var n := |st.servos|;
            && |st'.threads| == |st.threads| + 1 && st'.servos == st.servos
            && (st'.threads[|st.threads|].phase == Done(Rejected) <==>
                  match request
                  case Single(servo, _, _) => servo >= n
                  case Batch(snapshot, now) =>
                    || |snapshot.axes| != n || n == 0 || snapshot.timestamp < 0 || snapshot.timestamp > now
                    || exists i :: 0 <= i < n && (snapshot.axes[i].sequence, snapshot.axes[i].timestamp)
                                                 != (snapshot.sequence, snapshot.timestamp))
  {
    assert (before + [Begin(request)])[..|before|] == before;
  }
}
