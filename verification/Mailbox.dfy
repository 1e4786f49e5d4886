/**
 The life of an EtherCAT mailbox request: enqueue, stage, owner step and close as
 interleaved atomic steps. The request mutex is the `section` field: whoever holds
 it is recorded there. Open, close and reset exclude each other by the lifecycle
 mutex and are the `lifecycle` field. Any number of owner threads may run.
 */
module Mailbox {
  import opened Wrappers

  datatype Phase = Queued | Staged | Active | Terminalizing | Completed | Failed

  predicate Terminal(p: Phase) {
    p == Completed || p == Failed
  }

  datatype Request = Request(generation: nat, phase: Phase)

  /** Who holds the request mutex, and how far it has come. */
  datatype Section =
    | Free
    | EnqueueLocked(gen: nat)
    | EnqueueOpen(gen: nat)
    | EnqueueReady(gen: nat)
    | StageLocked
    | StageOpen(gen: nat)
    | StageParent(gen: nat)
    | StageReady(gen: nat)
    | StagePicked(id: nat)
    | FailScan(gen: nat, todo: set<nat>)
    | FailLook(gen: nat, todo: set<nat>, id: nat, seen: Phase)
    | FailMark(gen: nat, todo: set<nat>, id: nat)
    | StatusLocked(id: nat)
    | StatusLooked(id: nat, seen: Phase)

  datatype Lifecycle =
    | Quiet
    | Opening(gen: nat, forParent: bool, checks: nat)
    | Closing(gen: nat, cancel: bool)
    | Failing(gen: nat, cancel: bool)
    | Closed(gen: nat, cancel: bool)

  /** One owner step in progress; `gen` is the master generation it runs for. */
  datatype Owner =
    | CancelSeen
    | CancelCleared
    | LoadStaged(gen: nat)
    | CheckParent(gen: nat, id: nat)
    | CheckOpen(gen: nat, id: nat)
    | LoadPhase(gen: nat, id: nat)
    | Activate(gen: nat, id: nat)
    | Progress(gen: nat, id: nat)
    | Finish(gen: nat, id: nat, ok: bool)
    | Judge(gen: nat, id: nat, ok: bool)
    | JudgeOpen(gen: nat, id: nat, ok: bool)
    | Store(id: nat, ok: bool)
    | Clear(id: nat)

  datatype Report = ReportQueued | ReportCompleted | ReportFailed

  datatype State = State(
    requests: map<nat, Request>,
    nextId: nat,
    staged: Option<nat>,
    openGen: nat,
    cancelGen: nat,
    parentGen: nat,
    section: Section,
    lifecycle: Lifecycle,
    owners: map<nat, Owner>,
    reports: seq<(nat, Report)>)

  datatype Action =
    | SetParent(gen: nat)
    | EnqueueLock(gen: nat)
    | SectionStep(spurious: bool)
    | StageLock
    | FailNext(id: nat)
    | OwnerBegin(owner: nat, gen: nat)
    | OwnerStep(owner: nat, done: bool, ok: bool)
    | OpenBegin
    | OpenForParent(gen: nat)
    | OpenNext
    | CloseBegin
    | CloseForParent(gen: nat)
    | CloseLock
    | CloseUnlock
    | CloseEnd
    | Reset
    | Status(id: nat)

  const INIT := State(map[], 1, None, 0, 0, 0, Free, Quiet, map[], [])

  function WithPhase(s: State, id: nat, phase: Phase): State {
    if id in s.requests then s.(requests := s.requests[id := s.requests[id].(phase := phase)]) else s
  }

  predicate PhaseIs(s: State, id: nat, phase: Phase) {
    id in s.requests && s.requests[id].phase == phase
  }

  // ----- Steps under the request mutex ------------------------------------

  /** The first queued request of the open generation, in request order. */
  predicate IsCandidate(s: State, gen: nat, id: nat) {
    id in s.requests && s.requests[id].generation == gen && s.requests[id].phase == Queued
  }

  function FirstCandidate(s: State, gen: nat, from: nat): (r: Option<nat>)
    ensures r.Some? ==> IsCandidate(s, gen, r.value)
    decreases s.nextId - from
  {
    if from >= s.nextId then None
    else if IsCandidate(s, gen, from) then Some(from)
    else FirstCandidate(s, gen, from + 1)
  }

  function StepSection(s: State, spurious: bool): State {
    match s.section
    case Free => s
    case EnqueueLocked(gen) => s.(section := if s.openGen == gen then EnqueueOpen(gen) else Free)
    case EnqueueOpen(gen) => s.(section := if s.parentGen == gen then EnqueueReady(gen) else Free)
    case EnqueueReady(gen) =>
      s.(requests := s.requests[s.nextId := Request(gen, Queued)], nextId := s.nextId + 1, section := Free)
    case StageLocked => s.(section := if s.openGen != 0 then StageOpen(s.openGen) else Free)
    case StageOpen(gen) => s.(section := if s.parentGen == gen then StageParent(gen) else Free)
    case StageParent(gen) => s.(section := if s.staged == None then StageReady(gen) else Free)
    case StageReady(gen) =>
      var candidate := FirstCandidate(s, gen, 0);
      if candidate.None? then s.(section := Free)
      else WithPhase(s, candidate.value, Staged).(section := StagePicked(candidate.value))
    case StagePicked(id) =>
      if s.staged == None then s.(staged := Some(id), section := Free)
      else if PhaseIs(s, id, Staged) then WithPhase(s, id, Queued).(section := Free)
      else s.(section := Free)
    case FailScan(gen, todo) => s
    case FailLook(gen, todo, id, seen) =>
      if id !in s.requests then s.(section := FailScan(gen, todo))
      else
        var actual := s.requests[id].phase;
        if seen == Terminalizing then
          // Blocks while the phase is still terminalizing.
          if actual == Terminalizing then s else s.(section := FailLook(gen, todo, id, actual))
        else if seen == Failed then s.(section := FailScan(gen, todo))
        else if actual == seen && !spurious then
          WithPhase(s, id, Terminalizing).(section := FailMark(gen, todo, id))
        else s.(section := FailLook(gen, todo, id, actual))
    case FailMark(gen, todo, id) =>
      WithPhase(s, id, Failed).(section := FailScan(gen, todo))
    case StatusLocked(id) =>
      s.(section := if id in s.requests then StatusLooked(id, s.requests[id].phase) else Free)
    case StatusLooked(id, seen) =>
      if id !in s.requests then s.(section := Free)
      else
        s.(reports := s.reports + [(id, ReportFor(seen, s.openGen, s.requests[id].generation))], section := Free)
  }

  /** What a status reports that saw this phase first and this open generation after it. */
  function ReportFor(seen: Phase, openGen: nat, generation: nat): Report {
    if seen == Completed then ReportCompleted
    else if seen == Failed || (seen == Terminalizing && openGen != generation) then ReportFailed
    else ReportQueued
  }

  /** Enter `fail_request` for one request: the first load already excludes finished requests. */
  function FailNextStep(s: State, id: nat): State {
    if s.section.FailScan? && id in s.section.todo then
      var rest := s.section.todo - {id};
      if id !in s.requests || Terminal(s.requests[id].phase) then s.(section := FailScan(s.section.gen, rest))
      else s.(section := FailLook(s.section.gen, rest, id, s.requests[id].phase))
    else s
  }

  // ----- Owner steps ------------------------------------------------------

  function Ends(s: State, t: nat): State {
    s.(owners := s.owners - {t})
  }

  function Moves(s: State, t: nat, owner: Owner): State {
    s.(owners := s.owners[t := owner])
  }

  function StepOwner(s: State, t: nat, done: bool, ok: bool): State
    requires t in s.owners
  {
    match s.owners[t]
    case CancelSeen =>
      if done && ok then Moves(s.(staged := None), t, CancelCleared) else Ends(s, t)
    case CancelCleared => Ends(s.(cancelGen := 0), t)
    case LoadStaged(gen) =>
      if s.staged.None? then Ends(s, t)
      else if s.staged.value in s.requests && s.requests[s.staged.value].generation == gen
      then Moves(s, t, CheckParent(gen, s.staged.value)) else Ends(s, t)
    case CheckParent(gen, id) => if s.parentGen == gen then Moves(s, t, CheckOpen(gen, id)) else Ends(s, t)
    case CheckOpen(gen, id) => if s.openGen == gen then Moves(s, t, LoadPhase(gen, id)) else Ends(s, t)
    case LoadPhase(gen, id) =>
      if PhaseIs(s, id, Staged) then Moves(s, t, Activate(gen, id))
      else if PhaseIs(s, id, Active) then Moves(s, t, Progress(gen, id))
      else Ends(s, t)
    case Activate(gen, id) =>
      if PhaseIs(s, id, Staged) then Moves(WithPhase(s, id, Active), t, Progress(gen, id)) else Ends(s, t)
    case Progress(gen, id) => if done then Moves(s, t, Finish(gen, id, ok)) else Ends(s, t)
    case Finish(gen, id, good) =>
      if PhaseIs(s, id, Active) then Moves(WithPhase(s, id, Terminalizing), t, Judge(gen, id, good)) else Ends(s, t)
    case Judge(gen, id, good) =>
      Moves(s, t, if s.parentGen == gen then JudgeOpen(gen, id, good) else Store(id, false))
    case JudgeOpen(gen, id, good) => Moves(s, t, Store(id, good && s.openGen == gen))
    case Store(id, good) => Moves(WithPhase(s, id, if good then Completed else Failed), t, Clear(id))
    case Clear(id) => Ends(if s.staged == Some(id) then s.(staged := None) else s, t)
  }

  // ----- Lifecycle steps --------------------------------------------------

  /** The checks of an open in their order; the store comes after the last one. */
  const OPEN_CHECKS: nat := 4

  predicate PassesOpenCheck(s: State, gen: nat, forParent: bool, check: nat) {
    match check
    case 0 => s.openGen == 0
    case 1 => s.cancelGen == 0
    case 2 => s.staged == None
    case _ => forParent || s.parentGen == gen
  }

  function OfGeneration(s: State, gen: nat): set<nat> {
    set id | id in s.requests && s.requests[id].generation == gen
  }

  function StepLifecycle(s: State, a: Action): State {
    match (s.lifecycle, a)
    case (Quiet, OpenBegin) => if s.parentGen != 0 then s.(lifecycle := Opening(s.parentGen, false, 0)) else s
    case (Quiet, OpenForParent(gen)) => if gen != 0 then s.(lifecycle := Opening(gen, true, 0)) else s
    case (Opening(gen, forParent, checks), OpenNext) =>
      if checks == OPEN_CHECKS then s.(openGen := gen, lifecycle := Quiet)
      else if PassesOpenCheck(s, gen, forParent, checks) then s.(lifecycle := Opening(gen, forParent, checks + 1))
      else s.(lifecycle := Quiet)
    case (Quiet, CloseBegin) =>
      if s.openGen == 0 then s else s.(openGen := 0, lifecycle := Closing(s.openGen, true))
    case (Quiet, CloseForParent(gen)) =>
      if gen == 0 then s
      else s.(openGen := if s.openGen == gen then 0 else s.openGen, lifecycle := Closing(gen, false))
    case (Closing(gen, cancel), CloseLock) =>
      if s.section.Free?
      then s.(section := FailScan(gen, OfGeneration(s, gen)), lifecycle := Failing(gen, cancel)) else s
    case (Failing(gen, cancel), CloseUnlock) =>
      if s.section == FailScan(gen, {}) then s.(section := Free, lifecycle := Closed(gen, cancel)) else s
    case (Closed(gen, cancel), CloseEnd) =>
      s.(cancelGen := if cancel then gen else s.cancelGen, lifecycle := Quiet)
    case (Quiet, Reset) =>
      // The master resets a mailbox only after it closed its generation, and while the
      // parent generation is 0 no other can be opened: the store of 0 finds 0.
      if s.openGen == 0 then s.(staged := None, cancelGen := 0) else s
    case _ => s
  }

  /** What a status reports if nothing happens between its two loads. */
  function ReportOf(s: State, id: nat): Report
    requires id in s.requests
  {
    ReportFor(s.requests[id].phase, s.openGen, s.requests[id].generation)
  }

  function Apply(s: State, a: Action): State {
    match a
    case SetParent(gen) => s.(parentGen := gen)
    case EnqueueLock(gen) => if s.section.Free? && gen != 0 then s.(section := EnqueueLocked(gen)) else s
    case SectionStep(spurious) => StepSection(s, spurious)
    case StageLock => if s.section.Free? then s.(section := StageLocked) else s
    case FailNext(id) => FailNextStep(s, id)
    case OwnerBegin(t, gen) =>
      if t in s.owners then s else Moves(s, t, if s.cancelGen != 0 then CancelSeen else LoadStaged(gen))
    case OwnerStep(t, done, ok) => if t in s.owners then StepOwner(s, t, done, ok) else s
    case Status(id) => if s.section.Free? && id in s.requests then s.(section := StatusLocked(id)) else s
    case _ => StepLifecycle(s, a)
  }

  function Run(actions: seq<Action>): State {
    if actions == [] then INIT else Apply(Run(actions[..|actions| - 1]), actions[|actions| - 1])
  }

  // ----- Invariant --------------------------------------------------------

  /** The request an owner took from active to terminalizing and has not stored the outcome of yet. */
  function Held(owner: Owner): Option<nat> {
    if owner.Judge? || owner.JudgeOpen? || owner.Store? then Some(owner.id) else None
  }

  /** Whoever moved a request to terminalizing is alone with it. */
  ghost predicate HolderInv(s: State) {
    && (forall t :: t in s.owners && Held(s.owners[t]).Some? ==>
          && PhaseIs(s, Held(s.owners[t]).value, Terminalizing)
          && !(s.section.FailMark? && s.section.id == Held(s.owners[t]).value))
    && (forall t, u :: t in s.owners && u in s.owners && t != u && Held(s.owners[t]).Some? ==>
          Held(s.owners[u]) != Held(s.owners[t]))
    && (s.section.FailMark? ==> PhaseIs(s, s.section.id, Terminalizing))
  }

  /** The requests a close in progress has still to finish. */
  ghost predicate StillToFail(s: State, id: nat) {
    match s.section
    case FailScan(gen, todo) => id in todo
    case FailLook(gen, todo, current, seen) => id in todo || id == current
    case FailMark(gen, todo, current) => id in todo || id == current
    case _ => false
  }

  ghost predicate LiveInv(s: State) {
    && (forall id :: id in s.requests ==> id < s.nextId && s.requests[id].generation != 0)
    && (forall id :: id in s.requests && !Terminal(s.requests[id].phase) ==>
          || s.requests[id].generation == s.openGen
          || (s.lifecycle.Closing? && s.lifecycle.gen == s.requests[id].generation)
          || (s.lifecycle.Failing? && s.lifecycle.gen == s.requests[id].generation && StillToFail(s, id)))
  }

  ghost predicate SectionInv(s: State) {
    && (s.section.FailScan? || s.section.FailLook? || s.section.FailMark? <==> s.lifecycle.Failing?)
    && (s.lifecycle.Failing? ==> s.section.gen == s.lifecycle.gen)
    && (s.section.EnqueueLocked? ==> s.section.gen != 0)
    && (s.section.EnqueueOpen? || s.section.EnqueueReady? ==>
          && s.section.gen != 0
          && (s.section.gen == s.openGen || (s.lifecycle.Closing? && s.lifecycle.gen == s.section.gen)))
    && (s.section.StagePicked? ==> s.section.id in s.requests)
    && (s.lifecycle.Opening? ==>
          s.lifecycle.gen != 0 && s.lifecycle.checks <= OPEN_CHECKS && (s.lifecycle.checks > 0 ==> s.openGen == 0))
    && (s.section.FailLook? ==> s.section.id in s.requests && s.section.id !in s.section.todo)
    && (s.section.FailLook? && s.section.seen == Failed ==> PhaseIs(s, s.section.id, Failed))
    && (s.section.FailMark? ==> s.section.id in s.requests && s.section.id !in s.section.todo)
    && (forall id :: s.lifecycle.Failing? && StillToFail(s, id) ==>
          id in s.requests && s.requests[id].generation == s.lifecycle.gen)
    && (s.lifecycle.Closing? || s.lifecycle.Failing? || s.lifecycle.Closed? ==> s.openGen != s.lifecycle.gen)
  }

  ghost predicate Inv(s: State) {
    HolderInv(s) && LiveInv(s) && SectionInv(s)
  }

  // ----- Preservation and settled requests --------------------------------

  /** A finished request that no close is about to overwrite. */
  ghost predicate Settled(s: State, id: nat) {
    && id in s.requests
    && (s.requests[id].phase == Failed
        || (s.requests[id].phase == Completed && !(s.section.FailLook? && s.section.id == id)))
  }

  /** A step keeps the invariant, and every settled request settled in the same phase. */
  ghost predicate Good(s: State, s': State) {
    Inv(s') && forall id :: Settled(s, id) ==> Settled(s', id) && s'.requests[id] == s.requests[id]
  }

  lemma EnqueueKeeps(s: State, spurious: bool)
    requires Inv(s)
    requires (s.section.Free? || s.section.EnqueueLocked? || s.section.EnqueueOpen? || s.section.EnqueueReady?)
    ensures Good(s, StepSection(s, spurious))
  {
  }

  lemma StageCheckKeeps(s: State, spurious: bool)
    requires Inv(s) && (s.section.StageLocked? || s.section.StageOpen? || s.section.StageParent?)
    ensures Good(s, StepSection(s, spurious))
  {
  }

  lemma StagePickKeeps(s: State, spurious: bool)
    requires Inv(s) && s.section.StageReady?
    ensures Good(s, StepSection(s, spurious))
  {
  }

  lemma StageInstallKeeps(s: State, spurious: bool)
    requires Inv(s) && s.section.StagePicked?
    ensures Good(s, StepSection(s, spurious))
  {
    if s.staged != None && PhaseIs(s, s.section.id, Staged) {
      GiveBackKeeps(s, s.section.id);
    }
  }

  /** Somebody else was staged meanwhile: the request is queued again. */
  lemma GiveBackKeeps(s: State, id: nat)
    requires Inv(s) && s.section == StagePicked(id) && PhaseIs(s, id, Staged)
    ensures Good(s, WithPhase(s, id, Queued).(section := Free))
  {
  }

  /** The phase has moved on: look again. */
  lemma LookAgainKeeps(s: State)
    requires Inv(s) && s.section.FailLook? && s.section.seen != Failed
    ensures var f := s.section; Good(s, s.(section := FailLook(f.gen, f.todo, f.id, s.requests[f.id].phase)))
  {
  }

  lemma LookedFailedKeeps(s: State)
    requires Inv(s) && s.section.FailLook? && s.section.seen == Failed
    ensures Good(s, s.(section := FailScan(s.section.gen, s.section.todo)))
  {
  }

  /** The exchange has taken the request to terminalizing for the closer. */
  ghost predicate Marks(s: State, s': State) {
    && s.section.FailLook? && s.section.id in s.requests
    && s.section.seen != Terminalizing && s.section.seen != Failed && PhaseIs(s, s.section.id, s.section.seen)
    && s' == WithPhase(s, s.section.id, Terminalizing)
             .(section := FailMark(s.section.gen, s.section.todo, s.section.id))
  }

  lemma LookMarksHolders(s: State, s': State)
    requires Inv(s) && Marks(s, s')
    ensures HolderInv(s')
  {
  }

  lemma LookMarksLive(s: State, s': State)
    requires Inv(s) && Marks(s, s')
    ensures LiveInv(s')
  {
  }

  lemma LookMarksKeeps(s: State, s': State)
    requires Inv(s) && Marks(s, s')
    ensures Good(s, s')
  {
    LookMarksHolders(s, s');
    LookMarksLive(s, s');
  }

  lemma LookKeeps(s: State, spurious: bool)
    requires Inv(s) && s.section.FailLook?
    ensures Good(s, StepSection(s, spurious))
  {
    var seen, actual := s.section.seen, s.requests[s.section.id].phase;
    if seen == Failed {
      LookedFailedKeeps(s);
    } else if seen != Terminalizing && actual == seen && !spurious {
      LookMarksKeeps(s, StepSection(s, spurious));
    } else if seen != Terminalizing || actual != Terminalizing {
      LookAgainKeeps(s);
    }
  }

  lemma StatusKeeps(s: State, spurious: bool)
    requires Inv(s) && (s.section.StatusLocked? || s.section.StatusLooked?)
    ensures Good(s, StepSection(s, spurious))
  {
  }

  lemma MarkKeeps(s: State, spurious: bool)
    requires Inv(s) && s.section.FailMark?
    ensures Good(s, StepSection(s, spurious))
  {
    var id := s.section.id;
    assert PhaseIs(s, id, Terminalizing);
    var s' := StepSection(s, spurious);
    forall other | other in s'.requests && !Terminal(s'.requests[other].phase)
      ensures other != id && s'.requests[other] == s.requests[other]
    {
    }
  }

  lemma SectionKeeps(s: State, spurious: bool)
    requires Inv(s)
    ensures Good(s, StepSection(s, spurious))
  {
    match s.section
    case FailScan(gen, todo) =>
    case FailLook(gen, todo, id, seen) => LookKeeps(s, spurious);
    case FailMark(gen, todo, id) => MarkKeeps(s, spurious);
    case Free => EnqueueKeeps(s, spurious);
    case EnqueueLocked(gen) => EnqueueKeeps(s, spurious);
    case EnqueueOpen(gen) => EnqueueKeeps(s, spurious);
    case EnqueueReady(gen) => EnqueueKeeps(s, spurious);
    case StageReady(gen) => StagePickKeeps(s, spurious);
    case StagePicked(id) => StageInstallKeeps(s, spurious);
    case StatusLocked(id) => StatusKeeps(s, spurious);
    case StatusLooked(id, seen) => StatusKeeps(s, spurious);
    case _ => StageCheckKeeps(s, spurious);
  }

  lemma FailNextKeeps(s: State, id: nat)
    requires Inv(s)
    ensures Good(s, FailNextStep(s, id))
  {
  }

  /** An owner that changes no phase, and holds afterwards at most what it held before. */
  lemma QuietOwnerKeeps(s: State, s': State, t: nat)
    requires Inv(s) && t in s.owners
    requires s' == s.(owners := s'.owners, staged := s'.staged, cancelGen := s'.cancelGen)
    requires s'.owners - {t} == s.owners - {t}
    requires t in s'.owners && Held(s'.owners[t]).Some? ==> Held(s'.owners[t]) == Held(s.owners[t])
    ensures Good(s, s')
  {
    forall u | u in s'.owners && u != t
      ensures u in s.owners && s'.owners[u] == s.owners[u]
    {
      assert u in s'.owners - {t};
      assert (s'.owners - {t})[u] == (s.owners - {t})[u];
    }
  }

  /** An owner that moves one unfinished request, which nobody holds, to another unfinished phase. */
  ghost predicate Advances(s: State, s': State, t: nat, id: nat, phase: Phase) {
    && t in s.owners && id in s.requests
    && s.requests[id].phase in {Staged, Active} && phase in {Active, Terminalizing}
    && t in s'.owners && s' == WithPhase(s, id, phase).(owners := s.owners[t := s'.owners[t]])
    && Held(s'.owners[t]) == if phase == Terminalizing then Some(id) else None
  }

  lemma AdvancingKeepsHolders(s: State, s': State, t: nat, id: nat, phase: Phase)
    requires Inv(s) && Advances(s, s', t, id, phase)
    ensures HolderInv(s')
  {
  }

  lemma AdvancingKeepsLive(s: State, s': State, t: nat, id: nat, phase: Phase)
    requires Inv(s) && Advances(s, s', t, id, phase)
    ensures LiveInv(s')
  {
  }

  lemma AdvancingOwnerKeeps(s: State, s': State, t: nat, id: nat, phase: Phase)
    requires Inv(s) && Advances(s, s', t, id, phase)
    ensures Good(s, s')
  {
    AdvancingKeepsHolders(s, s', t, id, phase);
    AdvancingKeepsLive(s, s', t, id, phase);
  }

  lemma StoringOwnerKeeps(s: State, t: nat, done: bool, ok: bool)
    requires Inv(s) && t in s.owners && s.owners[t].Store?
    ensures Good(s, StepOwner(s, t, done, ok))
  {
    var id := s.owners[t].id;
    assert Held(s.owners[t]) == Some(id);
    var s' := StepOwner(s, t, done, ok);
    forall other | other in s'.requests && !Terminal(s'.requests[other].phase)
      ensures other != id && s'.requests[other] == s.requests[other]
    {
    }
  }

  lemma OwnerKeeps(s: State, t: nat, done: bool, ok: bool)
    requires Inv(s) && t in s.owners
    ensures Good(s, StepOwner(s, t, done, ok))
  {
    match s.owners[t]
    case Activate(gen, id) => ActivateKeeps(s, t, done, ok);
    case Finish(gen, id, good) => FinishKeeps(s, t, done, ok);
    case Store(id, good) => StoringOwnerKeeps(s, t, done, ok);
    case _ => QuietOwnerKeeps(s, StepOwner(s, t, done, ok), t);
  }

  lemma ActivateKeeps(s: State, t: nat, done: bool, ok: bool)
    requires Inv(s) && t in s.owners && s.owners[t].Activate?
    ensures Good(s, StepOwner(s, t, done, ok))
  {
    var s', id := StepOwner(s, t, done, ok), s.owners[t].id;
    if PhaseIs(s, id, Staged) {
      AdvancingOwnerKeeps(s, s', t, id, Active);
    } else {
      QuietOwnerKeeps(s, s', t);
    }
  }

  lemma FinishKeeps(s: State, t: nat, done: bool, ok: bool)
    requires Inv(s) && t in s.owners && s.owners[t].Finish?
    ensures Good(s, StepOwner(s, t, done, ok))
  {
    var s', id := StepOwner(s, t, done, ok), s.owners[t].id;
    if PhaseIs(s, id, Active) {
      AdvancingOwnerKeeps(s, s', t, id, Terminalizing);
    } else {
      QuietOwnerKeeps(s, s', t);
    }
  }

  lemma LifecycleKeeps(s: State, a: Action)
    requires Inv(s)
    ensures Good(s, StepLifecycle(s, a))
  {
    LifecycleKeepsLive(s, a);
    LifecycleKeepsSection(s, a);
  }

  lemma LifecycleKeepsLive(s: State, a: Action)
    requires Inv(s)
    ensures LiveInv(StepLifecycle(s, a))
  {
  }

  lemma LifecycleKeepsSection(s: State, a: Action)
    requires Inv(s)
    ensures SectionInv(StepLifecycle(s, a))
  {
  }

  lemma OwnerBeginKeeps(s: State, t: nat, gen: nat)
    requires Inv(s)
    ensures Good(s, Apply(s, OwnerBegin(t, gen)))
  {
  }

  lemma ApplyKeeps(s: State, a: Action)
    requires Inv(s)
    ensures Good(s, Apply(s, a))
  {
    match a
    case SetParent(gen) => LockKeeps(s, a);
    case EnqueueLock(gen) => LockKeeps(s, a);
    case SectionStep(spurious) => SectionKeeps(s, spurious);
    case StageLock => LockKeeps(s, a);
    case FailNext(id) => FailNextKeeps(s, id);
    case OwnerBegin(t, gen) => OwnerBeginKeeps(s, t, gen);
    case OwnerStep(t, done, ok) =>
      if t in s.owners {
        OwnerKeeps(s, t, done, ok);
      }
    case Status(id) => LockKeeps(s, a);
    case _ => LifecycleKeeps(s, a);
  }

  lemma LockKeeps(s: State, a: Action)
    requires Inv(s) && (a.SetParent? || a.EnqueueLock? || a.StageLock? || a.Status?)
    ensures Good(s, Apply(s, a))
  {
  }

  lemma {:induction false} RunInv(actions: seq<Action>)
    ensures Inv(Run(actions))
  {
    if actions != [] {
      RunInv(actions[..|actions| - 1]);
      ApplyKeeps(Run(actions[..|actions| - 1]), actions[|actions| - 1]);
    }
  }

  // ----- Theorems over every interleaving ---------------------------------

  /** A settled request keeps its phase whatever happens later, reopening the same generation included. */
  lemma {:induction false} SettledIsForever(before: seq<Action>, after: seq<Action>, id: nat)
    requires Settled(Run(before), id)
    ensures Settled(Run(before + after), id)
    ensures Run(before + after).requests[id] == Run(before).requests[id]
    decreases |after|
  {
    if after == [] {
      assert before + after == before;
    } else {
      var earlier, a := after[..|after| - 1], after[|after| - 1];
      SettledIsForever(before, earlier, id);
      RunInv(before + earlier);
      RunLast(before, after);
      SettledStep(Run(before + earlier), a, id);
    }
  }

  lemma LastOfConcat(before: seq<Action>, after: seq<Action>)
    requires after != []
    ensures var all := before + after;
            all[..|all| - 1] == before + after[..|after| - 1] && all[|all| - 1] == after[|after| - 1]
  {
  }

  lemma RunLast(before: seq<Action>, after: seq<Action>)
    requires after != []
    ensures Run(before + after) == Apply(Run(before + after[..|after| - 1]), after[|after| - 1])
  {
    LastOfConcat(before, after);
  }

  lemma SettledStep(s: State, a: Action, id: nat)
    requires Inv(s) && Settled(s, id)
    ensures Settled(Apply(s, a), id) && Apply(s, a).requests[id] == s.requests[id]
  {
    ApplyKeeps(s, a);
  }

  /** Phase `failed` is absorbing. */
  lemma FailedIsAbsorbing(before: seq<Action>, after: seq<Action>, id: nat)
    requires PhaseIs(Run(before), id, Failed)
    ensures PhaseIs(Run(before + after), id, Failed)
  {
    assert Settled(Run(before), id);
    SettledIsForever(before, after, id);
  }

  /**
   When `close_generation` returns, every request of that generation is finished for
   good; and while the mailbox is closed no request of any generation is unfinished.
   */
  lemma CloseSettlesEveryRequest(actions: seq<Action>, id: nat)
    requires var s := Run(actions);
             && id in s.requests
             && ((s.lifecycle.Closed? && s.requests[id].generation == s.lifecycle.gen)
                 || (s.openGen == 0 && !s.lifecycle.Closing? && !s.lifecycle.Failing?))
    ensures Settled(Run(actions), id)
  {
    RunInv(actions);
  }

  // ----- Status reports ---------------------------------------------------

  /** A phase seen under the mutex: finished phases stay, and terminalizing ends in a finished phase. */
  predicate StillShows(seen: Phase, phase: Phase) {
    match seen
    case Completed => phase == Completed
    case Failed => phase == Failed
    case Terminalizing => phase == Terminalizing || Terminal(phase)
    case _ => true
  }

  ghost predicate LookedInv(s: State) {
    s.section.StatusLooked? ==>
      s.section.id in s.requests && StillShows(s.section.seen, s.requests[s.section.id].phase)
  }

  lemma LookedOwnerStep(s: State, t: nat, done: bool, ok: bool)
    requires Inv(s) && LookedInv(s) && t in s.owners
    ensures LookedInv(StepOwner(s, t, done, ok))
  {
    if s.owners[t].Store? {
      assert Held(s.owners[t]) == Some(s.owners[t].id);
    }
  }

  lemma LookedStep(s: State, a: Action)
    requires Inv(s) && LookedInv(s)
    ensures LookedInv(Apply(s, a))
  {
    match a
    case OwnerStep(t, done, ok) =>
      if t in s.owners {
        LookedOwnerStep(s, t, done, ok);
      }
    case SectionStep(spurious) =>
    case SetParent(gen) =>
    case EnqueueLock(gen) =>
    case StageLock =>
    case FailNext(id) =>
    case OwnerBegin(t, gen) =>
    case Status(id) =>
    case _ => LookedLifecycleStep(s, a);
  }

  lemma LookedLifecycleStep(s: State, a: Action)
    requires LookedInv(s)
    ensures LookedInv(StepLifecycle(s, a))
  {
  }

  lemma {:induction false} RunLooked(actions: seq<Action>)
    ensures LookedInv(Run(actions))
  {
    if actions != [] {
      RunLooked(actions[..|actions| - 1]);
      RunInv(actions[..|actions| - 1]);
      LookedStep(Run(actions[..|actions| - 1]), actions[|actions| - 1]);
    }
  }

  lemma OnlyStatusReports(s: State, a: Action)
    requires !(a.SectionStep? && s.section.StatusLooked?)
    ensures Apply(s, a).reports == s.reports
  {
    match a
    case SectionStep(spurious) => assert StepSection(s, spurious).reports == s.reports;
    case OwnerStep(t, done, ok) => assert t in s.owners ==> StepOwner(s, t, done, ok).reports == s.reports;
    case SetParent(gen) =>
    case EnqueueLock(gen) =>
    case StageLock =>
    case FailNext(id) =>
    case OwnerBegin(t, gen) =>
    case Status(id) =>
    case _ => LifecycleKeepsReports(s, a);
  }

  lemma LifecycleKeepsReports(s: State, a: Action)
    ensures StepLifecycle(s, a).reports == s.reports
  {
  }

  /** This step ends a status of `id` with the given report. */
  predicate Reports(s: State, a: Action, id: nat, report: Report) {
    && a.SectionStep? && s.section.StatusLooked? && s.section.id == id && id in s.requests
    && report == ReportFor(s.section.seen, s.openGen, s.requests[id].generation)
  }

  lemma ReportsGrow(s: State, a: Action)
    ensures s.reports <= Apply(s, a).reports
    ensures |Apply(s, a).reports| <= |s.reports| + 1
    ensures |Apply(s, a).reports| == |s.reports| + 1 ==>
              var (id, report) := Apply(s, a).reports[|s.reports|];
              Reports(s, a, id, report) && Apply(s, a) == s.(section := Free, reports := Apply(s, a).reports)
  {
    if !(a.SectionStep? && s.section.StatusLooked?) {
      OnlyStatusReports(s, a);
    }
  }

  /** A status of `id` in progress has seen the phase the request has. */
  predicate SeesPhase(s: State, id: nat) {
    id in s.requests && (s.section.StatusLooked? && s.section.id == id ==> s.section.seen == s.requests[id].phase)
  }

  lemma SeesStep(s: State, a: Action, id: nat)
    requires Inv(s) && Settled(s, id) && SeesPhase(s, id)
    ensures SeesPhase(Apply(s, a), id)
  {
    SettledStep(s, a, id);
    if !a.SectionStep? {
      OnlySectionLooks(s, a);
    }
  }

  lemma OnlySectionLooks(s: State, a: Action)
    requires !a.SectionStep?
    ensures Apply(s, a).section.StatusLooked? ==> Apply(s, a).section == s.section
  {
    match a
    case OwnerStep(t, done, ok) => assert t in s.owners ==> StepOwner(s, t, done, ok).section == s.section;
    case SetParent(gen) =>
    case EnqueueLock(gen) =>
    case StageLock =>
    case FailNext(id) =>
    case OwnerBegin(t, gen) =>
    case Status(id) =>
    case _ => LifecycleNeverLooks(s, a);
  }

  lemma LifecycleNeverLooks(s: State, a: Action)
    ensures StepLifecycle(s, a).section.StatusLooked? ==> StepLifecycle(s, a).section == s.section
  {
  }

  /** A request ever reported completed is completed for good, and a status in progress has seen so. */
  lemma {:induction false} ReportsOnceCompleted(actions: seq<Action>, i: nat)
    requires i < |Run(actions).reports| && Run(actions).reports[i].1 == ReportCompleted
    ensures Settled(Run(actions), Run(actions).reports[i].0)
    ensures PhaseIs(Run(actions), Run(actions).reports[i].0, Completed)
    ensures SeesPhase(Run(actions), Run(actions).reports[i].0)
  {
    var earlier, a := actions[..|actions| - 1], actions[|actions| - 1];
    RunInv(earlier);
    RunLooked(earlier);
    ReportsGrow(Run(earlier), a);
    if i < |Run(earlier).reports| {
      ReportsOnceCompleted(earlier, i);
      SettledStep(Run(earlier), a, Run(actions).reports[i].0);
      SeesStep(Run(earlier), a, Run(actions).reports[i].0);
    }
  }

  /** A status reported completed is reported completed by every later report. */
  lemma {:induction false} CompletedIsReportedForever(actions: seq<Action>, i: nat, j: nat)
    requires i < j < |Run(actions).reports|
    requires Run(actions).reports[i].1 == ReportCompleted && Run(actions).reports[j].0 == Run(actions).reports[i].0
    ensures Run(actions).reports[j].1 == ReportCompleted
  {
    var earlier, a := actions[..|actions| - 1], actions[|actions| - 1];
    ReportsGrow(Run(earlier), a);
    if j < |Run(earlier).reports| {
      CompletedIsReportedForever(earlier, i, j);
    } else {
      ReportsOnceCompleted(earlier, i);
    }
  }

  // ----- Completed means carried out --------------------------------------

  /** The request whose transfer the backend reports done and successful in this step. */
  function TransferredBy(s: State, a: Action): set<nat> {
    if a.OwnerStep? && a.owner in s.owners && s.owners[a.owner].Progress? && a.done && a.ok
    then {s.owners[a.owner].id} else {}
  }

  /** The request whose success is judged in this step with its generation found open. */
  function ConfirmedBy(s: State, a: Action): set<nat> {
    if a.OwnerStep? && a.owner in s.owners && s.owners[a.owner].JudgeOpen? && s.owners[a.owner].ok
       && s.openGen == s.owners[a.owner].gen
    then {s.owners[a.owner].id} else {}
  }

  function Transferred(actions: seq<Action>): set<nat> {
    if actions == [] then {}
    else Transferred(actions[..|actions| - 1]) + TransferredBy(Run(actions[..|actions| - 1]), actions[|actions| - 1])
  }

  function Confirmed(actions: seq<Action>): set<nat> {
    if actions == [] then {}
    else Confirmed(actions[..|actions| - 1]) + ConfirmedBy(Run(actions[..|actions| - 1]), actions[|actions| - 1])
  }

  predicate OwnerHonest(owner: Owner, transferred: set<nat>, confirmed: set<nat>) {
    && ((owner.Finish? || owner.Judge? || owner.JudgeOpen? || owner.Store?) && owner.ok ==> owner.id in transferred)
    && (owner.Store? && owner.ok ==> owner.id in confirmed)
  }

  /** Every success on its way, and every completed request, was transferred and confirmed. */
  predicate Honest(s: State, transferred: set<nat>, confirmed: set<nat>) {
    && (forall t :: t in s.owners ==> OwnerHonest(s.owners[t], transferred, confirmed))
    && (forall id :: id in s.requests && s.requests[id].phase == Completed ==> id in transferred && id in confirmed)
  }

  lemma HonestStep(s: State, a: Action, transferred: set<nat>, confirmed: set<nat>)
    requires Honest(s, transferred, confirmed)
    ensures Honest(Apply(s, a), transferred + TransferredBy(s, a), confirmed + ConfirmedBy(s, a))
  {
    var all, open := transferred + TransferredBy(s, a), confirmed + ConfirmedBy(s, a);
    match a
    case OwnerStep(t, done, ok) =>
      if t in s.owners {
        HonestOwnerStep(s, t, done, ok, all, open);
      }
    case SectionStep(spurious) => HonestSectionStep(s, spurious, all, open);
    case _ =>
  }

  /** The owner's own step leaves it honest. */
  lemma HonestOwner(s: State, t: nat, done: bool, ok: bool, all: set<nat>, open: set<nat>)
    requires t in s.owners && OwnerHonest(s.owners[t], all, open)
    requires TransferredBy(s, OwnerStep(t, done, ok)) <= all && ConfirmedBy(s, OwnerStep(t, done, ok)) <= open
    ensures var s' := StepOwner(s, t, done, ok); t in s'.owners ==> OwnerHonest(s'.owners[t], all, open)
  {
  }

  /** Only storing a success completes a request. */
  lemma OnlyStoreCompletes(s: State, t: nat, done: bool, ok: bool, id: nat)
    requires t in s.owners && PhaseIs(StepOwner(s, t, done, ok), id, Completed)
    ensures PhaseIs(s, id, Completed) || s.owners[t] == Store(id, true)
  {
  }

  lemma OwnerLeavesOthers(s: State, t: nat, done: bool, ok: bool, u: nat)
    requires t in s.owners && u != t && u in StepOwner(s, t, done, ok).owners
    ensures u in s.owners && StepOwner(s, t, done, ok).owners[u] == s.owners[u]
  {
  }

  lemma HonestOwnerStep(s: State, t: nat, done: bool, ok: bool, all: set<nat>, open: set<nat>)
    requires Honest(s, all, open) && t in s.owners
    requires TransferredBy(s, OwnerStep(t, done, ok)) <= all && ConfirmedBy(s, OwnerStep(t, done, ok)) <= open
    ensures Honest(StepOwner(s, t, done, ok), all, open)
  {
    var s' := StepOwner(s, t, done, ok);
    assert OwnerHonest(s.owners[t], all, open);
    HonestOwner(s, t, done, ok, all, open);
    forall u | u in s'.owners
      ensures OwnerHonest(s'.owners[u], all, open)
    {
      if u != t {
        OwnerLeavesOthers(s, t, done, ok, u);
      }
    }
    forall id | id in s'.requests && s'.requests[id].phase == Completed
      ensures id in all && id in open
    {
      OnlyStoreCompletes(s, t, done, ok, id);
    }
  }

  lemma HonestSectionStep(s: State, spurious: bool, all: set<nat>, open: set<nat>)
    requires Honest(s, all, open)
    ensures Honest(StepSection(s, spurious), all, open)
  {
  }

  lemma {:induction false} RunIsHonest(actions: seq<Action>)
    ensures Honest(Run(actions), Transferred(actions), Confirmed(actions))
  {
    if actions != [] {
      var earlier, a := actions[..|actions| - 1], actions[|actions| - 1];
      RunIsHonest(earlier);
      HonestStep(Run(earlier), a, Transferred(earlier), Confirmed(earlier));
    }
  }

  /** A completed request was transferred by the backend, and its generation was open when that was judged. */
  lemma CompletedWasCarriedOut(actions: seq<Action>, id: nat)
    requires PhaseIs(Run(actions), id, Completed)
    ensures id in Transferred(actions) && id in Confirmed(actions)
  {
    RunIsHonest(actions);
  }

  // ----- A report of failure is not final ---------------------------------

  /** The reports of `id` that `after` adds to the run `before` are all this one. */
  ghost predicate LaterReportsAre(before: seq<Action>, after: seq<Action>, id: nat, report: Report) {
    forall i :: |Run(before).reports| <= i < |Run(before + after).reports| && Run(before + after).reports[i].0 == id ==>
      Run(before + after).reports[i].1 == report
  }

  /** A request whose phase is failed is reported failed by every status that begins later. */
  lemma {:induction false} FailedPhaseIsReportedForever(before: seq<Action>, after: seq<Action>, id: nat)
    requires PhaseIs(Run(before), id, Failed)
    ensures id in Run(before + after).requests && ReportOf(Run(before + after), id) == ReportFailed
    ensures SeesPhase(Run(before), id) ==>
              SeesPhase(Run(before + after), id) && LaterReportsAre(before, after, id, ReportFailed)
    decreases |after|
  {
    FailedIsAbsorbing(before, after, id);
    if after == [] {
      assert before + after == before;
    } else {
      var earlier, a := after[..|after| - 1], after[|after| - 1];
      FailedPhaseIsReportedForever(before, earlier, id);
      RunLast(before, after);
      RunInv(before + earlier);
      ReportsGrow(Run(before + earlier), a);
      FailedIsAbsorbing(before, earlier, id);
      if SeesPhase(Run(before), id) {
        SeesStep(Run(before + earlier), a, id);
      }
    }
  }

  /** Where an owner stands between taking a request and judging its outcome. */
  predicate AtWork(owner: Owner) {
    owner.CheckParent? || owner.CheckOpen? || owner.LoadPhase? || owner.Activate? || owner.Progress?
    || owner.Finish? || owner.Judge? || owner.JudgeOpen?
  }

  predicate OwnGeneration(s: State, owner: Owner) {
    AtWork(owner) ==> owner.id in s.requests && s.requests[owner.id].generation == owner.gen
  }

  /** An owner works on a request only for the generation of that request. */
  ghost predicate GenInv(s: State) {
    forall t :: t in s.owners ==> OwnGeneration(s, s.owners[t])
  }

  /** Requests never disappear and never change their generation. */
  ghost predicate KeepsRequests(s: State, s': State) {
    forall id :: id in s.requests ==> id in s'.requests && s'.requests[id].generation == s.requests[id].generation
  }

  lemma SectionKeepsRequests(s: State, spurious: bool)
    requires Inv(s)
    ensures KeepsRequests(s, StepSection(s, spurious))
  {
  }

  lemma OwnerKeepsRequests(s: State, t: nat, done: bool, ok: bool)
    requires t in s.owners
    ensures KeepsRequests(s, StepOwner(s, t, done, ok))
  {
  }

  lemma RequestsStay(s: State, a: Action)
    requires Inv(s)
    ensures KeepsRequests(s, Apply(s, a))
  {
    match a
    case SectionStep(spurious) => SectionKeepsRequests(s, spurious);
    case OwnerStep(t, done, ok) =>
      if t in s.owners {
        OwnerKeepsRequests(s, t, done, ok);
      }
    case _ =>
      assert Apply(s, a).requests == s.requests;
  }

  lemma OwnerStepKeepsGen(s: State, t: nat, done: bool, ok: bool)
    requires GenInv(s) && t in s.owners
    ensures var s' := StepOwner(s, t, done, ok); t in s'.owners ==> OwnGeneration(s', s'.owners[t])
  {
    assert OwnGeneration(s, s.owners[t]);
  }

  lemma SectionKeepsOwners(s: State, spurious: bool)
    ensures StepSection(s, spurious).owners == s.owners
  {
  }

  lemma LifecycleKeepsOwners(s: State, a: Action)
    ensures StepLifecycle(s, a).owners == s.owners
  {
  }

  lemma OthersStay(s: State, a: Action, t: nat)
    requires t in Apply(s, a).owners && !(a.OwnerStep? && a.owner == t) && !(a.OwnerBegin? && a.owner == t)
    ensures t in s.owners && Apply(s, a).owners[t] == s.owners[t]
  {
    match a
    case SectionStep(spurious) => SectionKeepsOwners(s, spurious);
    case OwnerStep(u, done, ok) =>
      if u in s.owners {
        OwnerLeavesOthers(s, u, done, ok, t);
      }
    case OwnerBegin(u, gen) =>
    case SetParent(gen) =>
    case EnqueueLock(gen) =>
    case StageLock =>
    case FailNext(id) => assert FailNextStep(s, id).owners == s.owners;
    case Status(id) =>
    case _ => LifecycleKeepsOwners(s, a);
  }

  lemma GenStep(s: State, a: Action)
    requires Inv(s) && GenInv(s)
    ensures GenInv(Apply(s, a))
  {
    var s' := Apply(s, a);
    RequestsStay(s, a);
    forall t | t in s'.owners
      ensures OwnGeneration(s', s'.owners[t])
    {
      if a.OwnerStep? && a.owner == t && t in s.owners {
        OwnerStepKeepsGen(s, t, a.done, a.ok);
      } else if a.OwnerBegin? && a.owner == t {
        assert t in s.owners ==> OwnGeneration(s, s.owners[t]);
      } else {
        OthersStay(s, a, t);
        assert OwnGeneration(s, s.owners[t]);
      }
    }
  }

  lemma {:induction false} RunGen(actions: seq<Action>)
    ensures GenInv(Run(actions))
  {
    if actions != [] {
      RunGen(actions[..|actions| - 1]);
      RunInv(actions[..|actions| - 1]);
      GenStep(Run(actions[..|actions| - 1]), actions[|actions| - 1]);
    }
  }

  /** An owner is about to store the success of this request. */
  predicate StoresSuccess(s: State, t: nat, id: nat) {
    t in s.owners && s.owners[t] == Store(id, true)
  }

  /** Reported failed, and no owner is about to store a success. */
  ghost predicate Doomed(s: State, id: nat) {
    && id in s.requests && ReportOf(s, id) == ReportFailed
    && forall t: nat :: !StoresSuccess(s, t, id)
  }

  lemma OwnerKeepsFailure(s: State, t: nat, done: bool, ok: bool, id: nat)
    requires Inv(s) && t in s.owners && id in s.requests && ReportOf(s, id) == ReportFailed && !StoresSuccess(s, t, id)
    ensures var s' := StepOwner(s, t, done, ok); id in s'.requests && ReportOf(s', id) == ReportFailed
  {
  }

  /** The generation of the request is closed, so no owner can judge it a success any more. */
  lemma OwnerGainsNoSuccess(s: State, t: nat, done: bool, ok: bool, id: nat)
    requires Inv(s) && t in s.owners && OwnGeneration(s, s.owners[t])
    requires id in s.requests && ReportOf(s, id) == ReportFailed
    ensures !StoresSuccess(StepOwner(s, t, done, ok), t, id)
  {
    if s.owners[t].JudgeOpen? && s.owners[t].id == id {
      assert Held(s.owners[t]) == Some(id);
    }
  }

  lemma DoomedOwnerStep(s: State, t: nat, done: bool, ok: bool, id: nat)
    requires Inv(s) && GenInv(s) && t in s.owners && Doomed(s, id)
    ensures Doomed(StepOwner(s, t, done, ok), id)
  {
    var s' := StepOwner(s, t, done, ok);
    OwnerKeepsFailure(s, t, done, ok, id);
    forall u: nat
      ensures !StoresSuccess(s', u, id)
    {
      assert !StoresSuccess(s, u, id);
      if u == t {
        OwnerGainsNoSuccess(s, t, done, ok, id);
      } else if u in s'.owners {
        OwnerLeavesOthers(s, t, done, ok, u);
      }
    }
  }

  lemma SectionKeepsFailure(s: State, spurious: bool, id: nat)
    requires Inv(s) && id in s.requests && ReportOf(s, id) == ReportFailed
    ensures var s' := StepSection(s, spurious); id in s'.requests && ReportOf(s', id) == ReportFailed
  {
  }

  lemma DoomedSectionStep(s: State, spurious: bool, id: nat)
    requires Inv(s) && Doomed(s, id)
    ensures Doomed(StepSection(s, spurious), id)
  {
    var s' := StepSection(s, spurious);
    SectionKeepsOwners(s, spurious);
    SectionKeepsFailure(s, spurious, id);
    forall t: nat
      ensures !StoresSuccess(s', t, id)
    {
      assert !StoresSuccess(s, t, id);
    }
  }

  lemma DoomedElse(s: State, a: Action, id: nat)
    requires Inv(s) && Doomed(s, id) && !a.OwnerStep? && !a.SectionStep?
    ensures Doomed(Apply(s, a), id)
  {
    var s' := Apply(s, a);
    forall t: nat
      ensures !StoresSuccess(s', t, id)
    {
      assert !StoresSuccess(s, t, id);
    }
  }

  lemma DoomedStep(s: State, a: Action, id: nat)
    requires Inv(s) && GenInv(s) && Doomed(s, id)
    ensures Doomed(Apply(s, a), id)
  {
    match a
    case OwnerStep(t, done, ok) =>
      if t in s.owners {
        DoomedOwnerStep(s, t, done, ok, id);
      }
    case SectionStep(spurious) => DoomedSectionStep(s, spurious, id);
    case _ => DoomedElse(s, a, id);
  }

  lemma {:induction false} DoomedIsForever(before: seq<Action>, after: seq<Action>, id: nat)
    requires Doomed(Run(before), id)
    ensures Doomed(Run(before + after), id)
    decreases |after|
  {
    if after == [] {
      assert before + after == before;
    } else {
      var earlier := before + after[..|after| - 1];
      DoomedIsForever(before, after[..|after| - 1], id);
      RunInv(earlier);
      RunGen(earlier);
      RunLast(before, after);
      DoomedStep(Run(earlier), after[|after| - 1], id);
    }
  }

  /** A doomed request is never reported completed. */
  lemma {:induction false} DoomedIsNeverReportedCompleted(before: seq<Action>, after: seq<Action>, id: nat)
    requires Doomed(Run(before), id)
    ensures |Run(before).reports| <= |Run(before + after).reports|
    ensures !ReportsCompleted(before, after, id)
    decreases |after|
  {
    if after == [] {
      assert before + after == before;
    } else {
      var earlier, a := after[..|after| - 1], after[|after| - 1];
      DoomedIsNeverReportedCompleted(before, earlier, id);
      DoomedIsForever(before, earlier, id);
      RunLast(before, after);
      RunLooked(before + earlier);
      var s, s' := Run(before + earlier), Run(before + after);
      ReportsGrow(s, a);
      forall i | |Run(before).reports| <= i < |s'.reports|
        ensures s'.reports[i] != (id, ReportCompleted)
      {
        assert i < |s.reports| ==> s.reports[i] != (id, ReportCompleted);
      }
    }
  }

  /** A report of completed for `id` among those that `after` adds. */
  predicate ReportsCompleted(before: seq<Action>, after: seq<Action>, id: nat) {
    exists i :: |Run(before).reports| <= i < |Run(before + after).reports|
             && Run(before + after).reports[i] == (id, ReportCompleted)
  }

  /** Some continuation of the run reports the request completed. */
  ghost predicate MayReportCompleted(before: seq<Action>, id: nat) {
    exists after: seq<Action> :: ReportsCompleted(before, after, id)
  }

  ghost predicate SuccessIsPending(s: State, id: nat) {
    exists t: nat :: StoresSuccess(s, t, id)
  }

  /**
   Exactly when a report of failure is not final. Take any status of `id` whose second load makes
   it report failed: a later status can report completed if and only if, right after that report,
   the request is completed already or an owner is about to store its success.
   */
  lemma FailedReportIsFinalExactlyWhen(before: seq<Action>, a: Action, id: nat)
    requires Reports(Run(before), a, id, ReportFailed)
    ensures Run(before + [a]).reports == Run(before).reports + [(id, ReportFailed)]
    ensures MayReportCompleted(before + [a], id) <==>
              PhaseIs(Run(before + [a]), id, Completed) || SuccessIsPending(Run(before + [a]), id)
  {
    var reported := before + [a];
    assert Run(reported) == Apply(Run(before), a) by {
      RunLast(before, [a]);
      assert before + [a][..0] == before;
    }
    RunLooked(before);
    if PhaseIs(Run(reported), id, Completed) {
      assert reported + [] == reported;
      CompletedCanBeReported(reported, [], id);
    } else if t: nat :| StoresSuccess(Run(reported), t, id) {
      StoredSuccessShows(reported, t, id);
    } else {
      forall after: seq<Action>
        ensures !ReportsCompleted(reported, after, id)
      {
        DoomedIsNeverReportedCompleted(reported, after, id);
      }
    }
  }

  lemma RunThree(before: seq<Action>, a: Action, b: Action, c: Action)
    ensures Run(before + [a, b, c]) == Apply(Apply(Apply(Run(before), a), b), c)
  {
    RunLast(before, [a, b, c]);
    assert [a, b, c][..2] == [a, b];
    RunLast(before, [a, b]);
    assert [a, b][..1] == [a];
    RunLast(before, [a]);
    assert before + [a][..0] == before;
  }

  /** Whoever asks for the status of a completed request while the mutex is free is told so. */
  lemma AskingShowsCompleted(s: State, id: nat)
    requires s.section.Free? && PhaseIs(s, id, Completed)
    ensures Apply(Apply(Apply(s, Status(id)), SectionStep(false)), SectionStep(false)).reports
            == s.reports + [(id, ReportCompleted)]
  {
  }

  lemma CompletedCanBeReported(before: seq<Action>, more: seq<Action>, id: nat)
    requires Run(before + more).section.Free? && PhaseIs(Run(before + more), id, Completed)
    requires Run(before + more).reports == Run(before).reports
    ensures MayReportCompleted(before, id)
  {
    var asking := [Status(id), SectionStep(false), SectionStep(false)];
    RunThree(before + more, Status(id), SectionStep(false), SectionStep(false));
    AskingShowsCompleted(Run(before + more), id);
    assert before + more + asking == before + (more + asking);
    var reports := Run(before + (more + asking)).reports;
    assert reports[|Run(before).reports|] == (id, ReportCompleted);
    assert ReportsCompleted(before, more + asking, id);
  }

  lemma StoredSuccessShows(before: seq<Action>, t: nat, id: nat)
    requires Run(before).section.Free? && StoresSuccess(Run(before), t, id)
    ensures MayReportCompleted(before, id)
  {
    var store := OwnerStep(t, true, true);
    RunInv(before);
    SuccessIsStored(Run(before), t, id);
    RunLast(before, [store]);
    assert before + [store][..0] == before;
    CompletedCanBeReported(before, [store], id);
  }

  lemma SuccessIsStored(s: State, t: nat, id: nat)
    requires Inv(s) && StoresSuccess(s, t, id)
    ensures var s' := Apply(s, OwnerStep(t, true, true));
            PhaseIs(s', id, Completed) && s'.section == s.section && s'.reports == s.reports
  {
    assert Held(s.owners[t]) == Some(id);
  }

  lemma Do(actions: seq<Action>, a: Action) returns (longer: seq<Action>)
    ensures Run(longer) == Apply(Run(actions), a)
  {
    longer := actions + [a];
    assert longer[..|longer| - 1] == actions;
  }

  lemma DoOwner(actions: seq<Action>) returns (longer: seq<Action>)
    requires 0 in Run(actions).owners
    ensures Run(longer) == StepOwner(Run(actions), 0, true, true)
  {
    longer := Do(actions, OwnerStep(0, true, true));
  }

  lemma DoSection(actions: seq<Action>) returns (longer: seq<Action>)
    ensures Run(longer) == StepSection(Run(actions), false)
  {
    longer := Do(actions, SectionStep(false));
  }

  /** A mailbox open for generation 1 with request 1 staged. */
  function StagedState(): State {
    State(map[1 := Request(1, Staged)], 2, Some(1), 1, 0, 1, Free, Quiet, map[], [])
  }

  function QueuedState(): State {
    State(map[1 := Request(1, Queued)], 2, None, 1, 0, 1, Free, Quiet, map[], [])
  }

  lemma OpenTheMailbox() returns (actions: seq<Action>)
    ensures Run(actions) == INIT.(parentGen := 1, openGen := 1)
  {
    actions := Do([], SetParent(1));
    actions := Do(actions, OpenBegin);
    actions := DoOpen(actions, 1);
    actions := DoOpen(actions, 2);
    actions := DoOpen(actions, 3);
    actions := DoOpen(actions, 4);
    actions := Do(actions, OpenNext);
  }

  /** One more check of the open, in a mailbox that nobody else uses. */
  lemma DoOpen(actions: seq<Action>, checks: nat) returns (longer: seq<Action>)
    requires 0 < checks <= OPEN_CHECKS
    requires Run(actions) == INIT.(parentGen := 1, lifecycle := Opening(1, false, checks - 1))
    ensures Run(longer) == INIT.(parentGen := 1, lifecycle := Opening(1, false, checks))
  {
    longer := Do(actions, OpenNext);
  }

  lemma EnqueueARequest() returns (actions: seq<Action>)
    ensures Run(actions) == QueuedState()
  {
    actions := OpenTheMailbox();
    actions := Do(actions, EnqueueLock(1));
    actions := DoSection(actions);
    actions := DoSection(actions);
    actions := DoSection(actions);
  }

  lemma CheckForStaging() returns (actions: seq<Action>)
    ensures Run(actions) == QueuedState().(section := StageReady(1))
  {
    actions := EnqueueARequest();
    actions := Do(actions, StageLock);
    actions := DoSection(actions);
    actions := DoSection(actions);
    actions := DoSection(actions);
  }

  lemma FirstIsCandidate()
    ensures FirstCandidate(QueuedState().(section := StageReady(1)), 1, 0) == Some(1)
  {
    assert FirstCandidate(QueuedState().(section := StageReady(1)), 1, 1) == Some(1);
  }

  lemma StageARequest() returns (actions: seq<Action>)
    ensures Run(actions) == StagedState()
  {
    actions := CheckForStaging();
    FirstIsCandidate();
    actions := DoSection(actions);
    actions := DoSection(actions);
  }

  /** An owner about to store the success of request 1. */
  function StoringState(): State {
    StagedState().(requests := map[1 := Request(1, Terminalizing)], owners := map[0 := Store(1, true)])
  }

  lemma ReachActivate() returns (actions: seq<Action>)
    ensures Run(actions) == StagedState().(owners := map[0 := Activate(1, 1)])
  {
    actions := StageARequest();
    actions := Do(actions, OwnerBegin(0, 1));
    actions := DoOwner(actions);
    actions := DoOwner(actions);
    actions := DoOwner(actions);
    actions := DoOwner(actions);
  }

  lemma ReachFinish() returns (actions: seq<Action>)
    ensures Run(actions)
            == StagedState().(requests := map[1 := Request(1, Active)], owners := map[0 := Finish(1, 1, true)])
  {
    actions := ReachActivate();
    actions := DoOwner(actions);
    actions := DoOwner(actions);
  }

  lemma ReachStore() returns (actions: seq<Action>)
    ensures Run(actions) == StoringState()
  {
    actions := ReachFinish();
    actions := DoOwner(actions);
    actions := DoOwner(actions);
    actions := DoOwner(actions);
  }

  lemma DoStatus(actions: seq<Action>) returns (longer: seq<Action>)
    requires Run(actions).section.Free? && 1 in Run(actions).requests
    ensures Run(longer) == Run(actions).(reports := Run(actions).reports + [(1, ReportOf(Run(actions), 1))])
  {
    longer := Do(actions, Status(1));
    longer := DoSection(longer);
    longer := DoSection(longer);
  }

  /** The second case arises: request 1 is reported failed while its success is about to be stored. */
  lemma FailedReportCanTurnCompleted() returns (actions: seq<Action>)
    ensures Run(actions).reports == [(1, ReportFailed), (1, ReportCompleted)]
  {
    actions := ReachStore();
    actions := Do(actions, CloseBegin);
    actions := DoStatus(actions);
    actions := DoOwner(actions);
    actions := DoStatus(actions);
  }

  lemma LookBeforeTheStore() returns (actions: seq<Action>)
    ensures Run(actions) == StoringState().(section := StatusLooked(1, Terminalizing))
  {
    actions := ReachStore();
    actions := Do(actions, Status(1));
    actions := DoSection(actions);
  }

  /** The first case arises: request 1 is reported failed although it has been completed between the two loads. */
  lemma FailedReportAfterCompletion() returns (before: seq<Action>, actions: seq<Action>)
    ensures Reports(Run(before), SectionStep(false), 1, ReportFailed) && PhaseIs(Run(before), 1, Completed)
    ensures Run(before).reports == [] && Run(actions).reports == [(1, ReportFailed), (1, ReportCompleted)]
  {
    before := LookBeforeTheStore();
    before := DoOwner(before);
    before := Do(before, CloseBegin);
    actions := DoSection(before);
    actions := DoStatus(actions);
  }
}
