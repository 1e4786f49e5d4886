/**
 The order in which a mailbox serves its requests: each staging takes the oldest queued
 request of the open generation, over a run requests are staged once and in the order of
 their ids, and a request nobody disturbs is carried through to its outcome.
 */
module MailboxOrder {
  import opened Wrappers
  import opened Mailbox

  // ----- The oldest queued request ----------------------------------------

  /** `id` is queued in the generation and no older request of the generation is. */
  ghost predicate IsOldestQueued(s: State, gen: nat, id: nat) {
    IsCandidate(s, gen, id) && forall older :: IsCandidate(s, gen, older) ==> id <= older
  }

  lemma {:induction false} ScanFindsTheFirst(s: State, gen: nat, from: nat)
    ensures var first := FirstCandidate(s, gen, from);
            && (first.Some? ==> from <= first.value)
            && forall id: nat :: from <= id < (if first.Some? then first.value else s.nextId) ==>
                 !IsCandidate(s, gen, id)
    decreases s.nextId - from
  {
    if from < s.nextId && !IsCandidate(s, gen, from) {
      ScanFindsTheFirst(s, gen, from + 1);
    }
  }

  lemma OldestIsFound(s: State, gen: nat)
    requires LiveInv(s)
    ensures var first := FirstCandidate(s, gen, 0);
            if first.Some? then IsOldestQueued(s, gen, first.value) else forall id :: !IsCandidate(s, gen, id)
  {
    ScanFindsTheFirst(s, gen, 0);
  }

  /** In every run, staging takes exactly the oldest queued request of the generation, none only if none is queued. */
  lemma OldestIsStaged(actions: seq<Action>, spurious: bool)
    requires Run(actions).section.StageReady?
    ensures var s, s' := Run(actions), Apply(Run(actions), SectionStep(spurious));
            var gen := s.section.gen;
            if exists id :: IsCandidate(s, gen, id)
            then s'.section.StagePicked? && IsOldestQueued(s, gen, s'.section.id)
                 && s' == WithPhase(s, s'.section.id, Staged).(section := StagePicked(s'.section.id))
            else s' == s.(section := Free)
  {
    RunInv(actions);
    OldestIsFound(Run(actions), Run(actions).section.gen);
  }

  // ----- A staged request is never queued again ---------------------------

  /** Only a stager fills the slot, and it does so under the mutex under which it found the slot empty. */
  predicate SlotInv(s: State) {
    s.section.StageReady? || s.section.StagePicked? ==> s.staged == None
  }

  /** `s'` comes later than `s`: ids grow, nothing older appears, and what left the queue stays out of it. */
  ghost predicate Later(s: State, s': State) {
    && s.nextId <= s'.nextId
    && KeepsRequests(s, s')
    && (forall id :: id in s'.requests && id !in s.requests ==> s.nextId <= id)
    && (forall id :: id in s.requests && s.requests[id].phase != Queued ==>
          id in s'.requests && s'.requests[id].phase != Queued)
  }

  lemma OwnerIsLater(s: State, t: nat, done: bool, ok: bool)
    requires SlotInv(s) && t in s.owners
    ensures SlotInv(StepOwner(s, t, done, ok)) && Later(s, StepOwner(s, t, done, ok))
  {
  }

  /** One request that has left the queue, or leaves it now, changes its phase. */
  lemma PhaseChangeIsLater(s: State, s': State, id: nat, phase: Phase)
    requires phase != Queued && s'.requests == WithPhase(s, id, phase).requests && s'.nextId == s.nextId
    ensures Later(s, s')
  {
  }

  lemma SectionKeepsSlot(s: State, spurious: bool)
    requires SlotInv(s)
    ensures SlotInv(StepSection(s, spurious))
  {
  }

  /** Under the mutex only these four steps change a request. */
  predicate MovesARequest(section: Section) {
    section.EnqueueReady? || section.StageReady? || section.FailLook? || section.FailMark?
  }

  lemma OtherSectionsChangeNothing(s: State, spurious: bool)
    requires SlotInv(s) && !MovesARequest(s.section)
    ensures StepSection(s, spurious).requests == s.requests && StepSection(s, spurious).nextId == s.nextId
  {
  }

  lemma FailStepIsLater(s: State, spurious: bool)
    requires s.section.FailLook? || s.section.FailMark?
    ensures Later(s, StepSection(s, spurious))
  {
    PhaseChangeIsLater(s, WithPhase(s, s.section.id, Terminalizing), s.section.id, Terminalizing);
    PhaseChangeIsLater(s, WithPhase(s, s.section.id, Failed), s.section.id, Failed);
  }

  lemma PickIsLater(s: State, spurious: bool)
    requires s.section.StageReady?
    ensures Later(s, StepSection(s, spurious))
  {
    var first := FirstCandidate(s, s.section.gen, 0);
    if first.Some? {
      PhaseChangeIsLater(s, StepSection(s, spurious), first.value, Staged);
    }
  }

  lemma SectionIsLater(s: State, spurious: bool)
    requires Inv(s) && SlotInv(s)
    ensures Later(s, StepSection(s, spurious))
  {
    if s.section.FailLook? || s.section.FailMark? {
      FailStepIsLater(s, spurious);
    } else if s.section.StageReady? {
      PickIsLater(s, spurious);
    } else if s.section.EnqueueReady? {
      EnqueueIsLater(s, s.section.gen);
    } else {
      OtherSectionsChangeNothing(s, spurious);
    }
  }

  lemma EnqueueIsLater(s: State, gen: nat)
    requires LiveInv(s)
    ensures Later(s, s.(requests := s.requests[s.nextId := Request(gen, Queued)],
                        nextId := s.nextId + 1, section := Free))
  {
  }

  lemma LifecycleIsLater(s: State, a: Action)
    requires SlotInv(s)
    ensures SlotInv(StepLifecycle(s, a)) && Later(s, StepLifecycle(s, a))
  {
  }

  lemma StepIsLater(s: State, a: Action)
    requires Inv(s) && SlotInv(s)
    ensures SlotInv(Apply(s, a)) && Later(s, Apply(s, a))
  {
    match a
    case SectionStep(spurious) =>
      SectionIsLater(s, spurious);
      SectionKeepsSlot(s, spurious);
    case OwnerStep(t, done, ok) =>
      if t in s.owners {
        OwnerIsLater(s, t, done, ok);
      }
    case SetParent(gen) =>
    case EnqueueLock(gen) =>
    case StageLock =>
    case FailNext(id) =>
    case OwnerBegin(t, gen) =>
    case Status(id) =>
    case _ => LifecycleIsLater(s, a);
  }

  /** The store into the staging slot never fails: nobody is ever put back into the queue. */
  lemma {:induction false} NobodyIsPutBack(actions: seq<Action>)
    ensures SlotInv(Run(actions))
  {
    if actions != [] {
      NobodyIsPutBack(actions[..|actions| - 1]);
      RunInv(actions[..|actions| - 1]);
      StepIsLater(Run(actions[..|actions| - 1]), actions[|actions| - 1]);
    }
  }

  lemma {:induction false} RunIsLater(actions: seq<Action>, i: nat, j: nat)
    requires i <= j <= |actions|
    ensures Later(Run(actions[..i]), Run(actions[..j]))
    decreases j - i
  {
    if i < j {
      RunIsLater(actions, i, j - 1);
      RunInv(actions[..j - 1]);
      NobodyIsPutBack(actions[..j - 1]);
      assert actions[..j][..j - 1] == actions[..j - 1];
      StepIsLater(Run(actions[..j - 1]), actions[j - 1]);
    }
  }

  // ----- Requests of one generation are staged in order -------------------

  /** Action `i` of the run takes request `id` out of the queue. */
  predicate StagesAt(actions: seq<Action>, i: nat, id: nat) {
    && i < |actions| && actions[i].SectionStep?
    && Run(actions[..i]).section.StageReady?
    && Run(actions[..i + 1]).section == StagePicked(id)
  }

  lemma StagedTookTheOldest(actions: seq<Action>, i: nat, id: nat)
    requires StagesAt(actions, i, id)
    ensures IsOldestQueued(Run(actions[..i]), Run(actions[..i]).section.gen, id)
    ensures PhaseIs(Run(actions[..i + 1]), id, Staged)
  {
    assert actions[..i + 1][..i] == actions[..i];
    OldestIsStaged(actions[..i], actions[i].spurious);
  }

  /** Whatever is queued after the oldest request was taken is younger. */
  lemma OldestComesFirst(s: State, taken: State, u: State, gen: nat, a: nat, b: nat)
    requires LiveInv(s) && Later(s, u) && Later(taken, u)
    requires IsOldestQueued(s, gen, a) && PhaseIs(taken, a, Staged) && IsCandidate(u, gen, b)
    ensures a < b
  {
    assert b in s.requests ==> IsCandidate(s, gen, b);
  }

  /** Requests of one generation are staged in the order of their ids, and none is staged twice. */
  lemma StagedInOrder(actions: seq<Action>, i: nat, j: nat, a: nat, b: nat)
    requires i < j && StagesAt(actions, i, a) && StagesAt(actions, j, b)
    ensures a in Run(actions).requests && b in Run(actions).requests
    ensures Run(actions).requests[a].generation == Run(actions).requests[b].generation ==> a < b
  {
    StagedTookTheOldest(actions, i, a);
    StagedTookTheOldest(actions, j, b);
    RunIsLater(actions, i, j);
    RunIsLater(actions, i + 1, j);
    RunIsLater(actions, j, |actions|);
    assert actions[..|actions|] == actions;
    RunInv(actions[..i]);
    var gen := Run(actions[..i]).section.gen;
    if Run(actions[..j]).section.gen == gen {
      OldestComesFirst(Run(actions[..i]), Run(actions[..i + 1]), Run(actions[..j]), gen, a, b);
    }
  }

  // ----- An undisturbed request is served ---------------------------------

  /** Open for the master's generation, nothing staged, nobody at work on the requests. */
  predicate Serving(s: State, gen: nat) {
    && gen != 0 && s.openGen == gen && s.parentGen == gen && s.cancelGen == 0
    && s.section.Free? && s.staged == None
  }

  function Again(s: State, a: Action, times: nat): State {
    if times == 0 then s else Apply(Again(s, a, times - 1), a)
  }

  function Copies(a: Action, times: nat): (r: seq<Action>)
    ensures |r| == times && forall i :: 0 <= i < times ==> r[i] == a
  {
    if times == 0 then [] else Copies(a, times - 1) + [a]
  }

  lemma {:induction false} RunAgain(before: seq<Action>, a: Action, times: nat)
    ensures Run(before + Copies(a, times)) == Again(Run(before), a, times)
  {
    if times == 0 {
      assert before + Copies(a, 0) == before;
    } else {
      RunAgain(before, a, times - 1);
      RunLast(before, Copies(a, times));
      assert Copies(a, times)[..times - 1] == Copies(a, times - 1);
    }
  }

  /**
   An undisturbed enqueue adds one queued request under a new id exactly when its generation is both
   the open one and the master's; otherwise it changes nothing.
   */
  lemma EnqueueIsExact(before: seq<Action>, gen: nat)
    requires Run(before).section.Free? && gen != 0
    ensures var s, s' := Run(before), Run(before + [EnqueueLock(gen)] + Copies(SectionStep(false), 3));
            && s.nextId !in s.requests
            && s' == if s.openGen == gen && s.parentGen == gen
                     then s.(requests := s.requests[s.nextId := Request(gen, Queued)], nextId := s.nextId + 1) else s
  {
    var s, step := Run(before), SectionStep(false);
    RunInv(before);
    RunOne(before, EnqueueLock(gen));
    RunAgain(before + [EnqueueLock(gen)], step, 3);
    var locked := Apply(s, EnqueueLock(gen));
    assert Again(locked, step, 1) == s.(section := if s.openGen == gen then EnqueueOpen(gen) else Free);
    assert Again(locked, step, 2)
        == s.(section := if s.openGen == gen && s.parentGen == gen then EnqueueReady(gen) else Free);
  }

  /** A stager that takes the mutex and makes its five steps. */
  lemma StagingTakesTheOldest(s: State, gen: nat, id: nat)
    requires LiveInv(s) && Serving(s, gen) && IsOldestQueued(s, gen, id)
    ensures Again(Apply(s, StageLock), SectionStep(false), 5) == WithPhase(s, id, Staged).(staged := Some(id))
  {
    var locked := Apply(s, StageLock);
    var ready := s.(section := StageReady(gen));
    assert Again(locked, SectionStep(false), 1) == s.(section := StageOpen(gen));
    assert Again(locked, SectionStep(false), 2) == s.(section := StageParent(gen));
    assert Again(locked, SectionStep(false), 3) == ready;
    OldestIsFound(ready, gen);
    assert IsCandidate(ready, gen, id);
    assert IsCandidate(s, gen, FirstCandidate(ready, gen, 0).value);
    var picked := WithPhase(s, id, Staged).(section := StagePicked(id));
    assert Again(locked, SectionStep(false), 4) == picked;
  }

  /** Owner `t` stands here, and a staged request of the open generation is waiting. */
  predicate OwnerAt(s: State, t: nat, gen: nat, id: nat, phase: Phase) {
    && s.openGen == gen && s.parentGen == gen && s.cancelGen == 0 && t !in s.owners
    && s.staged == Some(id) && PhaseIs(s, id, phase) && s.requests[id].generation == gen
  }

  lemma OwnerLooks(s: State, t: nat, gen: nat, id: nat, ok: bool)
    requires OwnerAt(s, t, gen, id, Staged)
    ensures Again(Apply(s, OwnerBegin(t, gen)), OwnerStep(t, true, ok), 3) == Moves(s, t, LoadPhase(gen, id))
  {
    var begun, step := Apply(s, OwnerBegin(t, gen)), OwnerStep(t, true, ok);
    assert Again(begun, step, 1) == Moves(s, t, CheckParent(gen, id));
    assert Again(begun, step, 2) == Moves(s, t, CheckOpen(gen, id));
  }

  lemma OwnerActivates(s: State, t: nat, gen: nat, id: nat, ok: bool)
    requires OwnerAt(s, t, gen, id, Staged)
    ensures Again(Moves(s, t, LoadPhase(gen, id)), OwnerStep(t, true, ok), 2)
            == Moves(WithPhase(s, id, Active), t, Progress(gen, id))
  {
    var start, step := Moves(s, t, LoadPhase(gen, id)), OwnerStep(t, true, ok);
    assert Again(start, step, 1) == Moves(s, t, Activate(gen, id));
  }

  lemma OwnerFinishes(s: State, t: nat, gen: nat, id: nat, ok: bool)
    requires OwnerAt(s, t, gen, id, Active)
    ensures Again(Moves(s, t, Progress(gen, id)), OwnerStep(t, true, ok), 2)
            == Moves(WithPhase(s, id, Terminalizing), t, Judge(gen, id, ok))
  {
    var start, step := Moves(s, t, Progress(gen, id)), OwnerStep(t, true, ok);
    assert Again(start, step, 1) == Moves(s, t, Finish(gen, id, ok));
  }

  lemma OwnerJudges(s: State, t: nat, gen: nat, id: nat, ok: bool)
    requires OwnerAt(s, t, gen, id, Terminalizing)
    ensures Again(Moves(s, t, Judge(gen, id, ok)), OwnerStep(t, true, ok), 2) == Moves(s, t, Store(id, ok))
  {
    var start, step := Moves(s, t, Judge(gen, id, ok)), OwnerStep(t, true, ok);
    assert Again(start, step, 1) == Moves(s, t, JudgeOpen(gen, id, ok));
  }

  function Ending(ok: bool): Phase {
    if ok then Completed else Failed
  }

  lemma OwnerStores(s: State, t: nat, gen: nat, id: nat, ok: bool)
    requires OwnerAt(s, t, gen, id, Terminalizing)
    ensures Again(Moves(s, t, Store(id, ok)), OwnerStep(t, true, ok), 2)
            == WithPhase(s, id, Ending(ok)).(staged := None)
  {
    var start, step := Moves(s, t, Store(id, ok)), OwnerStep(t, true, ok);
    var stored := WithPhase(s, id, Ending(ok));
    assert Again(start, step, 1) == Moves(stored, t, Clear(id));
    assert Ends(Moves(stored.(staged := None), t, Clear(id)), t).owners == s.owners;
  }

  /** An owner takes the staged request through its eleven steps. */
  lemma OwnerServes(before: seq<Action>, s: State, t: nat, gen: nat, id: nat, ok: bool)
    requires Run(before) == s && OwnerAt(s, t, gen, id, Staged)
    ensures Run(before + [OwnerBegin(t, gen)] + Copies(OwnerStep(t, true, ok), 11))
            == WithPhase(s, id, Ending(ok)).(staged := None)
  {
    var step := OwnerStep(t, true, ok);
    var first := before + [OwnerBegin(t, gen)];
    RunOne(before, OwnerBegin(t, gen));
    RunAgain(first, step, 3);
    OwnerLooks(s, t, gen, id, ok);
    OwnerTransfers(first + Copies(step, 3), s, t, gen, id, ok);
    assert first + Copies(step, 11) == first + Copies(step, 3) + Copies(step, 8);
  }

  lemma OwnerTransfers(before: seq<Action>, s: State, t: nat, gen: nat, id: nat, ok: bool)
    requires Run(before) == Moves(s, t, LoadPhase(gen, id)) && OwnerAt(s, t, gen, id, Staged)
    ensures Run(before + Copies(OwnerStep(t, true, ok), 8)) == WithPhase(s, id, Ending(ok)).(staged := None)
  {
    var step, active := OwnerStep(t, true, ok), WithPhase(s, id, Active);
    RunAgain(before, step, 2);
    OwnerActivates(s, t, gen, id, ok);
    RunAgain(before + Copies(step, 2), step, 2);
    OwnerFinishes(active, t, gen, id, ok);
    PhaseIsReplaced(s, id, Active, Terminalizing);
    OwnerConcludes(before + Copies(step, 2) + Copies(step, 2), WithPhase(s, id, Terminalizing), t, gen, id, ok);
    PhaseIsReplaced(s, id, Terminalizing, Ending(ok));
    assert before + Copies(step, 8) == before + Copies(step, 2) + Copies(step, 2) + Copies(step, 4);
  }

  lemma OwnerConcludes(before: seq<Action>, s: State, t: nat, gen: nat, id: nat, ok: bool)
    requires Run(before) == Moves(s, t, Judge(gen, id, ok)) && OwnerAt(s, t, gen, id, Terminalizing)
    ensures Run(before + Copies(OwnerStep(t, true, ok), 4)) == WithPhase(s, id, Ending(ok)).(staged := None)
  {
    var step := OwnerStep(t, true, ok);
    RunAgain(before, step, 2);
    OwnerJudges(s, t, gen, id, ok);
    RunAgain(before + Copies(step, 2), step, 2);
    OwnerStores(s, t, gen, id, ok);
    assert before + Copies(step, 4) == before + Copies(step, 2) + Copies(step, 2);
  }

  lemma PhaseIsReplaced(s: State, id: nat, first: Phase, second: Phase)
    ensures WithPhase(WithPhase(s, id, first), id, second) == WithPhase(s, id, second)
  {
    assert id in s.requests ==>
        s.requests[id := s.requests[id].(phase := first)][id := s.requests[id].(phase := second)]
        == s.requests[id := s.requests[id].(phase := second)];
  }

  /** One stager, then one owner `t` whose transfer ends at once with `ok`. */
  function ServeOnce(t: nat, gen: nat, ok: bool): seq<Action> {
    [StageLock] + Copies(SectionStep(false), 5) + [OwnerBegin(t, gen)] + Copies(OwnerStep(t, true, ok), 11)
  }

  lemma RunOne(before: seq<Action>, a: Action)
    ensures Run(before + [a]) == Apply(Run(before), a)
  {
    assert (before + [a])[..|before|] == before;
  }

  /** The oldest queued request of an open mailbox gets the outcome of its transfer, and nothing else changes. */
  lemma OldestIsServed(before: seq<Action>, t: nat, gen: nat, id: nat, ok: bool)
    requires Serving(Run(before), gen) && IsOldestQueued(Run(before), gen, id) && t !in Run(before).owners
    ensures Run(before + ServeOnce(t, gen, ok)) == WithPhase(Run(before), id, Ending(ok))
  {
    var s, step := Run(before), OwnerStep(t, true, ok);
    RunInv(before);
    RunOne(before, StageLock);
    RunAgain(before + [StageLock], SectionStep(false), 5);
    StagingTakesTheOldest(s, gen, id);
    var staging := before + [StageLock] + Copies(SectionStep(false), 5);
    OwnerServes(staging, WithPhase(s, id, Staged).(staged := Some(id)), t, gen, id, ok);
    PhaseIsReplaced(s, id, Staged, Ending(ok));
    assert before + ServeOnce(t, gen, ok) == staging + [OwnerBegin(t, gen)] + Copies(step, 11);
  }

  // ----- A backlog is served in order -------------------------------------

  function QueuedOf(s: State, gen: nat): set<nat> {
    set id | id in s.requests && IsCandidate(s, gen, id)
  }

  lemma {:induction false} OldestExists(s: State, gen: nat) returns (id: nat)
    requires LiveInv(s) && QueuedOf(s, gen) != {}
    ensures IsOldestQueued(s, gen, id)
  {
    OldestIsFound(s, gen);
    var some :| some in QueuedOf(s, gen);
    id := FirstCandidate(s, gen, 0).value;
  }

  /** The backlog of the generation completed; every other request as it was. */
  function Served(s: State, gen: nat): State {
    s.(requests := map id | id in s.requests ::
                     if IsCandidate(s, gen, id) then s.requests[id].(phase := Completed) else s.requests[id])
  }

  lemma ServedAfterOne(s: State, gen: nat, id: nat)
    requires IsCandidate(s, gen, id)
    ensures var s' := WithPhase(s, id, Completed);
            QueuedOf(s', gen) == QueuedOf(s, gen) - {id} && Served(s', gen) == Served(s, gen)
  {
    var s' := WithPhase(s, id, Completed);
    forall other
      ensures IsCandidate(s', gen, other) <==> IsCandidate(s, gen, other) && other != id
    {
    }
    assert Served(s', gen).requests == Served(s, gen).requests;
  }

  lemma ServeTheOldest(before: seq<Action>, t: nat, gen: nat)
    requires Serving(Run(before), gen) && t !in Run(before).owners && QueuedOf(Run(before), gen) != {}
    ensures var s, s' := Run(before), Run(before + ServeOnce(t, gen, true));
            && Serving(s', gen) && t !in s'.owners && Served(s', gen) == Served(s, gen)
            && |QueuedOf(s', gen)| < |QueuedOf(s, gen)|
  {
    RunInv(before);
    var id := OldestExists(Run(before), gen);
    OldestIsServed(before, t, gen, id, true);
    ServedAfterOne(Run(before), gen, id);
    assert id in QueuedOf(Run(before), gen);
  }

  lemma NothingToServe(s: State, gen: nat)
    requires QueuedOf(s, gen) == {}
    ensures Served(s, gen) == s
  {
    assert forall id :: id in s.requests && IsCandidate(s, gen, id) ==> id in QueuedOf(s, gen);
    assert Served(s, gen).requests == s.requests;
  }

  /** Every request queued in an open mailbox can be completed by stagers and successful transfers alone. */
  lemma {:induction false} BacklogIsServed(before: seq<Action>, t: nat, gen: nat) returns (more: seq<Action>)
    requires Serving(Run(before), gen) && t !in Run(before).owners
    ensures Run(before + more) == Served(Run(before), gen)
    decreases |QueuedOf(Run(before), gen)|
  {
    if QueuedOf(Run(before), gen) == {} {
      more := [];
      assert before + more == before;
      NothingToServe(Run(before), gen);
    } else {
      ServeTheOldest(before, t, gen);
      var rest := BacklogIsServed(before + ServeOnce(t, gen, true), t, gen);
      more := ServeOnce(t, gen, true) + rest;
      assert before + more == before + ServeOnce(t, gen, true) + rest;
    }
  }
}
