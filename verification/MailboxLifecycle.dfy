/**
 Opening, closing and cancelling a mailbox when nobody interferes: exactly when an open
 succeeds, that a close fails every unfinished request and asks for the cancellation, and
 that a cancelled mailbox can be opened again.
 */
module MailboxLifecycle {
  import opened Wrappers
  import opened Mailbox
  import opened MailboxOrder

  // ----- Open -------------------------------------------------------------

  /** Nothing is left of an earlier generation. */
  predicate Vacant(s: State) {
    s.openGen == 0 && s.cancelGen == 0 && s.staged == None
  }

  lemma ChecksPass(s: State, gen: nat, forParent: bool)
    requires s.lifecycle == Opening(gen, forParent, 0)
    ensures Again(s, OpenNext, 3) == s.(lifecycle := if Vacant(s) then Opening(gen, forParent, 3) else Quiet)
  {
    assert Again(s, OpenNext, 1) == s.(lifecycle := if s.openGen == 0 then Opening(gen, forParent, 1) else Quiet);
    assert Again(s, OpenNext, 2)
        == s.(lifecycle := if s.openGen == 0 && s.cancelGen == 0 then Opening(gen, forParent, 2) else Quiet);
  }

  lemma OpenStores(s: State, gen: nat, forParent: bool)
    requires s.lifecycle == Opening(gen, forParent, 3)
    ensures Again(s, OpenNext, 2)
            == if forParent || s.parentGen == gen then s.(openGen := gen, lifecycle := Quiet)
               else s.(lifecycle := Quiet)
  {
    assert Again(s, OpenNext, 1)
        == s.(lifecycle := if forParent || s.parentGen == gen then Opening(gen, forParent, 4) else Quiet);
  }

  lemma QuietIgnoresNext(s: State)
    requires s.lifecycle == Quiet
    ensures Again(s, OpenNext, 2) == s
  {
    assert Again(s, OpenNext, 1) == s;
  }

  /** What an open does when the master's generation becomes `parent` between its third and its fourth check. */
  function OpenActions(begin: Action, parent: nat): seq<Action> {
    [begin] + Copies(OpenNext, 3) + [SetParent(parent)] + Copies(OpenNext, 2)
  }

  lemma OpenRuns(before: seq<Action>, begin: Action, parent: nat, gen: nat, forParent: bool)
    requires Apply(Run(before), begin) == Run(before).(lifecycle := Opening(gen, forParent, 0))
    requires Run(before).lifecycle == Quiet
    ensures var s := Run(before);
            Run(before + OpenActions(begin, parent))
            == s.(parentGen := parent,
                  openGen := if Vacant(s) && (forParent || parent == gen) then gen else s.openGen)
  {
    var checked := before + [begin] + Copies(OpenNext, 3);
    OpenChecks(before, begin, gen, forParent);
    OpenEnds(checked, Run(before), parent, gen, forParent);
    OpenRegroups(before, begin, parent);
  }

  lemma OpenRegroups(before: seq<Action>, begin: Action, parent: nat)
    ensures before + OpenActions(begin, parent)
            == before + [begin] + Copies(OpenNext, 3) + [SetParent(parent)] + Copies(OpenNext, 2)
  {
  }

  lemma OpenChecks(before: seq<Action>, begin: Action, gen: nat, forParent: bool)
    requires Apply(Run(before), begin) == Run(before).(lifecycle := Opening(gen, forParent, 0))
    ensures var s := Run(before);
            Run(before + [begin] + Copies(OpenNext, 3))
            == s.(lifecycle := if Vacant(s) then Opening(gen, forParent, 3) else Quiet)
  {
    RunOne(before, begin);
    RunAgain(before + [begin], OpenNext, 3);
    ChecksPass(Run(before + [begin]), gen, forParent);
  }

  lemma OpenEnds(checked: seq<Action>, s: State, parent: nat, gen: nat, forParent: bool)
    requires s.lifecycle == Quiet
    requires Run(checked) == s.(lifecycle := if Vacant(s) then Opening(gen, forParent, 3) else Quiet)
    ensures Run(checked + [SetParent(parent)] + Copies(OpenNext, 2))
            == s.(parentGen := parent,
                  openGen := if Vacant(s) && (forParent || parent == gen) then gen else s.openGen)
  {
    RunOne(checked, SetParent(parent));
    RunAgain(checked + [SetParent(parent)], OpenNext, 2);
    if Vacant(s) {
      OpenStores(Run(checked).(parentGen := parent), gen, forParent);
    } else {
      QuietIgnoresNext(s.(parentGen := parent));
    }
  }

  /**
   Exactly when an open succeeds: there is a master generation, the mailbox is vacant, and the generation is still
   the master's at the last check.
   */
  lemma OpenIsExact(before: seq<Action>, parent: nat)
    requires Run(before).lifecycle == Quiet
    ensures var s, s' := Run(before), Run(before + OpenActions(OpenBegin, parent));
            s' == s.(parentGen := parent,
                     openGen := if s.parentGen != 0 && Vacant(s) && parent == s.parentGen then parent else s.openGen)
  {
    var s := Run(before);
    if s.parentGen != 0 {
      OpenRuns(before, OpenBegin, parent, s.parentGen, false);
    } else {
      NothingBegins(before, OpenBegin, parent);
    }
  }

  /** An open on behalf of the master does not look at the master's generation. */
  lemma OpenForParentIsExact(before: seq<Action>, gen: nat, parent: nat)
    requires Run(before).lifecycle == Quiet
    ensures var s, s' := Run(before), Run(before + OpenActions(OpenForParent(gen), parent));
            s' == s.(parentGen := parent, openGen := if gen != 0 && Vacant(s) then gen else s.openGen)
  {
    if gen != 0 {
      OpenRuns(before, OpenForParent(gen), parent, gen, true);
    } else {
      NothingBegins(before, OpenForParent(gen), parent);
    }
  }

  lemma NothingBegins(before: seq<Action>, begin: Action, parent: nat)
    requires Run(before).lifecycle == Quiet && Apply(Run(before), begin) == Run(before)
    ensures Run(before + OpenActions(begin, parent)) == Run(before).(parentGen := parent)
  {
    var s := Run(before);
    var checked := before + [begin] + Copies(OpenNext, 3);
    RunOne(before, begin);
    RunAgain(before + [begin], OpenNext, 3);
    QuietIgnoresNext(s);
    assert Again(s, OpenNext, 3) == s;
    RunOne(checked, SetParent(parent));
    RunAgain(checked + [SetParent(parent)], OpenNext, 2);
    QuietIgnoresNext(s.(parentGen := parent));
    OpenRegroups(before, begin, parent);
  }

  // ----- Cancel -----------------------------------------------------------

  /** An owner that finds a cancellation asked for clears the slot and the request, if the backend cancels. */
  lemma CancellationIsExact(before: seq<Action>, t: nat, gen: nat, done: bool, ok: bool)
    requires t !in Run(before).owners && Run(before).cancelGen != 0
    ensures var s, s' := Run(before), Run(before + [OwnerBegin(t, gen)] + Copies(OwnerStep(t, done, ok), 2));
            s' == if done && ok then s.(staged := None, cancelGen := 0) else s
  {
    RunOne(before, OwnerBegin(t, gen));
    RunAgain(before + [OwnerBegin(t, gen)], OwnerStep(t, done, ok), 2);
    CancelSteps(Run(before), t, done, ok);
  }

  lemma CancelSteps(s: State, t: nat, done: bool, ok: bool)
    requires t !in s.owners
    ensures Again(Moves(s, t, CancelSeen), OwnerStep(t, done, ok), 2)
            == if done && ok then s.(staged := None, cancelGen := 0) else s
  {
    var begun, step := Moves(s, t, CancelSeen), OwnerStep(t, done, ok);
    assert Again(begun, step, 1) == if done && ok then Moves(s.(staged := None), t, CancelCleared) else Ends(begun, t);
    assert Ends(begun, t).owners == s.owners;
    assert Ends(Moves(s.(staged := None, cancelGen := 0), t, CancelCleared), t).owners == s.owners;
  }

  /** A reset leaves a closed mailbox vacant. */
  lemma ResetVacates(before: seq<Action>)
    requires Run(before).lifecycle == Quiet && Run(before).openGen == 0
    ensures Vacant(Run(before + [Reset]))
    ensures Run(before + [Reset]) == Run(before).(staged := None, cancelGen := 0)
  {
    RunOne(before, Reset);
    ResetStep(Run(before));
  }

  lemma ResetStep(s: State)
    requires s.lifecycle == Quiet && s.openGen == 0
    ensures Apply(s, Reset) == s.(staged := None, cancelGen := 0)
  {
    assert Apply(s, Reset) == StepLifecycle(s, Reset);
  }

  // ----- Close ------------------------------------------------------------

  /** Every unfinished request among `ids` failed; the others as they were. */
  function AllFailed(s: State, ids: set<nat>): State {
    s.(requests := map id | id in s.requests ::
                     if id in ids && !Terminal(s.requests[id].phase) then s.requests[id].(phase := Failed)
                     else s.requests[id])
  }

  predicate NoneTerminalizing(s: State, ids: set<nat>) {
    forall id :: id in ids && id in s.requests ==> s.requests[id].phase != Terminalizing
  }

  /** One request of a close that nobody disturbs. */
  lemma FailOne(before: seq<Action>, gen: nat, todo: set<nat>, id: nat) returns (more: seq<Action>)
    requires Run(before).section == FailScan(gen, todo) && id in todo && id in Run(before).requests
    requires Run(before).requests[id].phase != Terminalizing
    ensures Run(before + more) == AllFailed(Run(before), {id}).(section := FailScan(gen, todo - {id}))
  {
    var s := Run(before);
    var looking := before + [FailNext(id)];
    RunOne(before, FailNext(id));
    if Terminal(s.requests[id].phase) {
      more := [FailNext(id)];
      assert AllFailed(s, {id}).requests == s.requests;
    } else {
      more := [FailNext(id)] + Copies(SectionStep(false), 2);
      RunAgain(looking, SectionStep(false), 2);
      FailSteps(s, gen, todo - {id}, id);
      assert looking + Copies(SectionStep(false), 2) == before + more;
    }
  }

  lemma FailSteps(s: State, gen: nat, rest: set<nat>, id: nat)
    requires id in s.requests && s.requests[id].phase in {Queued, Staged, Active}
    ensures Again(s.(section := FailLook(gen, rest, id, s.requests[id].phase)), SectionStep(false), 2)
            == AllFailed(s, {id}).(section := FailScan(gen, rest))
  {
    var look := s.(section := FailLook(gen, rest, id, s.requests[id].phase));
    assert Again(look, SectionStep(false), 1)
        == WithPhase(s, id, Terminalizing).(section := FailMark(gen, rest, id));
    PhaseIsReplaced(s, id, Terminalizing, Failed);
    assert WithPhase(s, id, Failed).requests == AllFailed(s, {id}).requests;
  }

  lemma FailedTogether(s: State, id: nat, rest: set<nat>)
    ensures AllFailed(AllFailed(s, {id}), rest) == AllFailed(s, {id} + rest)
  {
    assert AllFailed(AllFailed(s, {id}), rest).requests == AllFailed(s, {id} + rest).requests;
  }

  lemma {:induction false} FailAll(before: seq<Action>, gen: nat, todo: set<nat>) returns (more: seq<Action>)
    requires Run(before).section == FailScan(gen, todo) && todo <= Run(before).requests.Keys
    requires NoneTerminalizing(Run(before), todo)
    ensures Run(before + more) == AllFailed(Run(before), todo).(section := FailScan(gen, {}))
    decreases |todo|
  {
    var s := Run(before);
    if todo == {} {
      more := [];
      assert before + more == before && AllFailed(s, {}).requests == s.requests;
    } else {
      var id :| id in todo;
      var first := FailOne(before, gen, todo, id);
      var rest := FailAll(before + first, gen, todo - {id});
      more := first + rest;
      assert before + more == before + first + rest;
      FailedTogether(s, id, todo - {id});
      assert {id} + (todo - {id}) == todo;
    }
  }

  /**
   A close that finds no outcome about to be stored runs through: afterwards every request of the generation that
   was unfinished has failed, the mailbox is closed, and an owner is asked to cancel what is staged.
   */
  lemma CloseRunsThrough(before: seq<Action>) returns (more: seq<Action>)
    requires var s := Run(before);
             && s.lifecycle == Quiet && s.section == Free && s.openGen != 0
             && NoneTerminalizing(s, OfGeneration(s, s.openGen))
    ensures var s := Run(before);
            Run(before + more)
            == AllFailed(s, OfGeneration(s, s.openGen)).(openGen := 0, cancelGen := s.openGen)
  {
    more := CloseWith(before, CloseBegin, Run(before).openGen, 0, true);
  }

  /** A close on behalf of the master closes that generation only, and asks for no cancellation. */
  lemma CloseForParentRunsThrough(before: seq<Action>, gen: nat) returns (more: seq<Action>)
    requires var s := Run(before);
             && s.lifecycle == Quiet && s.section == Free && gen != 0 && NoneTerminalizing(s, OfGeneration(s, gen))
    ensures var s := Run(before);
            Run(before + more)
            == AllFailed(s, OfGeneration(s, gen)).(openGen := if s.openGen == gen then 0 else s.openGen)
  {
    var open := if Run(before).openGen == gen then 0 else Run(before).openGen;
    more := CloseWith(before, CloseForParent(gen), gen, open, false);
  }

  /** What a close in progress keeps while it fails the requests. */
  function Closing(s: State, gen: nat, todo: set<nat>, open: nat, cancel: bool): State {
    s.(openGen := open, section := FailScan(gen, todo), lifecycle := Failing(gen, cancel))
  }

  /** The close that this action begins. */
  predicate Begins(s: State, begin: Action, gen: nat, open: nat, cancel: bool) {
    && s.lifecycle == Quiet && s.section == Free
    && Apply(s, begin) == s.(openGen := open, lifecycle := Lifecycle.Closing(gen, cancel))
  }

  lemma CloseWith(before: seq<Action>, begin: Action, gen: nat, open: nat, cancel: bool) returns (more: seq<Action>)
    requires Begins(Run(before), begin, gen, open, cancel)
    requires NoneTerminalizing(Run(before), OfGeneration(Run(before), gen))
    ensures var s := Run(before);
            Run(before + more)
            == AllFailed(s, OfGeneration(s, gen)).(openGen := open, cancelGen := if cancel then gen else s.cancelGen)
  {
    var ids := OfGeneration(Run(before), gen);
    var scan := before + [begin] + [CloseLock];
    CloseStarts(before, begin, gen, open, cancel);
    var failing := FailAll(scan, gen, ids);
    CloseEnds(scan + failing, AllFailed(Run(before), ids), gen, open, cancel);
    more := CloseActions(begin, failing);
    CloseRegroups(before, begin, failing);
  }

  function CloseActions(begin: Action, failing: seq<Action>): seq<Action> {
    [begin] + [CloseLock] + failing + [CloseUnlock] + [CloseEnd]
  }

  lemma CloseRegroups(before: seq<Action>, begin: Action, failing: seq<Action>)
    ensures before + CloseActions(begin, failing)
            == before + [begin] + [CloseLock] + failing + [CloseUnlock] + [CloseEnd]
  {
  }

  lemma CloseStarts(before: seq<Action>, begin: Action, gen: nat, open: nat, cancel: bool)
    requires Begins(Run(before), begin, gen, open, cancel)
    ensures var s := Run(before);
            Run(before + [begin] + [CloseLock]) == Closing(s, gen, OfGeneration(s, gen), open, cancel)
  {
    RunOne(before, begin);
    RunOne(before + [begin], CloseLock);
    assert OfGeneration(Run(before + [begin]), gen) == OfGeneration(Run(before), gen);
  }

  lemma CloseEnds(done: seq<Action>, s: State, gen: nat, open: nat, cancel: bool)
    requires Run(done) == Closing(s, gen, {}, open, cancel) && s.section == Free && s.lifecycle == Quiet
    ensures Run(done + [CloseUnlock] + [CloseEnd])
            == s.(openGen := open, cancelGen := if cancel then gen else s.cancelGen)
  {
    RunOne(done, CloseUnlock);
    RunOne(done + [CloseUnlock], CloseEnd);
  }

  /**
   Closed, cancelled and opened again: the mailbox then serves the master's generation with nothing left over, and
   requests of the new life are served as `OldestIsServed` says.
   */
  lemma CloseThenReopen(before: seq<Action>, t: nat) returns (more: seq<Action>)
    requires var s := Run(before);
             && s.lifecycle == Quiet && s.section == Free && s.openGen != 0 && s.parentGen != 0 && t !in s.owners
             && NoneTerminalizing(s, OfGeneration(s, s.openGen))
    ensures var s, s' := Run(before), Run(before + more);
            Serving(s', s.parentGen) && s'.requests == AllFailed(s, OfGeneration(s, s.openGen)).requests
  {
    var s := Run(before);
    var closing := CloseRunsThrough(before);
    var closed := before + closing;
    var cancelling := [OwnerBegin(t, 0)] + Copies(OwnerStep(t, true, true), 2);
    CancellationIsExact(closed, t, 0, true, true);
    assert closed + cancelling == closed + [OwnerBegin(t, 0)] + Copies(OwnerStep(t, true, true), 2);
    OpenIsExact(closed + cancelling, s.parentGen);
    more := closing + cancelling + OpenActions(OpenBegin, s.parentGen);
    assert before + more == closed + cancelling + OpenActions(OpenBegin, s.parentGen);
  }
}
