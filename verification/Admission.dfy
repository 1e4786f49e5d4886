/**
 Admission of realtime cycles to the EtherCAT master: one word carries the open
 bit and the number of admitted cycles. Any number of cycle threads race one
 lifecycle thread (open and close exclude each other by a mutex).
 */
module Admission {
  import opened Wrappers

  const OPEN_BIT: nat := 0x8000_0000_0000_0000
  const COUNT_MASK: nat := 0x7FFF_FFFF_FFFF_FFFF

  predicate IsOpen(word: nat) {
    (word / OPEN_BIT) % 2 == 1
  }

  function Count(word: nat): nat {
    word % OPEN_BIT
  }

  /** The word a cycle tries to install, or nothing when it must not be admitted. */
  function Successor(observed: nat): Option<nat> {
    if !IsOpen(observed) || Count(observed) == COUNT_MASK then None else Some(observed + 1)
  }

  /** `Notifying`: out of the count, but the call that wakes the closer is still to come. */
  datatype Thread = Observing(seen: nat) | Inside | Notifying

  datatype Lifecycle =
    | Quiet
    | Opening
    | Activated
    | Draining
    | Waiting(seen: nat)
    | Blocked(seen: nat)
    | Drained

  /** `backendActive` is history: true between a successful activate and the next deactivate.
      `calls` records, for every backend call made by a cycle, whether the backend was active. */
  datatype State = State(
    word: nat, threads: map<nat, Thread>, lifecycle: Lifecycle, backendActive: bool, calls: seq<bool>)

  datatype Action =
    | Arrive(thread: nat)
    | TryEnter(thread: nat, spurious: bool)
    | BackendCall(thread: nat)
    | Leave(thread: nat)
    | Notify(thread: nat)
    | OpenBegin
    | OpenActivate(ok: bool)
    | OpenRollback
    | OpenStore
    | CloseGate
    | DrainLoad
    | WaitCheck
    | SpuriousWake
    | Deactivate

  const INIT := State(0, map[], Quiet, false, [])

  // ----- Steps ------------------------------------------------------------

  function EnterStep(s: State, t: nat, spurious: bool): State
    requires t in s.threads && s.threads[t].Observing?
  {
    var seen := s.threads[t].seen;
    var desired := Successor(seen);
    if desired.None? then s.(threads := s.threads - {t})
    else if s.word == seen && !spurious then s.(word := desired.value, threads := s.threads[t := Inside])
    else s.(threads := s.threads[t := Observing(s.word)])
  }

  /** `fetch_sub(1)`: the last cycle to leave a closed gate has yet to notify the closer. */
  function LeaveStep(s: State, t: nat): State {
    s.(word := if s.word > 0 then s.word - 1 else 0xFFFF_FFFF_FFFF_FFFF,
       threads := if !IsOpen(s.word) && Count(s.word) == 1 then s.threads[t := Notifying] else s.threads - {t})
  }

  /** `notify_all`: a blocked closer goes back to compare the word. */
  function NotifyStep(s: State, t: nat): State {
    s.(threads := s.threads - {t},
       lifecycle := if s.lifecycle.Blocked? then Waiting(s.lifecycle.seen) else s.lifecycle)
  }

  function LifecycleStep(s: State, a: Action): State {
    match (s.lifecycle, a)
    case (Quiet, OpenBegin) => if IsOpen(s.word) then s else s.(lifecycle := Opening)
    case (Opening, OpenActivate(ok)) =>
      if ok then s.(backendActive := true, lifecycle := Activated) else s.(backendActive := false, lifecycle := Quiet)
    case (Activated, OpenRollback) => s.(backendActive := false, lifecycle := Quiet)
    case (Activated, OpenStore) => s.(word := OPEN_BIT, lifecycle := Quiet)
    case (Quiet, CloseGate) =>
      s.(word := Count(s.word), lifecycle := if IsOpen(s.word) then Draining else Quiet)
    case (Draining, DrainLoad) =>
      s.(lifecycle := if Count(s.word) == 0 then Drained else Waiting(s.word))
    case (Waiting(seen), WaitCheck) =>
      s.(lifecycle := if s.word == seen then Blocked(seen) else Draining)
    case (Blocked(seen), SpuriousWake) => s.(lifecycle := Waiting(seen))
    case (Drained, Deactivate) => s.(backendActive := false, lifecycle := Quiet)
    case _ => s
  }

  function Apply(s: State, a: Action): State {
    match a
    case Arrive(t) => if t in s.threads then s else s.(threads := s.threads[t := Observing(s.word)])
    case TryEnter(t, spurious) =>
      if t in s.threads && s.threads[t].Observing? then EnterStep(s, t, spurious) else s
    case BackendCall(t) =>
      if t in s.threads && s.threads[t].Inside? then s.(calls := s.calls + [s.backendActive]) else s
    case Leave(t) => if t in s.threads && s.threads[t].Inside? then LeaveStep(s, t) else s
    case Notify(t) => if t in s.threads && s.threads[t].Notifying? then NotifyStep(s, t) else s
    case _ => LifecycleStep(s, a)
  }

  function Run(actions: seq<Action>): State {
    if actions == [] then INIT else Apply(Run(actions[..|actions| - 1]), actions[|actions| - 1])
  }

  // ----- Invariant --------------------------------------------------------

  function Admitted(s: State): set<nat> {
    set t | t in s.threads && s.threads[t].Inside?
  }

  predicate Notifies(s: State, t: nat) {
    t in s.threads && s.threads[t].Notifying?
  }

  /** Someone who will wake the closer: a cycle still admitted, or the last one on its way out. */
  ghost predicate WakeUpIsComing(s: State) {
    Admitted(s) != {} || exists t :: Notifies(s, t)
  }

  ghost predicate Inv(s: State) {
    var n := |Admitted(s)|;
    && n <= COUNT_MASK
    && (s.word == n || s.word == OPEN_BIT + n)
    && (forall i :: 0 <= i < |s.calls| ==> s.calls[i])
    && (Admitted(s) != {} || s.word >= OPEN_BIT ==> s.backendActive)
    && match s.lifecycle
       case Quiet => s.word < OPEN_BIT ==> Admitted(s) == {}
       case Opening => s.word == 0
       case Activated => s.word == 0 && s.backendActive
       case Draining => s.word < OPEN_BIT
       case Waiting(seen) => s.word < OPEN_BIT && seen > 0
       case Blocked(seen) => s.word < OPEN_BIT && seen > 0 && WakeUpIsComing(s)
       case Drained => s.word == 0
  }

  lemma WordParts(s: State)
    requires Inv(s)
    ensures Count(s.word) == |Admitted(s)|
    ensures IsOpen(s.word) <==> s.word >= OPEN_BIT
  {
  }

  lemma EnterKeeps(s: State, t: nat, spurious: bool)
    requires Inv(s) && t in s.threads && s.threads[t].Observing?
    ensures Inv(EnterStep(s, t, spurious))
    ensures Admitted(EnterStep(s, t, spurious)) == Admitted(s)
            || (IsOpen(s.word) && Admitted(EnterStep(s, t, spurious)) == Admitted(s) + {t})
  {
    WordParts(s);
    var s' := EnterStep(s, t, spurious);
    if s.word == s.threads[t].seen && !spurious && Successor(s.word).Some? {
      assert Admitted(s') == Admitted(s) + {t};
    } else {
      assert Admitted(s') == Admitted(s);
    }
    NotifiersStay(s, s', t);
  }

  lemma LeaveKeeps(s: State, t: nat)
    requires Inv(s) && t in s.threads && s.threads[t].Inside?
    ensures Inv(LeaveStep(s, t))
    ensures Admitted(LeaveStep(s, t)) == Admitted(s) - {t}
  {
    var s' := LeaveStep(s, t);
    WordParts(s);
    assert t in Admitted(s);
    assert Admitted(s') == Admitted(s) - {t};
    if |Admitted(s)| == 1 {
      assert Admitted(s) - {t} == {};
    }
    if s.lifecycle.Blocked? && Count(s.word) == 1 {
      assert Notifies(s', t);
    }
  }

  lemma NotifyKeeps(s: State, t: nat)
    requires Inv(s) && Notifies(s, t)
    ensures Inv(NotifyStep(s, t))
    ensures Admitted(NotifyStep(s, t)) == Admitted(s)
  {
    assert Admitted(NotifyStep(s, t)) == Admitted(s);
  }

  lemma LifecycleKeeps(s: State, a: Action)
    requires Inv(s)
    ensures Inv(LifecycleStep(s, a))
    ensures Admitted(LifecycleStep(s, a)) == Admitted(s)
  {
    WordParts(s);
    assert Admitted(LifecycleStep(s, a)) == Admitted(s);
  }

  lemma ArriveKeeps(s: State, t: nat)
    requires Inv(s) && t !in s.threads
    ensures Inv(Apply(s, Arrive(t)))
    ensures Admitted(Apply(s, Arrive(t))) == Admitted(s)
  {
    var s' := Apply(s, Arrive(t));
    assert Admitted(s') == Admitted(s);
    NotifiersStay(s, s', t);
  }

  lemma NotifiersStay(s: State, s': State, t: nat)
    requires !Notifies(s, t)
    requires forall u :: u in s.threads && u != t ==> u in s'.threads && s'.threads[u] == s.threads[u]
    requires Admitted(s') >= Admitted(s)
    ensures WakeUpIsComing(s) ==> WakeUpIsComing(s')
  {
    if u :| Notifies(s, u) {
      assert Notifies(s', u);
    }
  }

  lemma CallKeeps(s: State, t: nat)
    requires Inv(s)
    ensures Inv(Apply(s, BackendCall(t))) && Admitted(Apply(s, BackendCall(t))) == Admitted(s)
  {
    var s' := Apply(s, BackendCall(t));
    assert Admitted(s') == Admitted(s);
    if t in s.threads && s.threads[t].Inside? {
      assert t in Admitted(s);
    }
    assert forall u :: Notifies(s', u) <==> Notifies(s, u);
  }

  lemma ApplyKeepsInv(s: State, a: Action)
    requires Inv(s)
    ensures Inv(Apply(s, a))
    ensures !IsOpen(s.word) ==> Admitted(Apply(s, a)) <= Admitted(s)
  {
    match a
    case Arrive(t) =>
      if t !in s.threads {
        ArriveKeeps(s, t);
      }
    case TryEnter(t, spurious) =>
      if t in s.threads && s.threads[t].Observing? {
        EnterKeeps(s, t, spurious);
      }
    case BackendCall(t) => CallKeeps(s, t);
    case Leave(t) =>
      if t in s.threads && s.threads[t].Inside? {
        LeaveKeeps(s, t);
      }
    case Notify(t) =>
      if Notifies(s, t) {
        NotifyKeeps(s, t);
      }
    case _ => LifecycleKeeps(s, a);
  }

  lemma {:induction false} RunInv(actions: seq<Action>)
    ensures Inv(Run(actions))
  {
    if actions != [] {
      RunInv(actions[..|actions| - 1]);
      ApplyKeepsInv(Run(actions[..|actions| - 1]), actions[|actions| - 1]);
    } else {
      assert Admitted(INIT) == {};
    }
  }

  // ----- Theorems over every interleaving ---------------------------------

  /** The word never overflows or borrows: its low bits count the admitted cycles, its top bit is the gate. */
  lemma CountIsExact(actions: seq<Action>)
    ensures var s := Run(actions);
            && s.word <= 0xFFFF_FFFF_FFFF_FFFF
            && Count(s.word) == |Admitted(s)|
            && s.word == Count(s.word) + (if IsOpen(s.word) then OPEN_BIT else 0)
  {
    RunInv(actions);
    WordParts(Run(actions));
  }

  /** A cycle reaches the backend only while it is active, and deactivate runs only with no cycle admitted. */
  lemma BackendIsGuarded(actions: seq<Action>)
    ensures var s := Run(actions);
            && (forall i :: 0 <= i < |s.calls| ==> s.calls[i])
            && (Admitted(s) != {} ==> s.backendActive)
            && (s.lifecycle in {Drained, Opening, Activated} ==> Admitted(s) == {})
            && (forall a :: s.backendActive && !Apply(s, a).backendActive ==> Admitted(s) == {})
  {
    RunInv(actions);
    var s := Run(actions);
    WordParts(s);
    forall a | s.backendActive && !Apply(s, a).backendActive
      ensures Admitted(s) == {}
    {
      OnlyLifecycleDeactivates(s, a);
    }
  }

  lemma OnlyLifecycleDeactivates(s: State, a: Action)
    requires Inv(s) && s.backendActive && !Apply(s, a).backendActive
    ensures s.lifecycle in {Drained, Opening, Activated}
    ensures Admitted(s) == {}
  {
    WordParts(s);
  }

  predicate Reopens(a: Action) {
    a == OpenStore
  }

  /** From the closing step until the next open, the admitted cycles only ever decrease. */
  lemma {:induction false} NothingEntersAClosedGate(before: seq<Action>, after: seq<Action>)
    requires !IsOpen(Run(before).word)
    requires forall i :: 0 <= i < |after| ==> !Reopens(after[i])
    ensures !IsOpen(Run(before + after).word)
    ensures Admitted(Run(before + after)) <= Admitted(Run(before))
    decreases |after|
  {
    if after == [] {
      assert before + after == before;
    } else {
      var earlier, a := after[..|after| - 1], after[|after| - 1];
      NothingEntersAClosedGate(before, earlier);
      RunInv(before + earlier);
      RunLast(before, after);
      ApplyKeepsInv(Run(before + earlier), a);
      StaysClosed(Run(before + earlier), a);
    }
  }

  lemma LastOfConcat(before: seq<Action>, after: seq<Action>)
    requires after != []
    ensures var all := before + after;
            all[..|all| - 1] == before + after[..|after| - 1] && all[|all| - 1] == after[|after| - 1]
  {
  }

  lemma RunLast(before: seq<Action>, after: seq<Action>)
    requires after != []
    ensures Run(before + after) == Apply(Run(before + after[..|after| - 1]), after[|after| - 1])
  {
    LastOfConcat(before, after);
  }

  lemma StaysClosed(s: State, a: Action)
    requires Inv(s) && !IsOpen(s.word) && !Reopens(a)
    ensures !IsOpen(Apply(s, a).word)
  {
    WordParts(s);
    ApplyKeepsInv(s, a);
    WordParts(Apply(s, a));
    match a
    case Arrive(t) =>
    case TryEnter(t, spurious) =>
    case BackendCall(t) =>
    case Leave(t) =>
      if t in s.threads && s.threads[t].Inside? {
        assert t in Admitted(s);
      }
    case Notify(t) =>
    case _ =>
  }

  /**
   No wake-up is lost: a closer that sleeps waits for a cycle that is still admitted, or for one
   that has left and is about to notify; any notification sends it back to compare the word.
   */
  lemma NoLostWakeup(actions: seq<Action>)
    ensures var s := Run(actions);
            s.lifecycle.Blocked? ==>
              && WakeUpIsComing(s)
              && forall t :: Notifies(s, t) ==> Apply(s, Notify(t)).lifecycle == Waiting(s.lifecycle.seen)
  {
    RunInv(actions);
  }

  /** The notifier is needed: a closer can sleep after the last cycle has left, until the notification comes. */
  lemma CloserCanSleepPastTheLastCycle() returns (actions: seq<Action>)
    ensures var s := Run(actions); s.lifecycle.Blocked? && s.word == 0 && Admitted(s) == {} && Notifies(s, 0)
  {
    actions := BlockTheCloser();
    actions := Do(actions, Leave(0));
    assert Admitted(Run(actions)) == {};
  }

  lemma OpenTheGate() returns (actions: seq<Action>)
    ensures Run(actions) == State(OPEN_BIT, map[], Quiet, true, [])
  {
    actions := Do([], OpenBegin);
    actions := Do(actions, OpenActivate(true));
    actions := Do(actions, OpenStore);
  }

  lemma AdmitOneCycle() returns (actions: seq<Action>)
    ensures Run(actions) == State(OPEN_BIT + 1, map[0 := Inside], Quiet, true, [])
  {
    actions := OpenTheGate();
    actions := Do(actions, Arrive(0));
    actions := Do(actions, TryEnter(0, false));
  }

  lemma CloseTheGate() returns (actions: seq<Action>)
    ensures Run(actions) == State(1, map[0 := Inside], Draining, true, [])
  {
    actions := AdmitOneCycle();
    assert IsOpen(OPEN_BIT + 1) && Count(OPEN_BIT + 1) == 1;
    actions := Do(actions, CloseGate);
  }

  lemma BlockTheCloser() returns (actions: seq<Action>)
    ensures Run(actions) == State(1, map[0 := Inside], Blocked(1), true, [])
  {
    actions := CloseTheGate();
    assert Count(1) == 1;
    actions := Do(actions, DrainLoad);
    assert Run(actions).lifecycle == Waiting(1);
    actions := Do(actions, WaitCheck);
  }

  lemma Do(actions: seq<Action>, a: Action) returns (longer: seq<Action>)
    ensures Run(longer) == Apply(Run(actions), a)
  {
    longer := actions + [a];
    assert longer[..|longer| - 1] == actions;
  }

  /** What the closer does once it is awake. */
  function Check(s: State): State {
    Apply(Apply(s, WaitCheck), DrainLoad)
  }

  /**
   Once the last cycle has left, the closer reaches deactivation: at once if it is awake, and
   else after the notification that is then still to come, whichever notifier it is.
   */
  lemma DrainFinishes(actions: seq<Action>)
    requires Admitted(Run(actions)) == {}
    requires var l := Run(actions).lifecycle; l.Draining? || l.Waiting? || l.Blocked?
    ensures var s := Run(actions);
            && (!s.lifecycle.Blocked? ==> Check(s).lifecycle == Drained)
            && (s.lifecycle.Blocked? ==>
                  && (exists t :: Notifies(s, t))
                  && forall t :: Notifies(s, t) ==> Check(Apply(s, Notify(t))).lifecycle == Drained)
  {
    RunInv(actions);
    var s := Run(actions);
    if s.lifecycle.Blocked? {
      forall t | Notifies(s, t)
        ensures Check(Apply(s, Notify(t))).lifecycle == Drained
      {
        NotifyKeeps(s, t);
        AwakeDrains(NotifyStep(s, t));
      }
    } else {
      AwakeDrains(s);
    }
  }

  lemma AwakeDrains(s: State)
    requires Inv(s) && Admitted(s) == {} && (s.lifecycle.Draining? || s.lifecycle.Waiting?)
    ensures Check(s).lifecycle == Drained
  {
    WordParts(s);
  }

  /** While the gate is open and not full, an undisturbed cycle is admitted. */
  lemma OpenGateAdmits(actions: seq<Action>, t: nat)
    requires var s := Run(actions); IsOpen(s.word) && |Admitted(s)| < COUNT_MASK && t !in s.threads
    ensures t in Admitted(Apply(Apply(Run(actions), Arrive(t)), TryEnter(t, false)))
  {
    RunInv(actions);
    WordParts(Run(actions));
  }

  /**
   A cycle is turned away only on a word it saw closed or full, never because it lost a race: whoever loses one
   looks at the word again.
   */
  lemma TurnedAwayOnlyWhenClosedOrFull(actions: seq<Action>, a: Action, t: nat)
    requires var s := Run(actions); t in s.threads && s.threads[t].Observing?
    ensures var s, s' := Run(actions), Apply(Run(actions), a);
            var seen := s.threads[t].seen;
            if t !in s'.threads
            then a.TryEnter? && (seen < OPEN_BIT || seen % OPEN_BIT == 0x7FFF_FFFF_FFFF_FFFF)
            else s'.threads[t] in {Observing(seen), Observing(s.word), Inside}
  {
    SeenIsAWord(actions, t);
  }

  /** A word held by the 64-bit atomic. */
  predicate IsWord(word: nat) {
    word <= 0xFFFF_FFFF_FFFF_FFFF
  }

  lemma {:induction false} SeenIsAWord(actions: seq<Action>, t: nat)
    requires var s := Run(actions); t in s.threads && s.threads[t].Observing?
    ensures IsWord(Run(actions).threads[t].seen)
  {
    if actions != [] {
      var earlier := actions[..|actions| - 1];
      CountIsExact(earlier);
      if t in Run(earlier).threads && Run(earlier).threads[t].Observing? {
        SeenIsAWord(earlier, t);
      }
    }
  }

  // ----- When the backend is active ---------------------------------------

  /** From a successful activation to the deactivation, through the open gate and the whole of the draining. */
  predicate BackendDue(s: State) {
    s.word >= OPEN_BIT || s.lifecycle.Activated? || s.lifecycle.Draining? || s.lifecycle.Waiting?
    || s.lifecycle.Blocked? || s.lifecycle.Drained?
  }

  lemma BackendStep(s: State, a: Action)
    requires Inv(s) && (s.backendActive <==> BackendDue(s))
    ensures Apply(s, a).backendActive <==> BackendDue(Apply(s, a))
  {
    WordParts(s);
    ApplyKeepsInv(s, a);
    match a
    case Arrive(t) =>
    case TryEnter(t, spurious) =>
    case BackendCall(t) =>
    case Leave(t) =>
      if t in s.threads && s.threads[t].Inside? {
        assert t in Admitted(s);
      }
    case Notify(t) =>
    case _ =>
  }

  /** In every run the backend is active exactly from a successful activation until the drained gate gives it up. */
  lemma {:induction false} BackendActiveExactlyWhen(actions: seq<Action>)
    ensures Run(actions).backendActive <==> BackendDue(Run(actions))
  {
    if actions != [] {
      RunInv(actions[..|actions| - 1]);
      BackendActiveExactlyWhen(actions[..|actions| - 1]);
      BackendStep(Run(actions[..|actions| - 1]), actions[|actions| - 1]);
    }
  }
}
