/**
 Progress of the two-slot snapshot: the writer never waits for a reader, and a read gives up
 only when at least as many writer steps as it has attempts have disturbed it.
 */
module SnapshotProgress {
  import opened LocalSnapshot

  function WriterSteps(actions: seq<Action>): nat {
    if actions == [] then 0
    else WriterSteps(actions[..|actions| - 1]) + (if actions[|actions| - 1].WriterStep? then 1 else 0)
  }

  // ----- A publication takes effect ---------------------------------------

  /** Where the writer stands after `k` of its own steps for `value`, from the history `before`. */
  predicate Publishes(s: State, before: seq<Value>, value: Value, k: nat) {
    if k >= s.width + 4 then s.writer == Resting && s.history == before + [value]
    else
      && s.history == before && !s.writer.Resting? && s.writer.value == value
      && (k == 0 <==> s.writer.Targeting?) && (k == 1 <==> s.writer.Claimed?)
      && (s.writer.Storing? ==> s.writer.next == k - 2) && (k == s.width + 3 <==> s.writer.Swapping?)
  }

  lemma PublishBegins(s: State, value: Value)
    requires WriterInv(s) && s.writer.Resting? && |value| == s.width
    ensures Publishes(Apply(s, Publish(value)), s.history, value, 0)
  {
  }

  lemma WriterMovesOn(s: State, before: seq<Value>, value: Value, k: nat)
    requires WriterInv(s) && Publishes(s, before, value, k)
    ensures Publishes(Apply(s, WriterStep), before, value, k + 1)
  {
  }

  lemma ReadersDoNotDelay(s: State, a: Action, before: seq<Value>, value: Value, k: nat)
    requires |s.slots| == 2 && (a.StartRead? || a.ReaderStep?) && Publishes(s, before, value, k)
    ensures Publishes(Apply(s, a), before, value, k)
  {
  }

  lemma {:induction false} PublicationMovesOn(width: nat, before: seq<Action>, value: Value, after: seq<Action>)
    requires Run(width, before).writer.Resting? && |value| == width
    requires forall i :: 0 <= i < |after| ==> !after[i].Publish?
    ensures Publishes(Run(width, before + [Publish(value)] + after), Run(width, before).history, value,
                      WriterSteps(after))
    decreases |after|
  {
    var start := before + [Publish(value)];
    if after == [] {
      assert start + after == start && start[..|before|] == before;
      RunInv(width, before);
      WidthStays(width, before);
      PublishBegins(Run(width, before), value);
    } else {
      var earlier, a := after[..|after| - 1], after[|after| - 1];
      PublicationMovesOn(width, before, value, earlier);
      assert (start + after)[..|start + after| - 1] == start + earlier;
      RunInv(width, start + earlier);
      if a.WriterStep? {
        WriterMovesOn(Run(width, start + earlier), Run(width, before).history, value, WriterSteps(earlier));
      } else {
        ReadersDoNotDelay(Run(width, start + earlier), a, Run(width, before).history, value, WriterSteps(earlier));
      }
    }
  }

  lemma {:induction false} WidthStays(width: nat, actions: seq<Action>)
    ensures Run(width, actions).width == width
  {
    if actions != [] {
      WidthStays(width, actions[..|actions| - 1]);
    }
  }

  /**
   Whatever the readers do meanwhile, a publication is the active content from the writer's fourth step after its
   last word on, and not before.
   */
  lemma PublicationIsWaitFree(width: nat, before: seq<Action>, value: Value, after: seq<Action>)
    requires Run(width, before).writer.Resting? && |value| == width
    requires forall i :: 0 <= i < |after| ==> !after[i].Publish?
    ensures var s, s' := Run(width, before), Run(width, before + [Publish(value)] + after);
            if WriterSteps(after) < width + 4 then s'.history == s.history && !s'.writer.Resting?
            else s'.history == s.history + [value] && s'.writer.Resting?
                 && s'.active < 2 && s'.slots[s'.active].words == value
  {
    var all := before + [Publish(value)] + after;
    PublicationMovesOn(width, before, value, after);
    WidthStays(width, all);
    RunInv(width, all);
    if WriterSteps(after) >= width + 4 {
      ActiveSlotHoldsLatest(Run(width, all));
    }
  }

  // ----- A read gives up only when disturbed ------------------------------

  /** The attempt in progress has seen nothing but the content that is active now. */
  predicate Undisturbed(s: State, stage: ReadStage)
    requires |s.slots| == 2
  {
    match stage
    case Attempting => true
    case Located(slot) => slot == s.active
    case Copying(slot, before, _) => slot == s.active < 2 && before == s.slots[slot].guard && before % 2 == 0
    case Checking(slot, before, _, after) => slot == s.active < 2 && before == after && before % 2 == 0
  }

  /** `steps` writer steps so far: each failed attempt of the read was met by one of those after its start. */
  predicate AttemptsPaid(s: State, r: Reader, since: nat, steps: nat)
    requires |s.slots| == 2
  {
    since <= steps && r.attempt <= steps - since && (r.attempt == steps - since ==> Undisturbed(s, r.stage))
  }

  lemma ActiveIsEven(s: State)
    requires WriterInv(s) && s.active < 2
    ensures s.slots[s.active].guard % 2 == 0
  {
  }

  lemma OwnReadStepPays(s: State, id: nat, since: nat, steps: nat)
    requires WriterInv(s) && id in s.readers && AttemptsPaid(s, s.readers[id], since, steps)
    ensures var s' := ReadStep(s, id); id in s'.readers ==> AttemptsPaid(s', s'.readers[id], since, steps)
  {
    if s.active < 2 {
      ActiveIsEven(s);
    }
  }

  /** The number of writer steps before instant `t`. */
  function StepsBefore(actions: seq<Action>, t: nat): nat
    requires t <= |actions|
  {
    WriterSteps(actions[..t])
  }

  lemma {:induction false} StepsGrow(actions: seq<Action>, i: nat, j: nat)
    requires i <= j <= |actions|
    ensures StepsBefore(actions, i) <= StepsBefore(actions, j)
    decreases j - i
  {
    if i < j {
      StepsGrow(actions, i, j - 1);
      StepsStep(actions, j - 1);
    }
  }

  lemma StepsStep(actions: seq<Action>, t: nat)
    requires t < |actions|
    ensures StepsBefore(actions, t + 1) == StepsBefore(actions, t) + (if actions[t].WriterStep? then 1 else 0)
  {
    assert actions[..t + 1][..t] == actions[..t];
  }

  predicate PaidAt(width: nat, actions: seq<Action>, t: nat, id: nat)
    requires t <= |actions|
  {
    var s := Then(width, actions, t);
    id in s.readers ==>
      && s.readers[id].startTime <= t
      && AttemptsPaid(s, s.readers[id], StepsBefore(actions, s.readers[id].startTime), StepsBefore(actions, t))
  }

  lemma StepPays(s: State, a: Action, id: nat, since: nat, steps: nat)
    requires WriterInv(s) && id in s.readers && AttemptsPaid(s, s.readers[id], since, steps)
    ensures var s' := Apply(s, a);
            id in s'.readers ==>
              && s'.readers[id].startTime == s.readers[id].startTime
              && AttemptsPaid(s', s'.readers[id], since, steps + if a.WriterStep? then 1 else 0)
  {
    if a == ReaderStep(id) {
      OwnReadStepPays(s, id, since, steps);
    } else if a.ReaderStep? {
      assert id in Apply(s, a).readers ==> Apply(s, a).readers[id] == s.readers[id];
    }
  }

  lemma NewReadIsPaid(s: State, a: Action, id: nat, steps: nat)
    requires |s.slots| == 2 && id !in s.readers
    ensures var s' := Apply(s, a);
            id in s'.readers ==>
              && a.StartRead? && s'.readers[id].startTime == s.time
              && AttemptsPaid(s', s'.readers[id], steps, steps)
  {
  }

  lemma {:induction false} EveryAttemptIsPaid(width: nat, actions: seq<Action>, t: nat, id: nat)
    requires t <= |actions|
    ensures PaidAt(width, actions, t, id)
    decreases t
  {
    if t > 0 {
      EveryAttemptIsPaid(width, actions, t - 1, id);
      ThenStep(width, actions, t - 1);
      RunInv(width, actions[..t - 1]);
      StepsStep(actions, t - 1);
      RunIsLinked(width, actions, t - 1);
      var s, a := Then(width, actions, t - 1), actions[t - 1];
      if id in s.readers {
        StepPays(s, a, id, StepsBefore(actions, s.readers[id].startTime), StepsBefore(actions, t - 1));
      } else {
        NewReadIsPaid(s, a, id, StepsBefore(actions, t - 1));
      }
    }
  }

  /**
   A read ends with a value, or because nothing was ever published, or after at least sixteen writer steps
   since it began; a read beside fewer writer steps than that always gets a value.
   */
  lemma ReadEndsOnlyWith(width: nat, actions: seq<Action>, a: Action, id: nat)
    requires id in Run(width, actions).readers && id !in Apply(Run(width, actions), a).readers
    ensures var s, s' := Run(width, actions), Apply(Run(width, actions), a);
            var start := s.readers[id].startTime;
            && a == ReaderStep(id) && start <= |actions|
            && (|s'.log| == |s.log| + 1 || s.history == []
                || StepsBefore(actions, |actions|) - StepsBefore(actions, start) >= 16)
  {
    var s := Run(width, actions);
    RunInv(width, actions);
    ThenAll(width, actions);
    EveryAttemptIsPaid(width, actions, |actions|, id);
    StepsGrow(actions, s.readers[id].startTime, |actions|);
    OnlyOwnStepEnds(s, a, id);
    EndsHow(s, id);
  }

  lemma OnlyOwnStepEnds(s: State, a: Action, id: nat)
    requires |s.slots| == 2 && id in s.readers && id !in Apply(s, a).readers
    ensures a == ReaderStep(id)
  {
  }

  lemma EndsHow(s: State, id: nat)
    requires WriterInv(s) && id in s.readers && id !in ReadStep(s, id).readers
    ensures |ReadStep(s, id).log| == |s.log| + 1 || s.history == [] || s.readers[id].attempt >= 16
  {
  }
}
