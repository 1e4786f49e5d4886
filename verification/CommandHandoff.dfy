/**
 The command path from the ingress threads to the realtime supervisor: a gated
 ingress checker, a snapshot handoff, and a rejection barrier. Publishing to and
 reading from the handoff are single steps, which `LocalSnapshot` justifies; a read
 may also give up and return nothing.
 */
module CommandHandoff {
  import opened Wrappers
  import opened Cia402
  import opened SafetySupervisor

  datatype Publication = Publication(number: nat, snapshot: Snapshot)

  datatype Consumer =
    | Waiting
    | BarrierLoaded(barrier: nat)
    | EventLoaded(barrier: nat, event: Option<nat>)

  /**
   `published` is the history of handoff publications; the handoff holds its last one,
   and an event read from it is remembered by its position. `taken` lists the positions
   the supervisor accepted, `acks` the rejections it acknowledged.
   */
  datatype Handoff = Handoff(
    now: int,
    ingress: State,
    safety: State,
    publication: nat,
    rejected: nat,
    consumed: nat,
    acknowledged: nat,
    consumer: Consumer,
    published: seq<Publication>,
    taken: seq<nat>,
    acks: seq<nat>,
    outcomes: seq<Acceptance>)

  datatype Action =
    | Tick(elapsed: nat)
    | Stage(snapshot: Snapshot)
    | LoadBarrier
    | LoadEvent(missed: bool)
    | Consume

  function Init(count: nat): Handoff
    requires count <= MAX_AXES
  {
    var idle := InitialState(count);
    Handoff(0, idle, idle, 0, 0, 0, 0, Waiting, [], [], [], [])
  }

  /** The snapshot with an impossible axis count that makes the supervisor drop its trust. */
  function Rejection(blank: seq<AxisCommand>): Snapshot
    requires |blank| == MAX_AXES
  {
    RawSnapshot(0, 0, MAX_AXES + 1, blank)
  }

  ghost predicate Shaped(h: Handoff) {
    |h.ingress.commands| == |h.safety.commands| <= MAX_AXES
  }

  // ----- Steps ------------------------------------------------------------

  function StageStep(h: Handoff, snapshot: Snapshot): Handoff
    requires Shaped(h)
  {
    var (ingress, acceptance) := Accept(h.ingress, snapshot, h.now);
    match acceptance
    case Accepted =>
      h.(ingress := ingress, publication := h.publication + 1,
         published := h.published + [Publication(h.publication + 1, snapshot)])
    case Rejected => h.(ingress := ingress, publication := h.publication + 1, rejected := h.publication + 1)
    case Duplicate => h.(ingress := ingress)
  }

  /** Hand one published snapshot to the supervisor. */
  function Deliver(h: Handoff, position: nat): Handoff
    requires Shaped(h) && position < |h.published|
  {
    var (safety, acceptance) := Accept(h.safety, h.published[position].snapshot, h.now);
    h.(safety := safety, consumed := h.published[position].number, consumer := Waiting,
       taken := if acceptance == Accepted then h.taken + [position] else h.taken,
       outcomes := h.outcomes + [acceptance])
  }

  function ConsumeStep(h: Handoff): Handoff
    requires Shaped(h)
  {
    if !h.consumer.EventLoaded? then h
    else
      var barrier := h.consumer.barrier;
      if barrier != h.acknowledged then
        h.(acknowledged := barrier, acks := h.acks + [barrier], consumer := Waiting,
           consumed := if h.consumed > barrier then barrier else h.consumed,
           safety := Accept(h.safety, Rejection(seq(MAX_AXES, _ => NO_COMMAND)), h.now).0)
      else if h.consumer.event.None? || h.consumer.event.value >= |h.published| then h.(consumer := Waiting)
      else
        var event := h.published[h.consumer.event.value];
        if event.number <= h.acknowledged || event.number == h.consumed then h.(consumer := Waiting)
        else Deliver(h, h.consumer.event.value)
  }

  function Apply(h: Handoff, a: Action): (h': Handoff)
    requires Shaped(h)
    ensures Shaped(h')
  {
    match a
    case Tick(elapsed) => h.(now := h.now + elapsed)
    case Stage(snapshot) => StageStep(h, snapshot)
    case LoadBarrier => if h.consumer.Waiting? then h.(consumer := BarrierLoaded(h.rejected)) else h
    case LoadEvent(missed) =>
      if h.consumer.BarrierLoaded?
      then h.(consumer := EventLoaded(h.consumer.barrier,
                                      if missed || h.published == [] then None else Some(|h.published| - 1)))
      else h
    case Consume => ConsumeStep(h)
  }

  function Run(count: nat, actions: seq<Action>): (h: Handoff)
    requires count <= MAX_AXES
    ensures Shaped(h)
  {
    if actions == [] then Init(count)
    else Apply(Run(count, actions[..|actions| - 1]), actions[|actions| - 1])
  }

  // ----- Invariant --------------------------------------------------------

  ghost predicate Newer(a: Publication, b: Publication) {
    a.number < b.number && a.snapshot.sequence < b.snapshot.sequence && a.snapshot.timestamp <= b.snapshot.timestamp
  }

  ghost predicate PublishedInv(h: Handoff)
    requires Shaped(h)
  {
    && (forall i, j :: 0 <= i < j < |h.published| ==> Newer(h.published[i], h.published[j]))
    && (forall i :: 0 <= i < |h.published| ==>
          && h.published[i].number <= h.publication
          && ValidSnapshot(|h.safety.commands|, h.published[i].snapshot, h.now))
  }

  /** A checker holds exactly the publication at this position. */
  ghost predicate HoldsPosition(s: State, h: Handoff, position: nat) {
    && position < |h.published| && |s.commands| <= MAX_AXES
    && s.hasCommand
    && s.lastSequence == h.published[position].snapshot.sequence
    && s.lastTimestamp == h.published[position].snapshot.timestamp
    && s.commands == h.published[position].snapshot.axes[..|s.commands|]
  }

  ghost predicate IngressInv(h: Handoff) {
    if h.published == [] then !h.ingress.hasCommand else HoldsPosition(h.ingress, h, |h.published| - 1)
  }

  ghost predicate SafetyInv(h: Handoff) {
    && (forall i, j :: 0 <= i < j < |h.taken| ==> h.taken[i] < h.taken[j])
    && (if h.taken == [] then !h.safety.hasCommand && !h.safety.commandsValid
        else HoldsPosition(h.safety, h, h.taken[|h.taken| - 1]))
    && (h.safety.commandsValid ==>
          h.taken != [] && h.published[h.taken[|h.taken| - 1]].number > h.acknowledged)
    && (forall i :: 0 <= i < |h.outcomes| ==> h.outcomes[i] != Rejected)
  }

  ghost predicate BarrierInv(h: Handoff) {
    && h.acknowledged <= h.rejected <= h.publication && h.consumed <= h.publication
    && (forall i :: 0 <= i < |h.acks| ==> h.acks[i] <= h.acknowledged)
    && match h.consumer
       case Waiting => true
       case BarrierLoaded(barrier) => h.acknowledged <= barrier <= h.rejected
       case EventLoaded(barrier, event) =>
         && h.acknowledged <= barrier <= h.rejected
         && (event.Some? ==>
               event.value < |h.published| && (h.taken == [] || h.taken[|h.taken| - 1] <= event.value))
  }

  ghost predicate Inv(h: Handoff) {
    Shaped(h) && PublishedInv(h) && IngressInv(h) && SafetyInv(h) && BarrierInv(h)
  }

  lemma StageKeeps(h: Handoff, snapshot: Snapshot)
    requires Inv(h)
    ensures Inv(StageStep(h, snapshot))
  {
    var h' := StageStep(h, snapshot);
    if Accept(h.ingress, snapshot, h.now).1 == Accepted {
      forall i, j | 0 <= i < j < |h'.published|
        ensures Newer(h'.published[i], h'.published[j])
      {
        if j == |h.published| && i < j - 1 {
          assert Newer(h.published[i], h.published[j - 1]);
        }
      }
    }
  }

  /** A snapshot from the handoff is accepted when newer than the held one, and a duplicate when it is the held one. */
  lemma DeliveryOutcome(h: Handoff, position: nat)
    requires Inv(h) && position < |h.published|
    requires h.taken == [] || h.taken[|h.taken| - 1] <= position
    ensures var (s, acceptance) := Accept(h.safety, h.published[position].snapshot, h.now);
            if h.taken != [] && h.taken[|h.taken| - 1] == position
            then acceptance == Duplicate && s == h.safety
            else acceptance == Accepted && s.commandsValid && HoldsPosition(s, h, position)
                 && |s.commands| == |h.safety.commands|
  {
    assert ValidSnapshot(|h.safety.commands|, h.published[position].snapshot, h.now);
    if h.taken != [] && h.taken[|h.taken| - 1] < position {
      assert Newer(h.published[h.taken[|h.taken| - 1]], h.published[position]);
    }
  }

  lemma DeliverKeeps(h: Handoff, position: nat)
    requires Inv(h) && position < |h.published| && h.consumer.EventLoaded?
    requires h.taken == [] || h.taken[|h.taken| - 1] <= position
    requires h.published[position].number > h.acknowledged
    ensures Inv(Deliver(h, position))
  {
    DeliveryOutcome(h, position);
    if h.taken != [] && h.taken[|h.taken| - 1] == position {
      assert Deliver(h, position).safety == h.safety && Deliver(h, position).taken == h.taken;
    } else {
      TakenKeeps(h, Deliver(h, position), position);
    }
  }

  /** The supervisor takes over a newer publication. */
  lemma TakenKeeps(h: Handoff, h': Handoff, position: nat)
    requires Inv(h) && position < |h.published| && (h.taken == [] || h.taken[|h.taken| - 1] < position)
    requires h.published[position].number > h.acknowledged
    requires h'.consumed <= h.publication
    requires h' == h.(safety := h'.safety, consumed := h'.consumed, consumer := Waiting,
                      taken := h.taken + [position], outcomes := h.outcomes + [Accepted])
    requires HoldsPosition(h'.safety, h, position) && |h'.safety.commands| == |h.safety.commands| && Shaped(h')
    ensures Inv(h')
  {
    forall i, j | 0 <= i < j < |h'.taken|
      ensures h'.taken[i] < h'.taken[j]
    {
      if j == |h.taken| && i < j - 1 {
        assert h.taken[i] < h.taken[j - 1];
      }
    }
  }

  lemma AcknowledgeKeeps(h: Handoff)
    requires Inv(h) && h.consumer.EventLoaded? && h.consumer.barrier != h.acknowledged
    ensures Inv(ConsumeStep(h))
    ensures !ConsumeStep(h).safety.commandsValid
  {
  }

  lemma ConsumeKeeps(h: Handoff)
    requires Inv(h) && h.consumer.EventLoaded?
    ensures Inv(ConsumeStep(h))
  {
    if h.consumer.barrier != h.acknowledged {
      AcknowledgeKeeps(h);
    } else if h.consumer.event.Some? && h.published[h.consumer.event.value].number > h.acknowledged
              && h.published[h.consumer.event.value].number != h.consumed {
      DeliverKeeps(h, h.consumer.event.value);
    } else {
      assert ConsumeStep(h) == h.(consumer := Waiting);
    }
  }

  lemma LoadKeeps(h: Handoff, a: Action)
    requires Inv(h) && (a.Tick? || a.LoadBarrier? || a.LoadEvent?)
    ensures Inv(Apply(h, a))
  {
    if h.taken != [] {
      assert h.taken[|h.taken| - 1] < |h.published|;
    }
  }

  lemma ApplyKeepsInv(h: Handoff, a: Action)
    requires Inv(h)
    ensures Inv(Apply(h, a))
  {
    match a
    case Stage(snapshot) => StageKeeps(h, snapshot);
    case Consume =>
      if h.consumer.EventLoaded? {
        ConsumeKeeps(h);
      }
    case _ => LoadKeeps(h, a);
  }

  lemma {:induction false} RunInv(count: nat, actions: seq<Action>)
    requires count <= MAX_AXES
    ensures Inv(Run(count, actions))
  {
    if actions != [] {
      RunInv(count, actions[..|actions| - 1]);
      ApplyKeepsInv(Run(count, actions[..|actions| - 1]), actions[|actions| - 1]);
    }
  }

  // ----- Theorems over every interleaving ---------------------------------

  /** The supervisor never rejects a snapshot that came through the handoff. */
  lemma HandoffIsNeverRejected(count: nat, actions: seq<Action>)
    requires count <= MAX_AXES
    ensures var h := Run(count, actions);
            forall i :: 0 <= i < |h.outcomes| ==> h.outcomes[i] != Rejected
  {
    RunInv(count, actions);
  }

  /** What the supervisor accepts is a subsequence of what the ingress accepted, with strictly increasing sequences. */
  lemma AcceptedIsOrderedSubsequence(count: nat, actions: seq<Action>)
    requires count <= MAX_AXES
    ensures var h := Run(count, actions);
            && (forall i :: 0 <= i < |h.taken| ==> h.taken[i] < |h.published|)
            && (forall i, j :: 0 <= i < j < |h.taken| ==>
                  && h.taken[i] < h.taken[j]
                  && h.published[h.taken[i]].snapshot.sequence < h.published[h.taken[j]].snapshot.sequence)
  {
    RunInv(count, actions);
    var h := Run(count, actions);
    forall i | 0 <= i < |h.taken|
      ensures h.taken[i] < |h.published|
    {
      if i < |h.taken| - 1 {
        assert h.taken[i] < h.taken[|h.taken| - 1];
      }
    }
    forall i, j | 0 <= i < j < |h.taken|
      ensures h.published[h.taken[i]].snapshot.sequence < h.published[h.taken[j]].snapshot.sequence
    {
      assert Newer(h.published[h.taken[i]], h.published[h.taken[j]]);
    }
  }

  /** While the supervisor trusts its command, that command was published after every acknowledged rejection. */
  lemma TrustedCommandIsPastEveryRejection(count: nat, actions: seq<Action>)
    requires count <= MAX_AXES
    ensures var h := Run(count, actions);
            h.safety.commandsValid ==>
              && h.taken != [] && h.taken[|h.taken| - 1] < |h.published|
              && var held := h.published[h.taken[|h.taken| - 1]];
                 && held.snapshot.sequence == h.safety.lastSequence
                 && h.safety.commands == held.snapshot.axes[..|h.safety.commands|]
                 && forall i :: 0 <= i < |h.acks| ==> held.number > h.acks[i]
  {
    RunInv(count, actions);
  }

  /**
   After an acknowledged rejection, trust returns only with a command newer than the
   one held: replaying the held one is a duplicate and restores nothing.
   */
  lemma TrustReturnsOnlyWithNewerCommand(count: nat, actions: seq<Action>, a: Action)
    requires count <= MAX_AXES
    requires !Run(count, actions).safety.commandsValid
    requires Apply(Run(count, actions), a).safety.commandsValid
    ensures var h, h' := Run(count, actions), Apply(Run(count, actions), a);
            && |h'.taken| == |h.taken| + 1
            && (h.taken != [] ==> h'.taken[|h.taken|] > h.taken[|h.taken| - 1])
  {
    RunInv(count, actions);
    var h := Run(count, actions);
    if a.Consume? && h.consumer.EventLoaded? && h.consumer.event.Some? {
      DeliveryOutcome(h, h.consumer.event.value);
    }
  }

  /** A rejection that the realtime side acknowledges always withdraws trust in that step. */
  lemma AcknowledgedRejectionWithdrawsTrust(count: nat, actions: seq<Action>)
    requires count <= MAX_AXES
    requires var h := Run(count, actions); h.consumer.EventLoaded? && h.consumer.barrier != h.acknowledged
    ensures !Apply(Run(count, actions), Consume).safety.commandsValid
    ensures Apply(Run(count, actions), Consume).acknowledged > Run(count, actions).acknowledged
  {
    RunInv(count, actions);
    AcknowledgeKeeps(Run(count, actions));
  }

  // ----- A rejection at the ingress reaches the supervisor ----------------

  /** The ingress checker refuses this snapshot now. */
  predicate Refuses(h: Handoff, snapshot: Snapshot)
    requires Shaped(h)
  {
    Accept(h.ingress, snapshot, h.now).1 == Rejected
  }

  lemma RunOne(count: nat, actions: seq<Action>, a: Action)
    requires count <= MAX_AXES
    ensures Run(count, actions + [a]) == Apply(Run(count, actions), a)
  {
    assert (actions + [a])[..|actions|] == actions;
  }

  lemma RunLast(count: nat, before: seq<Action>, after: seq<Action>)
    requires count <= MAX_AXES && after != []
    ensures Run(count, before + after)
            == Apply(Run(count, before + after[..|after| - 1]), after[|after| - 1])
  {
    var all := before + after;
    assert all[..|all| - 1] == before + after[..|after| - 1];
  }

  /** The number of the newest rejection: the barrier never falls, and a refused snapshot raises it. */
  lemma RefusalRaisesTheBarrier(count: nat, actions: seq<Action>, snapshot: Snapshot)
    requires count <= MAX_AXES && Refuses(Run(count, actions), snapshot)
    ensures var h, h' := Run(count, actions), Run(count, actions + [Stage(snapshot)]);
            && h'.rejected == h'.publication == h.publication + 1 && h'.rejected > h.rejected
            && h'.acknowledged == h.acknowledged < h'.rejected && h'.consumer == h.consumer
            && (!h.consumer.Waiting? ==> h.consumer.barrier < h'.rejected)
  {
    RunInv(count, actions);
    RunOne(count, actions, Stage(snapshot));
  }

  /** A consumption under way loaded its barrier before rejection `number`, or there is none. */
  predicate NotYetSeen(h: Handoff, number: nat) {
    h.acknowledged < number <= h.rejected && (!h.consumer.Waiting? ==> h.consumer.barrier < number)
  }

  /** Until a consumer loads the barrier again, the rejection stays unseen. */
  lemma {:induction false} UnseenUntilLoaded(count: nat, before: seq<Action>, middle: seq<Action>, number: nat)
    requires count <= MAX_AXES && NotYetSeen(Run(count, before), number) && LoadBarrier !in middle
    ensures NotYetSeen(Run(count, before + middle), number)
    decreases |middle|
  {
    if middle == [] {
      assert before + middle == before;
    } else {
      var earlier, a := middle[..|middle| - 1], middle[|middle| - 1];
      UnseenUntilLoaded(count, before, earlier, number);
      RunInv(count, before + earlier);
      RunLast(count, before, middle);
      UnseenStep(Run(count, before + earlier), a, number);
    }
  }

  lemma UnseenStep(h: Handoff, a: Action, number: nat)
    requires Inv(h) && NotYetSeen(h, number) && a != LoadBarrier
    ensures NotYetSeen(Apply(h, a), number)
  {
  }

  /** A consumption that has loaded the barrier at or past rejection `number`, which nobody has acknowledged. */
  predicate AboutToAcknowledge(h: Handoff, number: nat) {
    h.acknowledged < number && !h.consumer.Waiting? && h.consumer.barrier >= number
  }

  lemma {:induction false} SeenUntilConsumed(count: nat, before: seq<Action>, more: seq<Action>, number: nat)
    requires count <= MAX_AXES && AboutToAcknowledge(Run(count, before), number) && Consume !in more
    ensures AboutToAcknowledge(Run(count, before + more), number)
    decreases |more|
  {
    if more == [] {
      assert before + more == before;
    } else {
      SeenUntilConsumed(count, before, more[..|more| - 1], number);
      RunLast(count, before, more);
    }
  }

  lemma ConsumptionAcknowledges(count: nat, loaded: seq<Action>, more: seq<Action>, number: nat)
    requires count <= MAX_AXES && AboutToAcknowledge(Run(count, loaded), number) && Consume !in more
    requires Run(count, loaded + more).consumer.EventLoaded?
    ensures var h := Run(count, loaded + more + [Consume]); !h.safety.commandsValid && h.acknowledged >= number
  {
    SeenUntilConsumed(count, loaded, more, number);
    RunOne(count, loaded + more, Consume);
    AcknowledgedRejectionWithdrawsTrust(count, loaded + more);
  }

  lemma LoadSeesRejection(count: nat, staged: seq<Action>, middle: seq<Action>, number: nat)
    requires count <= MAX_AXES && NotYetSeen(Run(count, staged), number) && LoadBarrier !in middle
    requires Run(count, staged + middle).consumer.Waiting?
    ensures AboutToAcknowledge(Run(count, staged + middle + [LoadBarrier]), number)
  {
    UnseenUntilLoaded(count, staged, middle, number);
    RunOne(count, staged + middle, LoadBarrier);
  }

  /**
   Take any run, let the ingress refuse a snapshot, and let anything happen before the consumer next loads the
   barrier and before it then consumes: that consumption ends without trust, at or past the rejection.
   */
  lemma RefusalWithdrawsTrust(count: nat, before: seq<Action>, snapshot: Snapshot,
                              middle: seq<Action>, more: seq<Action>)
    requires count <= MAX_AXES && Refuses(Run(count, before), snapshot)
    requires LoadBarrier !in middle && Consume !in more
    requires Run(count, before + [Stage(snapshot)] + middle).consumer.Waiting?
    requires Run(count, before + [Stage(snapshot)] + middle + [LoadBarrier] + more).consumer.EventLoaded?
    ensures var h := Run(count, before + [Stage(snapshot)] + middle + [LoadBarrier] + more + [Consume]);
            !h.safety.commandsValid && h.acknowledged > Run(count, before).publication
  {
    var number := Run(count, before).publication + 1;
    var staged := before + [Stage(snapshot)];
    RefusalRaisesTheBarrier(count, before, snapshot);
    LoadSeesRejection(count, staged, middle, number);
    ConsumptionAcknowledges(count, staged + middle + [LoadBarrier], more, number);
  }

  /** The shortest such run: a waiting consumer drops its trust in the very next consumption. */
  lemma RefusalWithdrawsTrustAtOnce(count: nat, before: seq<Action>, snapshot: Snapshot, missed: bool)
    requires count <= MAX_AXES && Refuses(Run(count, before), snapshot) && Run(count, before).consumer.Waiting?
    ensures !Run(count, before + [Stage(snapshot), LoadBarrier, LoadEvent(missed), Consume]).safety.commandsValid
  {
    var staged := before + [Stage(snapshot)];
    RefusalRaisesTheBarrier(count, before, snapshot);
    assert staged + [] == staged;
    RunOne(count, staged, LoadBarrier);
    RunOne(count, staged + [LoadBarrier], LoadEvent(missed));
    RefusalWithdrawsTrust(count, before, snapshot, [], [LoadEvent(missed)]);
    assert before + [Stage(snapshot), LoadBarrier, LoadEvent(missed), Consume]
        == staged + [] + [LoadBarrier] + [LoadEvent(missed)] + [Consume];
  }

  // ----- An accepted command reaches the supervisor -----------------------

  const CONSUMPTION := [LoadBarrier, LoadEvent(false), Consume]

  function Consumed(h: Handoff): Handoff
    requires Shaped(h)
  {
    Apply(Apply(Apply(h, LoadBarrier), LoadEvent(false)), Consume)
  }

  lemma RunConsumption(count: nat, actions: seq<Action>)
    requires count <= MAX_AXES
    ensures Run(count, actions + CONSUMPTION) == Consumed(Run(count, actions))
  {
    RunOne(count, actions, LoadBarrier);
    RunOne(count, actions + [LoadBarrier], LoadEvent(false));
    RunOne(count, actions + [LoadBarrier] + [LoadEvent(false)], Consume);
    assert actions + CONSUMPTION == actions + [LoadBarrier] + [LoadEvent(false)] + [Consume];
  }

  /** The newest publication is past every rejection and the supervisor has not taken it. */
  ghost predicate Unconsumed(h: Handoff) {
    && Inv(h) && h.consumer.Waiting? && h.published != []
    && h.published[|h.published| - 1].number > h.rejected
    && (h.taken != [] ==> h.taken[|h.taken| - 1] < |h.published| - 1)
    && h.consumed < h.published[|h.published| - 1].number
  }

  /** The supervisor trusts the newest publication and has consumed it. */
  ghost predicate Taken(h: Handoff) {
    && Inv(h) && h.consumer.Waiting? && h.published != [] && h.acknowledged == h.rejected
    && h.safety.commandsValid && HoldsPosition(h.safety, h, |h.published| - 1)
    && h.consumed == h.published[|h.published| - 1].number
  }

  lemma ConsumptionKeeps(h: Handoff)
    requires Inv(h)
    ensures Inv(Apply(h, LoadBarrier)) && Inv(Apply(Apply(h, LoadBarrier), LoadEvent(false))) && Inv(Consumed(h))
  {
    ApplyKeepsInv(h, LoadBarrier);
    ApplyKeepsInv(Apply(h, LoadBarrier), LoadEvent(false));
    ApplyKeepsInv(Apply(Apply(h, LoadBarrier), LoadEvent(false)), Consume);
  }

  lemma ConsumeAcknowledges(h: Handoff)
    requires Unconsumed(h) && h.acknowledged != h.rejected
    ensures var h' := Consumed(h);
            && Unconsumed(h') && h'.acknowledged == h'.rejected && h'.published == h.published
            && !h'.safety.commandsValid
  {
    ConsumptionKeeps(h);
  }

  lemma ConsumeTakes(h: Handoff)
    requires Unconsumed(h) && h.acknowledged == h.rejected
    ensures Taken(Consumed(h)) && Consumed(h).published == h.published
  {
    ConsumptionKeeps(h);
    var position := |h.published| - 1;
    DeliveryOutcome(h, position);
    ConsumptionDelivers(h, position);
  }

  lemma ConsumptionDelivers(h: Handoff, position: nat)
    requires Unconsumed(h) && h.acknowledged == h.rejected && position == |h.published| - 1
    ensures Consumed(h) == Deliver(h, position)
  {
  }

  lemma ConsumeAgain(h: Handoff)
    requires Taken(h)
    ensures Taken(Consumed(h)) && Consumed(h).published == h.published
  {
    ConsumptionKeeps(h);
  }

  lemma AcceptedIsUnconsumed(count: nat, before: seq<Action>, snapshot: Snapshot)
    requires count <= MAX_AXES && Run(count, before).consumer.Waiting?
    requires Accept(Run(count, before).ingress, snapshot, Run(count, before).now).1 == Accepted
    ensures var h := Run(count, before + [Stage(snapshot)]);
            && Unconsumed(h) && h.published[|h.published| - 1].snapshot == snapshot
            && h.acknowledged == Run(count, before).acknowledged && h.rejected == Run(count, before).rejected
  {
    RunInv(count, before);
    RunInv(count, before + [Stage(snapshot)]);
    RunOne(count, before, Stage(snapshot));
  }

  /** The first consumption acknowledges what is left to acknowledge, else takes the command; the second ends taken. */
  lemma TwoConsumptions(h: Handoff)
    requires Unconsumed(h)
    ensures Consumed(h).safety.commandsValid <==> h.acknowledged == h.rejected
    ensures Taken(Consumed(Consumed(h))) && Consumed(Consumed(h)).published == h.published
  {
    if h.acknowledged == h.rejected {
      ConsumeTakes(h);
      ConsumeAgain(Consumed(h));
    } else {
      ConsumeAcknowledges(h);
      ConsumeTakes(Consumed(h));
    }
  }

  /**
   A command the ingress accepts is the one the supervisor trusts after two undisturbed consumptions; after one
   already, unless an older rejection is still to be acknowledged.
   */
  lemma AcceptedCommandIsTrusted(count: nat, before: seq<Action>, snapshot: Snapshot)
    requires count <= MAX_AXES && Run(count, before).consumer.Waiting?
    requires Accept(Run(count, before).ingress, snapshot, Run(count, before).now).1 == Accepted
    ensures var h := Run(count, before + [Stage(snapshot)] + CONSUMPTION);
            h.safety.commandsValid <==> Run(count, before).acknowledged == Run(count, before).rejected
    ensures var h := Run(count, before + [Stage(snapshot)] + CONSUMPTION + CONSUMPTION);
            && h.safety.commandsValid && h.safety.lastSequence == snapshot.sequence
            && h.safety.lastTimestamp == snapshot.timestamp
            && |h.safety.commands| <= MAX_AXES && h.safety.commands == snapshot.axes[..|h.safety.commands|]
  {
    var staged := before + [Stage(snapshot)];
    AcceptedIsUnconsumed(count, before, snapshot);
    RunConsumption(count, staged);
    RunConsumption(count, staged + CONSUMPTION);
    TwoConsumptions(Run(count, staged));
  }

  // ----- A command that raced ahead of a rejection ------------------------

  /** The supervisor holds the newest publication and does not trust it. */
  ghost predicate HeldWithoutTrust(h: Handoff) {
    h.taken != [] && h.taken[|h.taken| - 1] == |h.published| - 1 && !h.safety.commandsValid
  }

  lemma PublishedOnlyGrows(h: Handoff, a: Action)
    requires Shaped(h)
    ensures |h.published| <= |Apply(h, a).published|
    ensures |Apply(h, a).published| == |h.published| ==> Apply(h, a).published == h.published
  {
  }

  /** While nothing newer is published, nothing the realtime side does restores the trust: a replay is a duplicate. */
  lemma {:induction false} ReplayRestoresNothing(count: nat, before: seq<Action>, after: seq<Action>)
    requires count <= MAX_AXES && HeldWithoutTrust(Run(count, before))
    ensures |Run(count, before).published| <= |Run(count, before + after).published|
    ensures |Run(count, before + after).published| == |Run(count, before).published| ==>
              HeldWithoutTrust(Run(count, before + after))
    decreases |after|
  {
    if after == [] {
      assert before + after == before;
    } else {
      var earlier, a := after[..|after| - 1], after[|after| - 1];
      ReplayRestoresNothing(count, before, earlier);
      RunLast(count, before, after);
      RunInv(count, before + earlier);
      ReplayStep(Run(count, before + earlier), a, |Run(count, before).published|);
    }
  }

  lemma ReplayStep(h: Handoff, a: Action, published: nat)
    requires Inv(h) && published <= |h.published| && (published == |h.published| ==> HeldWithoutTrust(h))
    ensures published <= |Apply(h, a).published|
    ensures published == |Apply(h, a).published| ==> HeldWithoutTrust(Apply(h, a))
  {
    PublishedOnlyGrows(h, a);
    if a.Consume? && h.consumer.EventLoaded? && h.consumer.event.Some? {
      DeliveryOutcome(h, h.consumer.event.value);
    }
  }

  /** A consumer loads its barrier; a snapshot is refused and a newer one accepted before it reads the handoff. */
  function Race(bad: Snapshot, good: Snapshot): seq<Action> {
    [LoadBarrier, Stage(bad), Stage(good), LoadEvent(false), Consume]
  }

  function Raced(h: Handoff, bad: Snapshot, good: Snapshot): Handoff
    requires Shaped(h)
  {
    var staged := Apply(Apply(Apply(h, LoadBarrier), Stage(bad)), Stage(good));
    Apply(Apply(staged, LoadEvent(false)), Consume)
  }

  lemma RunRace(count: nat, before: seq<Action>, bad: Snapshot, good: Snapshot)
    requires count <= MAX_AXES
    ensures Run(count, before + Race(bad, good)) == Raced(Run(count, before), bad, good)
  {
    var one := before + [LoadBarrier];
    RunOne(count, before, LoadBarrier);
    RunOne(count, one, Stage(bad));
    RunOne(count, one + [Stage(bad)], Stage(good));
    RunOne(count, one + [Stage(bad)] + [Stage(good)], LoadEvent(false));
    RunOne(count, one + [Stage(bad)] + [Stage(good)] + [LoadEvent(false)], Consume);
    RaceRegroups(before, bad, good);
  }

  lemma RaceRegroups(before: seq<Action>, bad: Snapshot, good: Snapshot)
    ensures before + Race(bad, good)
            == before + [LoadBarrier] + [Stage(bad)] + [Stage(good)] + [LoadEvent(false)] + [Consume]
  {
  }

  /** Both staged, the newer one read, the rejection between them not seen yet. */
  ghost predicate Racing(h: Handoff, good: Snapshot) {
    && Inv(h) && h.published != [] && h.published[|h.published| - 1].snapshot == good
    && h.consumer == EventLoaded(h.acknowledged, Some(|h.published| - 1))
    && h.acknowledged < h.rejected < h.published[|h.published| - 1].number
    && (h.taken != [] ==> h.taken[|h.taken| - 1] < |h.published| - 1)
    && h.consumed < h.published[|h.published| - 1].number
  }

  /** A snapshot is refused while the consumer has its barrier loaded. */
  lemma RefusedMeanwhile(h: Handoff, bad: Snapshot)
    requires Inv(h) && h.consumer.Waiting? && h.acknowledged == h.rejected && Refuses(h, bad)
    ensures var refused := Apply(Apply(h, LoadBarrier), Stage(bad));
            && Inv(refused) && refused.consumer == BarrierLoaded(h.acknowledged)
            && refused.ingress == h.ingress.(commandsValid := false)
            && refused == h.(consumer := refused.consumer, ingress := refused.ingress,
                             publication := h.publication + 1, rejected := h.publication + 1)
  {
    ApplyKeepsInv(h, LoadBarrier);
    ApplyKeepsInv(Apply(h, LoadBarrier), Stage(bad));
  }

  lemma AcceptedMeanwhile(h: Handoff, good: Snapshot)
    requires Inv(h) && h.consumer == BarrierLoaded(h.acknowledged) && h.acknowledged < h.rejected
    requires Accept(h.ingress, good, h.now).1 == Accepted
    ensures Racing(Apply(Apply(h, Stage(good)), LoadEvent(false)), good)
  {
    ApplyKeepsInv(h, Stage(good));
    ApplyKeepsInv(Apply(h, Stage(good)), LoadEvent(false));
  }

  lemma StagesRace(h: Handoff, bad: Snapshot, good: Snapshot)
    requires Inv(h) && h.consumer.Waiting? && h.acknowledged == h.rejected && Refuses(h, bad)
    requires Accept(h.ingress, good, h.now).1 == Accepted
    ensures Racing(Apply(Apply(Apply(Apply(h, LoadBarrier), Stage(bad)), Stage(good)), LoadEvent(false)), good)
  {
    RefusedMeanwhile(h, bad);
    AcceptedMeanwhile(Apply(Apply(h, LoadBarrier), Stage(bad)), good);
  }

  lemma RaceIsWon(h: Handoff, good: Snapshot)
    requires Racing(h, good)
    ensures var h' := Apply(h, Consume);
            && Inv(h') && h'.consumer.Waiting? && h'.safety.commandsValid && h'.acknowledged < h'.rejected
            && h'.taken != [] && h'.taken[|h'.taken| - 1] == |h'.published| - 1
            && h'.published == h.published && HoldsPosition(h'.safety, h', |h'.published| - 1)
  {
    ApplyKeepsInv(h, Consume);
    DeliveryOutcome(h, |h.published| - 1);
  }

  lemma RejectionCatchesUp(h: Handoff)
    requires Inv(h) && h.consumer.Waiting? && h.acknowledged < h.rejected
    requires h.taken != [] && h.taken[|h.taken| - 1] == |h.published| - 1
    ensures HeldWithoutTrust(Consumed(h)) && Consumed(h).published == h.published
  {
  }

  lemma RaceThenRejection(h: Handoff, bad: Snapshot, good: Snapshot)
    requires Inv(h) && h.consumer.Waiting? && h.acknowledged == h.rejected && Refuses(h, bad)
    requires Accept(h.ingress, good, h.now).1 == Accepted
    ensures var h' := Raced(h, bad, good);
            && h'.safety.commandsValid && h'.safety.lastSequence == good.sequence
            && HeldWithoutTrust(Consumed(h')) && Consumed(h').published == h'.published
  {
    StagesRace(h, bad, good);
    RaceIsWon(Apply(Apply(Apply(Apply(h, LoadBarrier), Stage(bad)), Stage(good)), LoadEvent(false)), good);
    RejectionCatchesUp(Raced(h, bad, good));
  }

  /**
   The comment in the code promises that a valid command which raced ahead of a rejection is replayed after the
   safe-stop cycle. It is delivered again, but it never regains trust: from the consumption that acknowledges
   the rejection on, the supervisor stays without trust for as long as nothing newer is published.
   */
  lemma RacedCommandIsNeverTrustedAgain(count: nat, before: seq<Action>, bad: Snapshot, good: Snapshot,
                                        after: seq<Action>)
    requires count <= MAX_AXES
    requires var h := Run(count, before);
             && h.consumer.Waiting? && h.acknowledged == h.rejected
             && Refuses(h, bad) && Accept(h.ingress, good, h.now).1 == Accepted
    ensures var h := Run(count, before + Race(bad, good));
            h.safety.commandsValid && h.safety.lastSequence == good.sequence
    ensures var raced := before + Race(bad, good);
            |Run(count, raced + CONSUMPTION + after).published| == |Run(count, raced).published| ==>
              !Run(count, raced + CONSUMPTION + after).safety.commandsValid
  {
    var raced := before + Race(bad, good);
    RunInv(count, before);
    RunRace(count, before, bad, good);
    RaceThenRejection(Run(count, before), bad, good);
    RunConsumption(count, raced);
    ReplayRestoresNothing(count, raced + CONSUMPTION, after);
  }
}
