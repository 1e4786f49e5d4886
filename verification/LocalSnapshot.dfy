/**
 The two-slot single-writer snapshot, as sequentially consistent atomic steps of
 one writer and any number of readers.

 A publication loads the active index, claims the next even epoch, marks the
 inactive slot with the odd guard, stores its words one by one, stores the even
 guard and finally swaps the active index. The guard of a slot therefore runs
 0, 3, 2, 7, 6, ... : it is not monotone, but no even value ever comes back.
 */
module LocalSnapshot {
  const ATTEMPTS := 16
  const NO_ACTIVE_SLOT := 2

  type Value = seq<int>

  datatype Slot = Slot(guard: nat, words: Value)

  datatype Writer =
    | Resting
    | Targeting(target: nat, value: Value)
    | Claimed(target: nat, value: Value, epoch: nat)
    | Storing(target: nat, value: Value, epoch: nat, next: nat)
    | Swapping(target: nat, value: Value, epoch: nat)

  datatype ReadStage =
    | Attempting
    | Located(slot: nat)
    | Copying(slot: nat, before: nat, bytes: Value)
    | Checking(slot: nat, before: nat, bytes: Value, after: nat)

  /** A read in progress; `startVersion` and `startTime` are history, not shared state. */
  datatype Reader = Reader(attempt: nat, stage: ReadStage, startVersion: nat, startTime: nat)

  /** A read that returned a value; `version` counts the publication it came from. */
  datatype ReadRecord = ReadRecord(
    value: Value, version: nat, startVersion: nat, endVersion: nat, startTime: nat, endTime: nat)

  /** `history` lists the values in the order in which they became active. */
  datatype State = State(
    width: nat,
    slots: seq<Slot>,
    active: nat,
    epoch: nat,
    writer: Writer,
    readers: map<nat, Reader>,
    history: seq<Value>,
    log: seq<ReadRecord>,
    time: nat)

  datatype Action =
    | Publish(value: Value)
    | WriterStep
    | StartRead(reader: nat)
    | ReaderStep(reader: nat)

  function Init(width: nat): State {
    State(width, [Slot(0, seq(width, _ => 0)), Slot(0, seq(width, _ => 0))],
          NO_ACTIVE_SLOT, 0, Resting, map[], [], [], 0)
  }

  // ----- Steps ------------------------------------------------------------

  /** `epoch | 1` */
  function WithLowBit(n: nat): nat {
    if n % 2 == 0 then n + 1 else n
  }

  function WriteStep(s: State): State
    requires |s.slots| == 2
  {
    match s.writer
    case Resting => s
    case Targeting(target, value) =>
      s.(epoch := s.epoch + 2, writer := Claimed(target, value, s.epoch + 2))
    case Claimed(target, value, epoch) =>
      if target >= 2 then s
      else s.(slots := s.slots[target := s.slots[target].(guard := WithLowBit(epoch))],
              writer := Storing(target, value, epoch, 0))
    case Storing(target, value, epoch, next) =>
      if target >= 2 || |s.slots[target].words| != s.width || |value| != s.width then s
      else if next < s.width then
        var slot := s.slots[target];
        s.(slots := s.slots[target := slot.(words := slot.words[next := value[next]])],
           writer := Storing(target, value, epoch, next + 1))
      else
        s.(slots := s.slots[target := s.slots[target].(guard := epoch)],
           writer := Swapping(target, value, epoch))
    case Swapping(target, value, epoch) =>
      s.(active := target, writer := Resting, history := s.history + [value])
  }

  function Retry(s: State, id: nat, r: Reader): State {
    s.(readers := s.readers[id := r.(attempt := r.attempt + 1, stage := Attempting)])
  }

  function Finish(s: State, id: nat): State {
    s.(readers := s.readers - {id})
  }

  function At(s: State, id: nat, r: Reader, stage: ReadStage): State {
    s.(readers := s.readers[id := r.(stage := stage)])
  }

  function ReadStep(s: State, id: nat): State
    requires |s.slots| == 2 && id in s.readers
  {
    var r := s.readers[id];
    match r.stage
    case Attempting =>
      if r.attempt >= ATTEMPTS || s.active >= 2 then Finish(s, id)
      else At(s, id, r, Located(s.active))
    case Located(slot) =>
      if slot >= 2 then s
      else
        var before := s.slots[slot].guard;
        if before % 2 == 1 then Retry(s, id, r) else At(s, id, r, Copying(slot, before, []))
    case Copying(slot, before, bytes) =>
      if slot >= 2 then s
      else if |bytes| < s.width && |bytes| < |s.slots[slot].words| then
        At(s, id, r, Copying(slot, before, bytes + [s.slots[slot].words[|bytes|]]))
      else At(s, id, r, Checking(slot, before, bytes, s.slots[slot].guard))
    case Checking(slot, before, bytes, after) =>
      if before != after || after % 2 == 1 || s.active != slot then Retry(s, id, r)
      else
        Finish(s, id).(log := s.log + [ReadRecord(bytes, before / 2, r.startVersion, |s.history|, r.startTime, s.time)])
  }

  /** One atomic step; an action that is not enabled changes nothing. */
  function Apply(s: State, a: Action): State
    requires |s.slots| == 2
  {
    var next :=
      match a
      case Publish(value) =>
        if s.writer.Resting? && |value| == s.width
        then s.(writer := Targeting(if s.active < 2 then 1 - s.active else 0, value)) else s
      case WriterStep => WriteStep(s)
      case StartRead(id) =>
        if id in s.readers then s
        else s.(readers := s.readers[id := Reader(0, Attempting, |s.history|, s.time)])
      case ReaderStep(id) => if id in s.readers then ReadStep(s, id) else s;
    next.(time := s.time + 1)
  }

  function Run(width: nat, actions: seq<Action>): (s: State)
    ensures |s.slots| == 2
  {
    if actions == [] then Init(width)
    else Apply(Run(width, actions[..|actions| - 1]), actions[|actions| - 1])
  }

  // ----- The writer's invariant -------------------------------------------

  /** Publication `k` (counting from 1) is written to this slot under the even guard `2 * k`. */
  function SlotOf(k: nat): nat
    requires k >= 1
  {
    (k - 1) % 2
  }

  lemma SlotsAlternate(k: nat)
    requires k >= 1
    ensures SlotOf(k + 1) == 1 - SlotOf(k) && SlotOf(k + 2) == SlotOf(k)
  {
  }

  ghost predicate Holds(slot: Slot, k: nat, history: seq<Value>)
    requires k <= |history|
  {
    slot.guard == 2 * k && (k > 0 ==> slot.words == history[k - 1])
  }

  ghost predicate WriterInv(s: State) {
    var n := |s.history|;
    && |s.slots| == 2
    && |s.slots[0].words| == |s.slots[1].words| == s.width
    && s.active == (if n == 0 then NO_ACTIVE_SLOT else SlotOf(n))
    && (if n == 0 then s.slots[1].guard == 0 else Holds(s.slots[SlotOf(n)], n, s.history))
    && var target := SlotOf(n + 1);
       var before := if n == 0 then 0 else n - 1;
       match s.writer
       case Resting => s.epoch == 2 * n && Holds(s.slots[target], before, s.history)
       case Targeting(t, value) =>
         t == target && |value| == s.width && s.epoch == 2 * n && Holds(s.slots[target], before, s.history)
       case Claimed(t, value, epoch) =>
         && t == target && |value| == s.width && epoch == s.epoch == 2 * n + 2
         && Holds(s.slots[target], before, s.history)
       case Storing(t, value, epoch, next) =>
         && t == target && |value| == s.width && epoch == s.epoch == 2 * n + 2 && next <= s.width
         && s.slots[target].guard == epoch + 1
         && s.slots[target].words[..next] == value[..next]
       case Swapping(t, value, epoch) =>
         && t == target && epoch == s.epoch == 2 * n + 2
         && s.slots[target] == Slot(epoch, value)
  }

  lemma WriterStepKeeps(s: State)
    requires WriterInv(s)
    ensures WriterInv(WriteStep(s))
  {
    SlotsAlternate(|s.history| + 1);
    match s.writer
    case Resting =>
    case Targeting(target, value) =>
    case Claimed(target, value, epoch) =>
    case Storing(target, value, epoch, next) =>
      if next < s.width {
        assert value[..next + 1] == value[..next] + [value[next]];
      }
    case Swapping(target, value, epoch) =>
  }

  /** The epoch a slot is in: its guard without the marker bit. It never goes back. */
  function SlotEpoch(slot: Slot): nat {
    slot.guard - slot.guard % 2
  }

  lemma SlotEpochNeverFalls(s: State, t: nat)
    requires WriterInv(s) && t < 2
    ensures var s' := WriteStep(s);
            && |s'.slots| == 2
            && SlotEpoch(s.slots[t]) <= SlotEpoch(s'.slots[t])
            && (SlotEpoch(s.slots[t]) == SlotEpoch(s'.slots[t]) && s.slots[t].guard % 2 == 0 ==>
                  s'.slots[t] == s.slots[t])
  {
  }

  // ----- The readers' invariant -------------------------------------------

  /** The value of publication `v`, active or about to become active. */
  ghost predicate Published(s: State, v: nat, value: Value) {
    (1 <= v <= |s.history| && s.history[v - 1] == value)
    || (v == |s.history| + 1 && s.writer.Swapping? && s.writer.value == value)
  }

  ghost predicate Tracks(s: State, r: Reader, slot: nat, before: nat)
    requires |s.slots| == 2
  {
    && slot < 2 && before % 2 == 0 && before >= 2
    && r.startVersion <= before / 2
    && SlotOf(before / 2) == slot
    && SlotEpoch(s.slots[slot]) >= before
  }

  ghost predicate ReaderInv(s: State, r: Reader)
    requires |s.slots| == 2
  {
    && r.startVersion <= |s.history| && r.startTime <= s.time
    && match r.stage
       case Attempting => true
       case Located(slot) =>
         slot < 2 && SlotEpoch(s.slots[slot]) >= 2 && SlotEpoch(s.slots[slot]) >= 2 * r.startVersion
       case Copying(slot, before, bytes) =>
         && Tracks(s, r, slot, before)
         && (SlotEpoch(s.slots[slot]) == before ==>
               && s.slots[slot].guard == before
               && |bytes| <= |s.slots[slot].words| && bytes == s.slots[slot].words[..|bytes|])
       case Checking(slot, before, bytes, after) =>
         && Tracks(s, r, slot, before)
         && (before == after ==> Published(s, before / 2, bytes))
  }

  ghost predicate RecordInv(s: State, q: ReadRecord) {
    && 1 <= q.version <= |s.history| && q.value == s.history[q.version - 1]
    && q.startVersion <= q.version <= q.endVersion <= |s.history|
    && q.startTime <= q.endTime < s.time
  }

  /** Reads that ended before another began saw no more than was active when it began. */
  ghost predicate OrderInv(s: State) {
    && (forall p, id :: 0 <= p < |s.log| && id in s.readers && s.log[p].endTime < s.readers[id].startTime ==>
          s.log[p].endVersion <= s.readers[id].startVersion)
    && (forall p, q :: 0 <= p < |s.log| && 0 <= q < |s.log| && s.log[p].endTime < s.log[q].startTime ==>
          s.log[p].endVersion <= s.log[q].startVersion)
  }

  ghost predicate Inv(s: State) {
    && WriterInv(s)
    && (forall id :: id in s.readers ==> ReaderInv(s, s.readers[id]))
    && (forall p :: 0 <= p < |s.log| ==> RecordInv(s, s.log[p]))
    && OrderInv(s)
  }

  lemma WriterStepKeepsReader(s: State, r: Reader)
    requires WriterInv(s) && ReaderInv(s, r)
    ensures ReaderInv(WriteStep(s).(time := s.time + 1), r)
  {
    match r.stage
    case Attempting =>
    case Located(slot) => SlotEpochNeverFalls(s, slot);
    case Copying(slot, before, bytes) => WriterStepKeepsCopying(s, r);
    case Checking(slot, before, bytes, after) => WriterStepKeepsChecking(s, r);
  }

  lemma WriterStepKeepsCopying(s: State, r: Reader)
    requires WriterInv(s) && ReaderInv(s, r) && r.stage.Copying?
    ensures ReaderInv(WriteStep(s).(time := s.time + 1), r)
  {
    SlotEpochNeverFalls(s, r.stage.slot);
  }

  lemma WriterStepKeepsChecking(s: State, r: Reader)
    requires WriterInv(s) && ReaderInv(s, r) && r.stage.Checking?
    ensures ReaderInv(WriteStep(s).(time := s.time + 1), r)
  {
    SlotEpochNeverFalls(s, r.stage.slot);
  }

  lemma EvenGuardIsPublished(s: State, slot: nat)
    requires WriterInv(s) && slot < 2 && s.slots[slot].guard % 2 == 0 && s.slots[slot].guard > 0
    ensures SlotOf(s.slots[slot].guard / 2) == slot
    ensures Published(s, s.slots[slot].guard / 2, s.slots[slot].words)
  {
    var n := |s.history|;
    if n > 0 {
      SlotsAlternate(n);
    }
    if n > 1 {
      SlotsAlternate(n - 1);
    }
  }

  lemma LocatedStepKeeps(s: State, id: nat)
    requires WriterInv(s) && id in s.readers && ReaderInv(s, s.readers[id]) && s.readers[id].stage.Located?
    ensures var s' := ReadStep(s, id).(time := s.time + 1);
            id in s'.readers && ReaderInv(s', s'.readers[id])
  {
    var slot := s.readers[id].stage.slot;
    if s.slots[slot].guard % 2 == 0 {
      EvenGuardIsPublished(s, slot);
    }
  }

  lemma CopyingStepKeeps(s: State, id: nat)
    requires WriterInv(s) && id in s.readers && ReaderInv(s, s.readers[id]) && s.readers[id].stage.Copying?
    ensures var s' := ReadStep(s, id).(time := s.time + 1);
            id in s'.readers && ReaderInv(s', s'.readers[id])
  {
    var stage := s.readers[id].stage;
    if |stage.bytes| >= s.width && s.slots[stage.slot].guard == stage.before {
      EvenGuardIsPublished(s, stage.slot);
      assert stage.bytes == s.slots[stage.slot].words;
    }
  }

  lemma ReadStepKeepsReader(s: State, id: nat)
    requires WriterInv(s) && id in s.readers && ReaderInv(s, s.readers[id])
    ensures var s' := ReadStep(s, id).(time := s.time + 1);
            id in s'.readers ==> ReaderInv(s', s'.readers[id])
  {
    match s.readers[id].stage
    case Attempting =>
    case Located(slot) => LocatedStepKeeps(s, id);
    case Copying(slot, before, bytes) => CopyingStepKeeps(s, id);
    case Checking(slot, before, bytes, after) =>
  }

  /** A read that passes its check returns the value of a publication that has been active. */
  lemma CheckedReadIsPublished(s: State, id: nat)
    requires Inv(s) && id in s.readers && s.readers[id].stage.Checking?
    requires var stage := s.readers[id].stage;
             stage.before == stage.after && s.active == stage.slot
    ensures var stage := s.readers[id].stage;
            && s.readers[id].startVersion <= stage.before / 2 <= |s.history|
            && stage.before / 2 >= 1
            && stage.bytes == s.history[stage.before / 2 - 1]
  {
  }

  /** A reader moves on, or gives up, without a value. */
  lemma QuietReadKeeps(s: State, s': State, id: nat)
    requires Inv(s) && id in s.readers
    requires s' == s.(readers := s'.readers, time := s.time + 1)
    requires s'.readers - {id} == s.readers - {id}
    requires id in s'.readers ==>
               ReaderInv(s', s'.readers[id])
               && s'.readers[id].startTime == s.readers[id].startTime
               && s'.readers[id].startVersion == s.readers[id].startVersion
    ensures Inv(s')
  {
    forall other | other in s'.readers
      ensures ReaderInv(s', s'.readers[other])
      ensures other in s.readers && s'.readers[other].startTime == s.readers[other].startTime
      ensures s'.readers[other].startVersion == s.readers[other].startVersion
    {
      if other != id {
        assert other in s'.readers - {id};
        assert (s'.readers - {id})[other] == (s.readers - {id})[other];
        assert ReaderInv(s, s.readers[other]);
      }
    }
  }

  lemma FinishedReadKeeps(s: State, s': State, id: nat, q: ReadRecord)
    requires Inv(s) && id in s.readers
    requires s' == s.(readers := s.readers - {id}, log := s.log + [q], time := s.time + 1)
    requires RecordInv(s', q) && q.endTime == s.time && q.endVersion == |s.history|
    requires q.startTime == s.readers[id].startTime && q.startVersion == s.readers[id].startVersion
    ensures Inv(s')
  {
    forall other | other in s'.readers
      ensures ReaderInv(s', s'.readers[other])
    {
      assert ReaderInv(s, s.readers[other]);
    }
    forall p, j | 0 <= p < |s'.log| && 0 <= j < |s'.log| && s'.log[p].endTime < s'.log[j].startTime
      ensures s'.log[p].endVersion <= s'.log[j].startVersion
    {
      assert RecordInv(s', s'.log[j]);
    }
  }

  lemma ReadStepKeeps(s: State, id: nat)
    requires Inv(s) && id in s.readers
    ensures Inv(ReadStep(s, id).(time := s.time + 1))
  {
    ReadStepKeepsReader(s, id);
    var s' := ReadStep(s, id).(time := s.time + 1);
    var r := s.readers[id];
    if r.stage.Checking? && r.stage.before == r.stage.after && s.active == r.stage.slot {
      CheckedReadIsPublished(s, id);
      FinishedReadKeeps(s, s', id, s'.log[|s.log|]);
    } else {
      QuietReadKeeps(s, s', id);
    }
  }

  lemma WriterActionKeeps(s: State, s': State)
    requires Inv(s) && WriterInv(s')
    requires s'.readers == s.readers && s'.log == s.log && s'.time == s.time + 1
    requires s.history <= s'.history
    requires forall id :: id in s.readers ==> ReaderInv(s', s.readers[id])
    ensures Inv(s')
  {
  }

  lemma PublishKeeps(s: State, value: Value)
    requires Inv(s)
    ensures Inv(Apply(s, Publish(value)))
  {
    forall id | id in s.readers
      ensures ReaderInv(Apply(s, Publish(value)), s.readers[id])
    {
      assert ReaderInv(s, s.readers[id]);
    }
    WriterActionKeeps(s, Apply(s, Publish(value)));
  }

  lemma WriterTouchesNoReader(s: State)
    requires |s.slots| == 2
    ensures WriteStep(s).readers == s.readers && WriteStep(s).log == s.log && WriteStep(s).time == s.time
    ensures s.history <= WriteStep(s).history
  {
  }

  lemma WriterStepKeepsInv(s: State)
    requires Inv(s)
    ensures Inv(WriteStep(s).(time := s.time + 1))
  {
    WriterStepKeeps(s);
    WriterTouchesNoReader(s);
    forall id | id in s.readers
      ensures ReaderInv(WriteStep(s).(time := s.time + 1), s.readers[id])
    {
      WriterStepKeepsReader(s, s.readers[id]);
    }
    WriterActionKeeps(s, WriteStep(s).(time := s.time + 1));
  }

  lemma TickKeeps(s: State)
    requires Inv(s)
    ensures Inv(s.(time := s.time + 1))
  {
    var s' := s.(time := s.time + 1);
    forall id | id in s.readers
      ensures ReaderInv(s', s.readers[id])
    {
      assert ReaderInv(s, s.readers[id]);
    }
    WriterActionKeeps(s, s');
  }

  lemma NewReaderKeeps(s: State, id: nat)
    requires Inv(s) && id !in s.readers
    ensures Inv(Apply(s, StartRead(id)))
  {
    var s' := Apply(s, StartRead(id));
    forall other | other in s'.readers
      ensures ReaderInv(s', s'.readers[other])
    {
      if other != id {
        assert ReaderInv(s, s.readers[other]);
      }
    }
    forall p, other | 0 <= p < |s'.log| && other in s'.readers && s'.log[p].endTime < s'.readers[other].startTime
      ensures s'.log[p].endVersion <= s'.readers[other].startVersion
    {
      assert RecordInv(s, s.log[p]);
    }
  }

  lemma ApplyKeepsInv(s: State, a: Action)
    requires Inv(s)
    ensures Inv(Apply(s, a))
  {
    match a
    case Publish(value) => PublishKeeps(s, value);
    case WriterStep => WriteActionKeepsInv(s);
    case StartRead(id) => StartReadKeepsInv(s, id);
    case ReaderStep(id) => ReaderStepKeepsInv(s, id);
  }

  lemma WriteActionKeepsInv(s: State)
    requires Inv(s)
    ensures Inv(Apply(s, WriterStep))
  {
    WriterStepKeepsInv(s);
  }

  lemma StartReadKeepsInv(s: State, id: nat)
    requires Inv(s)
    ensures Inv(Apply(s, StartRead(id)))
  {
    if id in s.readers {
      assert Apply(s, StartRead(id)) == s.(time := s.time + 1);
      TickKeeps(s);
    } else {
      NewReaderKeeps(s, id);
    }
  }

  lemma ReaderStepKeepsInv(s: State, id: nat)
    requires Inv(s)
    ensures Inv(Apply(s, ReaderStep(id)))
  {
    if id in s.readers {
      assert Apply(s, ReaderStep(id)) == ReadStep(s, id).(time := s.time + 1);
      ReadStepKeeps(s, id);
    } else {
      assert Apply(s, ReaderStep(id)) == s.(time := s.time + 1);
      TickKeeps(s);
    }
  }

  lemma {:induction false} RunInv(width: nat, actions: seq<Action>)
    ensures Inv(Run(width, actions))
  {
    if actions != [] {
      RunInv(width, actions[..|actions| - 1]);
      ApplyKeepsInv(Run(width, actions[..|actions| - 1]), actions[|actions| - 1]);
    }
  }

  // ----- Theorems over every interleaving ---------------------------------

  /** The state after the first `t` steps. */
  function Then(width: nat, actions: seq<Action>, t: nat): (s: State)
    requires t <= |actions|
    ensures |s.slots| == 2
  {
    Run(width, actions[..t])
  }

  lemma ThenStep(width: nat, actions: seq<Action>, t: nat)
    requires t < |actions|
    ensures Then(width, actions, t + 1) == Apply(Then(width, actions, t), actions[t])
  {
    assert actions[..t + 1][..t] == actions[..t];
  }

  lemma ThenAll(width: nat, actions: seq<Action>)
    ensures Then(width, actions, |actions|) == Run(width, actions)
  {
    assert actions[..|actions|] == actions;
  }

  ghost predicate ReaderLinked(width: nat, actions: seq<Action>, t: nat, r: Reader)
    requires t <= |actions|
  {
    r.startTime <= t && |Then(width, actions, r.startTime).history| == r.startVersion
  }

  ghost predicate RecordLinked(width: nat, actions: seq<Action>, t: nat, q: ReadRecord)
    requires t <= |actions|
  {
    && q.startTime <= q.endTime < t
    && |Then(width, actions, q.startTime).history| == q.startVersion
    && |Then(width, actions, q.endTime).history| == q.endVersion
  }

  /** The stamps of reads are the versions that were active at those instants of the run. */
  ghost predicate RunLinked(width: nat, actions: seq<Action>, t: nat)
    requires t <= |actions|
  {
    var s := Then(width, actions, t);
    && s.time == t
    && (forall id :: id in s.readers ==> ReaderLinked(width, actions, t, s.readers[id]))
    && (forall p :: 0 <= p < |s.log| ==> RecordLinked(width, actions, t, s.log[p]))
  }

  /** A step adds at most one read in progress and at most one finished read, both stamped with the present. */
  ghost predicate Stamped(s: State, s': State) {
    && s'.time == s.time + 1
    && (s'.history == s.history || (exists value :: s'.history == s.history + [value]))
    && (forall id :: id in s'.readers ==>
          (id in s.readers && s'.readers[id].startTime == s.readers[id].startTime
           && s'.readers[id].startVersion == s.readers[id].startVersion)
          || (s'.readers[id].startTime == s.time && s'.readers[id].startVersion == |s.history|))
    && (s'.log == s.log
        || (exists id :: id in s.readers && |s'.log| == |s.log| + 1 && s'.log[..|s.log|] == s.log
                         && StampedRecord(s, id, s'.log[|s.log|])))
  }

  ghost predicate StampedRecord(s: State, id: nat, q: ReadRecord)
    requires id in s.readers
  {
    && q.startTime == s.readers[id].startTime && q.startVersion == s.readers[id].startVersion
    && q.endTime == s.time && q.endVersion == |s.history|
  }

  lemma ApplyStamps(s: State, a: Action)
    requires |s.slots| == 2
    ensures Stamped(s, Apply(s, a))
  {
    if a.ReaderStep? && a.reader in s.readers {
      ReadStepStamps(s, a.reader);
      assert Apply(s, a) == ReadStep(s, a.reader).(time := s.time + 1);
    }
  }

  lemma ReadStepStamps(s: State, id: nat)
    requires |s.slots| == 2 && id in s.readers
    ensures Stamped(s, ReadStep(s, id).(time := s.time + 1))
  {
    var s' := ReadStep(s, id);
    if s'.log != s.log {
      assert StampedRecord(s, id, s'.log[|s.log|]);
    }
  }

  lemma {:induction false} RunIsLinked(width: nat, actions: seq<Action>, t: nat)
    requires t <= |actions|
    ensures RunLinked(width, actions, t)
  {
    if t > 0 {
      RunIsLinked(width, actions, t - 1);
      ThenStep(width, actions, t - 1);
      ApplyStamps(Then(width, actions, t - 1), actions[t - 1]);
      LinkedStep(width, actions, t - 1, Then(width, actions, t - 1), Then(width, actions, t));
    }
  }

  lemma LinkedStep(width: nat, actions: seq<Action>, t: nat, s: State, s': State)
    requires t < |actions| && s == Then(width, actions, t) && s' == Then(width, actions, t + 1)
    requires Stamped(s, s') && RunLinked(width, actions, t)
    ensures RunLinked(width, actions, t + 1)
  {
    forall id | id in s'.readers
      ensures ReaderLinked(width, actions, t + 1, s'.readers[id])
    {
      if id in s.readers {
        assert ReaderLinked(width, actions, t, s.readers[id]);
      }
    }
    forall p | 0 <= p < |s'.log|
      ensures RecordLinked(width, actions, t + 1, s'.log[p])
    {
      RecordStep(width, actions, t, s, s', p);
    }
  }

  lemma RecordStep(width: nat, actions: seq<Action>, t: nat, s: State, s': State, p: nat)
    requires t < |actions| && s == Then(width, actions, t) && Stamped(s, s') && RunLinked(width, actions, t)
    requires p < |s'.log|
    ensures RecordLinked(width, actions, t + 1, s'.log[p])
  {
    if p < |s.log| {
      assert s'.log[p] == s'.log[..|s.log|][p] == s.log[p];
      assert RecordLinked(width, actions, t, s.log[p]);
    } else {
      var id :| id in s.readers && StampedRecord(s, id, s'.log[p]);
      assert ReaderLinked(width, actions, t, s.readers[id]);
    }
  }

  lemma HistoryStep(width: nat, actions: seq<Action>, t: nat)
    requires t < |actions|
    ensures Then(width, actions, t).history <= Then(width, actions, t + 1).history
    ensures |Then(width, actions, t + 1).history| <= |Then(width, actions, t).history| + 1
  {
    ThenStep(width, actions, t);
    ApplyStamps(Then(width, actions, t), actions[t]);
  }

  /** The number of active publications takes every value between two instants of a run. */
  lemma {:induction false} EveryVersionWasActive(width: nat, actions: seq<Action>, i: nat, j: nat, v: nat)
    requires i <= j <= |actions|
    requires |Then(width, actions, i).history| <= v <= |Then(width, actions, j).history|
    ensures exists t :: i <= t <= j && |Then(width, actions, t).history| == v
    decreases j
  {
    if |Then(width, actions, j).history| != v {
      HistoryStep(width, actions, j - 1);
      EveryVersionWasActive(width, actions, i, j - 1, v);
    }
  }

  lemma {:induction false} HistoryIsPrefix(width: nat, actions: seq<Action>, i: nat, j: nat)
    requires i <= j <= |actions|
    ensures Then(width, actions, i).history <= Then(width, actions, j).history
    decreases j
  {
    if i < j {
      HistoryIsPrefix(width, actions, i, j - 1);
      HistoryStep(width, actions, j - 1);
    }
  }

  lemma ActiveSlotHoldsLatest(s: State)
    requires WriterInv(s) && s.history != []
    ensures s.active < 2 && s.slots[s.active] == Slot(2 * |s.history|, s.history[|s.history| - 1])
  {
  }

  /** Slot `s.active` holds publication `q` in full. */
  ghost predicate Active(s: State, q: ReadRecord) {
    s.active < |s.slots| && s.slots[s.active] == Slot(2 * q.version, q.value)
  }

  /**
   Linearizability: the value of every finished read was, whole, the content of the
   active slot at some instant between the start and the end of that read.
   */
  lemma ReadsAreLinearizable(width: nat, actions: seq<Action>, p: nat)
    requires p < |Run(width, actions).log|
    ensures var q := Run(width, actions).log[p];
            exists t :: q.startTime <= t <= q.endTime <= |actions| && Active(Then(width, actions, t), q)
  {
    var q := Run(width, actions).log[p];
    RunInv(width, actions);
    ThenAll(width, actions);
    RunIsLinked(width, actions, |actions|);
    assert RecordInv(Run(width, actions), q) && RecordLinked(width, actions, |actions|, q);
    EveryVersionWasActive(width, actions, q.startTime, q.endTime, q.version);
    var t :| q.startTime <= t <= q.endTime && |Then(width, actions, t).history| == q.version;
    InstantHolds(width, actions, t, q);
  }

  lemma InstantHolds(width: nat, actions: seq<Action>, t: nat, q: ReadRecord)
    requires t <= |actions| && RecordInv(Run(width, actions), q)
    requires |Then(width, actions, t).history| == q.version
    ensures Active(Then(width, actions, t), q)
  {
    RunInv(width, actions[..t]);
    HistoryIsPrefix(width, actions, t, |actions|);
    ThenAll(width, actions);
    ActiveThen(Then(width, actions, t), Run(width, actions), q);
  }

  lemma ActiveThen(s: State, later: State, q: ReadRecord)
    requires WriterInv(s) && s.history <= later.history && RecordInv(later, q) && |s.history| == q.version
    ensures Active(s, q)
  {
    ActiveSlotHoldsLatest(s);
  }

  /** A read that starts after another has ended never returns an older publication. */
  lemma ReadsNeverGoBack(width: nat, actions: seq<Action>, p: nat, q: nat)
    requires p < |Run(width, actions).log| && q < |Run(width, actions).log|
    requires Run(width, actions).log[p].endTime < Run(width, actions).log[q].startTime
    ensures Run(width, actions).log[p].version <= Run(width, actions).log[q].version
  {
    RunInv(width, actions);
    assert RecordInv(Run(width, actions), Run(width, actions).log[p]);
    assert RecordInv(Run(width, actions), Run(width, actions).log[q]);
  }

  // ----- A read that is left alone succeeds -------------------------------

  function ReadAlone(s: State, id: nat, n: nat): (s': State)
    requires |s.slots| == 2
    ensures |s'.slots| == 2
    decreases n
  {
    if n == 0 then s else ReadAlone(Apply(s, ReaderStep(id)), id, n - 1)
  }

  lemma {:induction false} CopyAlone(s: State, id: nat)
    requires WriterInv(s) && id in s.readers && s.readers[id].stage.Copying?
    requires var stage := s.readers[id].stage;
             && stage.slot == s.active < 2 && stage.before == s.slots[s.active].guard
             && |stage.bytes| <= s.width && stage.bytes == s.slots[s.active].words[..|stage.bytes|]
             && stage.before % 2 == 0
    ensures var s' := ReadAlone(s, id, s.width - |s.readers[id].stage.bytes| + 2);
            && |s'.log| == |s.log| + 1
            && s'.log[|s.log|].value == s.slots[s.active].words
    decreases s.width - |s.readers[id].stage.bytes|
  {
    var next := Apply(s, ReaderStep(id));
    if |s.readers[id].stage.bytes| < s.width {
      CopyAlone(next, id);
    } else {
      assert s.readers[id].stage.bytes == s.slots[s.active].words;
      var last := Apply(next, ReaderStep(id));
      assert ReadAlone(s, id, 2) == ReadAlone(next, id, 1) == ReadAlone(last, id, 0);
    }
  }

  lemma LocateAlone(s: State, id: nat)
    requires WriterInv(s) && s.writer.Resting? && s.history != [] && id !in s.readers
    ensures var copying := Apply(Apply(Apply(s, StartRead(id)), ReaderStep(id)), ReaderStep(id));
            && WriterInv(copying) && copying.slots == s.slots && copying.active == s.active < 2
            && copying.width == s.width && copying.log == s.log && id in copying.readers
            && copying.readers[id].stage == Copying(s.active, s.slots[s.active].guard, [])
            && s.slots[s.active].guard % 2 == 0
  {
    ActiveSlotHoldsLatest(s);
    var started := Apply(s, StartRead(id));
    assert started.readers[id].stage == Attempting;
    var located := Apply(started, ReaderStep(id));
    assert located.readers[id].stage == Located(s.active);
  }

  /** With the writer at rest, a fresh read returns the latest publication on its first attempt. */
  lemma UndisturbedReadSucceeds(width: nat, actions: seq<Action>, id: nat)
    requires var s := Run(width, actions); s.writer.Resting? && s.history != [] && id !in s.readers
    ensures var s := Run(width, actions);
            var s' := ReadAlone(Apply(s, StartRead(id)), id, s.width + 4);
            && |s'.log| == |s.log| + 1
            && s'.log[|s.log|].value == s.history[|s.history| - 1]
  {
    var s := Run(width, actions);
    RunInv(width, actions);
    ActiveSlotHoldsLatest(s);
    LocateAlone(s, id);
    var started := Apply(s, StartRead(id));
    CopyAlone(Apply(Apply(started, ReaderStep(id)), ReaderStep(id)), id);
    ReadAloneTwice(started, id, s.width + 2);
  }

  lemma ReadAloneTwice(s: State, id: nat, n: nat)
    requires |s.slots| == 2
    ensures ReadAlone(s, id, n + 2) == ReadAlone(Apply(Apply(s, ReaderStep(id)), ReaderStep(id)), id, n)
  {
    var next := Apply(s, ReaderStep(id));
    assert ReadAlone(s, id, n + 2) == ReadAlone(next, id, n + 1);
  }
}
