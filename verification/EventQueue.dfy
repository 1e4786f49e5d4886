/**
 The overwriting sensor event queue: a ring of seqlock cells with tickets, one
 producer and one consumer, as sequentially consistent atomic steps. The relaxed
 byte accesses of the C++ memory model are not modelled.
 */
module EventQueue {
  import opened Wrappers

  const ATTEMPTS := 16

  type Byte = x: int | 0 <= x < 256
  type Bytes = seq<Byte>
  type Payload = Bytes

  const TICKET_SIZE: nat := 8

  // ----- A stored event as bytes ------------------------------------------

  /** The number of values that `n` bytes can hold. */
  function Range(n: nat): nat {
    if n == 0 then 1 else 256 * Range(n - 1)
  }

  /** Little-endian. */
  function ToBytes(x: nat, n: nat): (bytes: Bytes)
    ensures |bytes| == n
  {
    if n == 0 then [] else [x % 256] + ToBytes(x / 256, n - 1)
  }

  function FromBytes(bytes: Bytes): nat {
    if bytes == [] then 0 else bytes[0] as int + 256 * FromBytes(bytes[1..])
  }

  lemma {:induction false} NumberSurvives(x: nat, n: nat)
    requires x < Range(n)
    ensures FromBytes(ToBytes(x, n)) == x
    decreases n
  {
    if n > 0 {
      NumberSurvives(x / 256, n - 1);
      assert ToBytes(x, n)[1..] == ToBytes(x / 256, n - 1);
    }
  }

  /** A ticket and a payload side by side. */
  function Encode(ticket: nat, value: Payload): (bytes: Bytes)
    ensures |bytes| == TICKET_SIZE + |value|
  {
    ToBytes(ticket, TICKET_SIZE) + value
  }

  function Decode(bytes: Bytes): (nat, Payload) {
    if |bytes| < TICKET_SIZE then (0, bytes) else (FromBytes(bytes[..TICKET_SIZE]), bytes[TICKET_SIZE..])
  }

  /** Tickets below this survive in 64 bits. */
  function TicketLimit(): nat {
    Range(TICKET_SIZE)
  }

  lemma TicketsHave64Bits()
    ensures TicketLimit() == 0x1_0000_0000_0000_0000
  {
    assert Range(4) == 0x1_0000_0000;
  }

  lemma EventSurvives(ticket: nat, value: Payload)
    requires ticket < TicketLimit()
    ensures Decode(Encode(ticket, value)) == (ticket, value)
  {
    NumberSurvives(ticket, TICKET_SIZE);
    var bytes := Encode(ticket, value);
    assert bytes[..TICKET_SIZE] == ToBytes(ticket, TICKET_SIZE) && bytes[TICKET_SIZE..] == value;
  }

  datatype Cell = Cell(version: nat, bytes: Bytes)

  datatype Producer =
    | ProducerIdle
    | Checking(value: Payload, index: nat)
    | Dropping(value: Payload, index: nat)
    | Marking(value: Payload, index: nat)
    | Storing(value: Payload, index: nat, next: nat)
    | Publishing(value: Payload, index: nat)

  datatype Consumer =
    | ConsumerIdle
    | Counted(seen: nat)
    | Attempting(index: nat, attempt: nat)
    | Copying(index: nat, attempt: nat, before: nat, bytes: Bytes)
    | Confirming(index: nat, attempt: nat, before: nat, bytes: Bytes, after: nat)
    | Committing(index: nat, value: Payload)

  datatype Popped = Popped(index: nat, value: Payload)

  /** `size` is that of one payload. `pushed`, `counted` and `pops` are history: the pushed values, the
      pushes counted as drops, the pops. */
  datatype State = State(
    size: nat,
    cells: seq<Cell>,
    published: nat,
    consumed: nat,
    dropped: nat,
    producer: Producer,
    consumer: Consumer,
    pushed: seq<Payload>,
    counted: set<nat>,
    pops: seq<Popped>)

  datatype Action = Push(value: Payload) | ProducerStep | Pop | ConsumerStep

  function Width(s: State): nat {
    TICKET_SIZE + s.size
  }

  function Init(size: nat, capacity: nat): State {
    State(size, seq(capacity, _ => Cell(0, seq(TICKET_SIZE + size, _ => 0))),
          0, 0, 0, ProducerIdle, ConsumerIdle, [], {}, [])
  }

  // ----- Steps ------------------------------------------------------------

  function Place(s: State, index: nat): (k: nat)
    requires |s.cells| > 0
    ensures k < |s.cells|
  {
    index % |s.cells|
  }

  function StepProducer(s: State): State
    requires |s.cells| > 0
  {
    match s.producer
    case ProducerIdle => s
    case Checking(value, p) =>
      if p - s.consumed >= |s.cells| then s.(producer := Dropping(value, p)) else s.(producer := Marking(value, p))
    case Dropping(value, p) =>
      s.(dropped := s.dropped + 1, counted := s.counted + {p}, producer := Marking(value, p))
    case Marking(value, p) =>
      var k := Place(s, p);
      s.(cells := s.cells[k := s.cells[k].(version := s.cells[k].version + 1)], producer := Storing(value, p, 0))
    case Storing(value, p, next) =>
      var k := Place(s, p);
      var bytes := Encode(p + 1, value);
      if next < |s.cells[k].bytes| && next < |bytes| then
        s.(cells := s.cells[k := s.cells[k].(bytes := s.cells[k].bytes[next := bytes[next]])],
           producer := Storing(value, p, next + 1))
      else
        s.(cells := s.cells[k := s.cells[k].(version := s.cells[k].version + 1)], producer := Publishing(value, p))
    case Publishing(value, p) =>
      s.(published := p + 1, producer := ProducerIdle)
  }

  function Oldest(seen: nat, capacity: nat): nat {
    if seen > capacity then seen - capacity else 0
  }

  function StepConsumer(s: State): State
    requires |s.cells| > 0
  {
    match s.consumer
    case ConsumerIdle => s
    case Counted(seen) =>
      if s.consumed >= seen then s.(consumer := ConsumerIdle)
      else
        var oldest := Oldest(seen, |s.cells|);
        s.(consumer := Attempting(if s.consumed < oldest then oldest else s.consumed, 0))
    case Attempting(e, attempt) =>
      var version := s.cells[Place(s, e)].version;
      if attempt >= ATTEMPTS then s.(consumer := ConsumerIdle)
      else if version % 2 == 1 || version == 0 then s.(consumer := Attempting(e, attempt + 1))
      else s.(consumer := Copying(e, attempt, version, []))
    case Copying(e, attempt, before, bytes) =>
      var cell := s.cells[Place(s, e)];
      if |bytes| < |cell.bytes| then s.(consumer := Copying(e, attempt, before, bytes + [cell.bytes[|bytes|]]))
      else s.(consumer := Confirming(e, attempt, before, bytes, cell.version))
    case Confirming(e, attempt, before, bytes, after) =>
      if before != after || after % 2 == 1 then s.(consumer := Attempting(e, attempt + 1))
      else
        var (ticket, value) := Decode(bytes);
        if ticket != e + 1 then s.(consumer := ConsumerIdle) else s.(consumer := Committing(e, value))
    case Committing(e, value) =>
      s.(consumed := e + 1, consumer := ConsumerIdle, pops := s.pops + [Popped(e, value)])
  }

  /** Values of the queue's own type, until the 64-bit tickets run out. */
  predicate MayPush(s: State, value: Payload) {
    |value| == s.size && |s.pushed| + 1 < TicketLimit()
  }

  function Apply(s: State, a: Action): State
    requires |s.cells| > 0
  {
    match a
    case Push(value) =>
      if s.producer.ProducerIdle? && MayPush(s, value)
      then s.(producer := Checking(value, s.published), pushed := s.pushed + [value]) else s
    case ProducerStep => StepProducer(s)
    case Pop => if s.consumer.ConsumerIdle? then s.(consumer := Counted(s.published)) else s
    case ConsumerStep => StepConsumer(s)
  }

  function Run(size: nat, capacity: nat, actions: seq<Action>): (s: State)
    requires capacity > 0
    ensures |s.cells| == capacity
  {
    if actions == [] then Init(size, capacity)
    else Apply(Run(size, capacity, actions[..|actions| - 1]), actions[|actions| - 1])
  }

  // ----- Invariants -------------------------------------------------------

  function Encoded(s: State, j: nat): Bytes
    requires j < |s.pushed|
  {
    Encode(j + 1, s.pushed[j])
  }

  /** Event `j` is stored, whole, in this cell. */
  ghost predicate StoredIn(s: State, cell: Cell) {
    exists j :: 0 <= j < |s.pushed| && cell.bytes == Encoded(s, j)
  }

  ghost predicate CellInv(s: State, k: nat)
    requires k < |s.cells|
  {
    && |s.cells[k].bytes| == Width(s)
    && (s.cells[k].version % 2 == 1 <==> s.producer.Storing? && Place(s, s.producer.index) == k)
    && (s.cells[k].version % 2 == 0 && s.cells[k].version > 0 ==> StoredIn(s, s.cells[k]))
  }

  /** Pushes whose drop test is behind them. */
  function Tested(s: State): nat {
    if s.producer.Marking? || s.producer.Storing? || s.producer.Publishing? then s.published + 1 else s.published
  }

  ghost predicate ProducerInv(s: State)
    requires |s.cells| > 0
  {
    && |s.pushed| == s.published + (if s.producer.ProducerIdle? then 0 else 1)
    && (!s.producer.ProducerIdle? ==> s.producer.index == s.published && s.producer.value == s.pushed[s.published])
    && (s.producer.Storing? ==>
          var bytes := Encoded(s, s.published);
          && s.producer.next <= Width(s) == |bytes| == |s.cells[Place(s, s.published)].bytes|
          && s.cells[Place(s, s.published)].bytes[..s.producer.next] == bytes[..s.producer.next])
  }

  /** Every push that found the ring full, as the consumer stands now, has been counted as a drop. */
  ghost predicate DropInv(s: State) {
    && s.dropped == |s.counted|
    && (forall p :: p in s.counted ==> p < Tested(s))
    && (forall p :: s.consumed + |s.cells| <= p < Tested(s) ==> p in s.counted)
    && (s.producer.Dropping? ==> s.producer.index == s.published)
    && s.consumed <= s.published
  }

  ghost predicate PopsInv(s: State) {
    && (forall i :: 0 <= i < |s.pops| ==>
          s.pops[i].index < s.consumed && s.pops[i].index < |s.pushed| && s.pops[i].value == s.pushed[s.pops[i].index])
    && (forall i, j :: 0 <= i < j < |s.pops| ==> s.pops[i].index < s.pops[j].index)
  }

  ghost predicate WasPopped(s: State, e: nat) {
    exists i :: 0 <= i < |s.pops| && s.pops[i].index == e
  }

  /** The push that takes the place of event `e` has been counted as a drop. */
  ghost predicate Overwritten(s: State, e: nat) {
    e + |s.cells| in s.counted
  }

  /** An event the consumer passed over was overwritten by a push that was counted. */
  ghost predicate SkipInv(s: State) {
    forall e :: 0 <= e < s.consumed && !WasPopped(s, e) ==> Overwritten(s, e)
  }

  ghost predicate Pending(s: State, e: nat) {
    && s.consumed <= e < s.published
    && (forall d :: s.consumed <= d < e ==> Overwritten(s, d))
  }

  ghost predicate ConsumerInv(s: State)
    requires |s.cells| > 0
  {
    match s.consumer
    case ConsumerIdle => true
    case Counted(seen) => seen <= s.published
    case Attempting(e, attempt) => Pending(s, e)
    case Copying(e, attempt, before, bytes) =>
      var cell := s.cells[Place(s, e)];
      && Pending(s, e) && before % 2 == 0 && 0 < before <= cell.version
      && (cell.version == before ==> |bytes| <= |cell.bytes| && bytes == cell.bytes[..|bytes|])
    case Confirming(e, attempt, before, bytes, after) =>
      && Pending(s, e)
      && (before == after ==> exists j :: 0 <= j < |s.pushed| && bytes == Encoded(s, j))
    case Committing(e, value) => Pending(s, e) && e < |s.pushed| && value == s.pushed[e]
  }

  ghost predicate Sized(s: State) {
    |s.pushed| < TicketLimit() && forall j :: 0 <= j < |s.pushed| ==> |s.pushed[j]| == s.size
  }

  ghost predicate Inv(s: State) {
    && |s.cells| > 0 && Sized(s)
    && ProducerInv(s)
    && (forall k :: 0 <= k < |s.cells| ==> CellInv(s, k))
    && DropInv(s) && PopsInv(s) && SkipInv(s) && ConsumerInv(s)
  }

  // ----- Preservation -----------------------------------------------------

  /** What a producer step may do to the parts the consumer relies on. */
  ghost predicate ProducerFrame(s: State, s': State) {
    && |s'.cells| == |s.cells| > 0
    && s'.size == s.size && s'.consumer == s.consumer && s'.consumed == s.consumed && s'.pops == s.pops
    && s.published <= s'.published && s.pushed <= s'.pushed && s.counted <= s'.counted
    && (forall k :: 0 <= k < |s.cells| ==>
          && s.cells[k].version <= s'.cells[k].version
          && (s'.cells[k].version == s.cells[k].version && s.cells[k].version % 2 == 0 ==> s'.cells[k] == s.cells[k]))
  }

  lemma PendingFramed(s: State, s': State, e: nat)
    requires Pending(s, e) && s'.consumed == s.consumed && s.published <= s'.published
    requires s.counted <= s'.counted && |s'.cells| == |s.cells|
    ensures Pending(s', e)
  {
    forall d | s'.consumed <= d < e
      ensures Overwritten(s', d)
    {
      assert Overwritten(s, d);
    }
  }

  lemma FramedConsumer(s: State, s': State)
    requires |s.cells| > 0 && ConsumerInv(s) && PopsInv(s) && SkipInv(s) && ProducerFrame(s, s')
    ensures ConsumerInv(s') && PopsInv(s') && SkipInv(s')
  {
    if !s.consumer.ConsumerIdle? && !s.consumer.Counted? {
      PendingFramed(s, s', s.consumer.index);
    }
    if s.consumer.Confirming? && s.consumer.before == s.consumer.after {
      var j :| 0 <= j < |s.pushed| && s.consumer.bytes == Encoded(s, j);
      assert s.consumer.bytes == Encoded(s', j);
    }
    forall e | 0 <= e < s'.consumed && !WasPopped(s', e)
      ensures Overwritten(s', e)
    {
      assert !WasPopped(s, e);
      assert Overwritten(s, e);
    }
  }

  lemma KeptCell(s: State, s': State, k: nat)
    requires k < |s.cells| == |s'.cells| && CellInv(s, k) && s'.cells[k] == s.cells[k]
    requires s'.size == s.size && s.pushed <= s'.pushed
    requires s'.producer.Storing? && Place(s', s'.producer.index) == k
             <==> s.producer.Storing? && Place(s, s.producer.index) == k
    ensures CellInv(s', k)
  {
    if s.cells[k].version % 2 == 0 && s.cells[k].version > 0 {
      var j :| 0 <= j < |s.pushed| && s.cells[k].bytes == Encoded(s, j);
      assert s'.cells[k].bytes == Encoded(s', j);
    }
  }

  lemma CheckingKeeps(s: State)
    requires Inv(s) && (s.producer.Checking? || s.producer.Dropping?)
    ensures Inv(StepProducer(s))
  {
    var s' := StepProducer(s);
    forall k | 0 <= k < |s.cells|
      ensures CellInv(s', k)
    {
      KeptCell(s, s', k);
    }
    FramedConsumer(s, s');
  }

  lemma MarkingCell(s: State, k: nat)
    requires Inv(s) && s.producer.Marking? && k < |s.cells|
    ensures CellInv(StepProducer(s), k)
  {
    var s', target := StepProducer(s), Place(s, s.published);
    assert CellInv(s, k) && Place(s', s.published) == target;
    if k != target {
      KeptCell(s, s', k);
    }
  }

  lemma MarkingFrame(s: State)
    requires Inv(s) && s.producer.Marking?
    ensures ProducerFrame(s, StepProducer(s))
  {
    assert CellInv(s, Place(s, s.published));
  }

  lemma MarkingKeeps(s: State)
    requires Inv(s) && s.producer.Marking?
    ensures Inv(StepProducer(s))
  {
    var s' := StepProducer(s);
    forall k | 0 <= k < |s.cells|
      ensures CellInv(s', k)
    {
      MarkingCell(s, k);
    }
    assert CellInv(s, Place(s, s.published));
    MarkingFrame(s);
    FramedConsumer(s, s');
  }

  /** One more byte of the event is in its cell. */
  lemma StoringPrefix(s: State)
    requires Inv(s) && s.producer.Storing?
    ensures ProducerInv(StepProducer(s))
  {
    var s', target, next := StepProducer(s), Place(s, s.published), s.producer.next;
    var bytes := Encoded(s, s.published);
    if next < Width(s) {
      assert bytes[..next + 1] == bytes[..next] + [bytes[next]];
      var stored := s'.cells[target].bytes;
      assert stored[..next + 1] == stored[..next] + [stored[next]];
      assert stored[..next] == s.cells[target].bytes[..next];
    }
  }

  lemma StoringCell(s: State, k: nat)
    requires Inv(s) && s.producer.Storing? && k < |s.cells|
    ensures CellInv(StepProducer(s), k)
  {
    var s', target, next := StepProducer(s), Place(s, s.published), s.producer.next;
    var bytes := Encoded(s, s.published);
    assert CellInv(s, k) && Place(s', s.published) == target;
    if k != target {
      KeptCell(s, s', k);
    } else if next >= Width(s) {
      assert s.cells[target].bytes == s.cells[target].bytes[..next] == bytes[..next] == bytes;
      assert s'.cells[target].bytes == Encoded(s', s.published);
    }
  }

  lemma StoringFrame(s: State)
    requires Inv(s) && s.producer.Storing?
    ensures ProducerFrame(s, StepProducer(s))
  {
    assert CellInv(s, Place(s, s.published));
  }

  lemma StoringKeeps(s: State)
    requires Inv(s) && s.producer.Storing?
    ensures Inv(StepProducer(s))
  {
    var s' := StepProducer(s);
    StoringPrefix(s);
    forall k | 0 <= k < |s.cells|
      ensures CellInv(s', k)
    {
      StoringCell(s, k);
    }
    StoringFrame(s);
    FramedConsumer(s, s');
  }

  lemma PublishingKeeps(s: State)
    requires Inv(s) && s.producer.Publishing?
    ensures Inv(StepProducer(s))
  {
    var s' := StepProducer(s);
    forall k | 0 <= k < |s.cells|
      ensures CellInv(s', k)
    {
      KeptCell(s, s', k);
    }
    FramedConsumer(s, s');
  }

  lemma PushKeeps(s: State, value: Payload)
    requires Inv(s)
    ensures Inv(Apply(s, Push(value)))
  {
    var s' := Apply(s, Push(value));
    forall k | 0 <= k < |s.cells|
      ensures CellInv(s', k)
    {
      KeptCell(s, s', k);
    }
    FramedConsumer(s, s');
  }

  /** The consumer changes nothing the producer relies on except by raising `consumed`. */
  lemma ConsumerKeepsProducer(s: State, s': State)
    requires Inv(s)
    requires s' == s.(consumer := s'.consumer, consumed := s'.consumed, pops := s'.pops)
    requires s.consumed <= s'.consumed <= s.published
    ensures ProducerInv(s') && DropInv(s') && forall k :: 0 <= k < |s'.cells| ==> CellInv(s', k)
  {
    forall k | 0 <= k < |s'.cells|
      ensures CellInv(s', k)
    {
      KeptCell(s, s', k);
    }
  }

  lemma PopsStay(s: State, s': State, d: nat)
    requires s.pops <= s'.pops
    ensures WasPopped(s, d) ==> WasPopped(s', d)
  {
    if WasPopped(s, d) {
      var i :| 0 <= i < |s.pops| && s.pops[i].index == d;
      assert s'.pops[i].index == d;
    }
  }

  lemma CommittingKeeps(s: State)
    requires Inv(s) && s.consumer.Committing?
    ensures Inv(StepConsumer(s))
  {
    var s', e := StepConsumer(s), s.consumer.index;
    ConsumerKeepsProducer(s, s');
    forall d | 0 <= d < s'.consumed && !WasPopped(s', d)
      ensures Overwritten(s', d)
    {
      assert s'.pops[|s.pops|].index == e;
      if d < s.consumed {
        PopsStay(s, s', d);
        assert Overwritten(s, d);
      } else {
        assert d != e && Overwritten(s, d);
      }
    }
  }

  lemma ConfirmingKeeps(s: State)
    requires Inv(s) && s.consumer.Confirming?
    ensures Inv(StepConsumer(s))
  {
    var s' := StepConsumer(s);
    ConsumerKeepsProducer(s, s');
    SkipFramed(s, s');
    PendingFramed(s, s', s.consumer.index);
    if s.consumer.before == s.consumer.after {
      ConfirmedIsPushed(s);
    }
  }

  /** A confirmed copy is a pushed event, and its ticket says which. */
  lemma ConfirmedIsPushed(s: State)
    requires |s.cells| > 0 && Sized(s) && ConsumerInv(s) && s.consumer.Confirming?
    requires s.consumer.before == s.consumer.after
    ensures var (ticket, value) := Decode(s.consumer.bytes);
            1 <= ticket <= |s.pushed| && value == s.pushed[ticket - 1]
  {
    var j :| 0 <= j < |s.pushed| && s.consumer.bytes == Encoded(s, j);
    EventSurvives(j + 1, s.pushed[j]);
  }

  lemma SkipFramed(s: State, s': State)
    requires SkipInv(s) && s'.pops == s.pops && s'.consumed == s.consumed && s'.counted == s.counted
    requires |s'.cells| == |s.cells|
    ensures SkipInv(s')
  {
    forall e | 0 <= e < s'.consumed && !WasPopped(s', e)
      ensures Overwritten(s', e)
    {
      assert !WasPopped(s, e);
      assert Overwritten(s, e);
    }
  }

  /** Choosing the event to read: everything passed over is already counted. */
  lemma CountedKeeps(s: State)
    requires Inv(s) && s.consumer.Counted?
    ensures Inv(StepConsumer(s))
  {
    var s' := StepConsumer(s);
    ConsumerKeepsProducer(s, s');
    SkipFramed(s, s');
    if s'.consumer.Attempting? {
      forall d | s'.consumed <= d < s'.consumer.index
        ensures Overwritten(s', d)
      {
        assert s.consumed + |s.cells| <= d + |s.cells| < Tested(s);
      }
    }
  }

  lemma AttemptingKeeps(s: State)
    requires Inv(s) && s.consumer.Attempting?
    ensures Inv(StepConsumer(s))
  {
    var s' := StepConsumer(s);
    ConsumerKeepsProducer(s, s');
    SkipFramed(s, s');
    PendingFramed(s, s', s.consumer.index);
  }

  lemma CopyingKeeps(s: State)
    requires Inv(s) && s.consumer.Copying?
    ensures Inv(StepConsumer(s))
  {
    var s' := StepConsumer(s);
    ConsumerKeepsProducer(s, s');
    SkipFramed(s, s');
    PendingFramed(s, s', s.consumer.index);
    var cell := s.cells[Place(s, s.consumer.index)];
    assert CellInv(s, Place(s, s.consumer.index));
    if |s.consumer.bytes| >= |cell.bytes| && cell.version == s.consumer.before {
      assert s.consumer.bytes == cell.bytes;
      var j :| 0 <= j < |s.pushed| && cell.bytes == Encoded(s, j);
      assert s'.consumer.bytes == Encoded(s', j);
    }
  }

  lemma PopKeeps(s: State)
    requires Inv(s)
    ensures Inv(Apply(s, Pop))
  {
    if s.consumer.ConsumerIdle? {
      ConsumerKeepsProducer(s, Apply(s, Pop));
      SkipFramed(s, Apply(s, Pop));
    }
  }

  lemma ApplyKeepsInv(s: State, a: Action)
    requires Inv(s)
    ensures Inv(Apply(s, a))
  {
    match a
    case Push(value) => PushKeeps(s, value);
    case ProducerStep =>
      match s.producer {
        case ProducerIdle =>
        case Checking(value, p) => CheckingKeeps(s);
        case Dropping(value, p) => CheckingKeeps(s);
        case Marking(value, p) => MarkingKeeps(s);
        case Storing(value, p, next) => StoringKeeps(s);
        case Publishing(value, p) => PublishingKeeps(s);
      }
    case Pop => PopKeeps(s);
    case ConsumerStep =>
      match s.consumer {
        case ConsumerIdle =>
        case Counted(seen) => CountedKeeps(s);
        case Attempting(e, attempt) => AttemptingKeeps(s);
        case Copying(e, attempt, before, bytes) => CopyingKeeps(s);
        case Confirming(e, attempt, before, bytes, after) => ConfirmingKeeps(s);
        case Committing(e, value) => CommittingKeeps(s);
      }
  }

  lemma {:induction false} RunInv(size: nat, capacity: nat, actions: seq<Action>)
    requires capacity > 0
    ensures Inv(Run(size, capacity, actions))
  {
    if actions != [] {
      RunInv(size, capacity, actions[..|actions| - 1]);
      ApplyKeepsInv(Run(size, capacity, actions[..|actions| - 1]), actions[|actions| - 1]);
    }
  }

  // ----- Theorems over every interleaving ---------------------------------

  /** Pops return exactly pushed values, whole, at strictly increasing positions. */
  lemma PopsAreUntornAndOrdered(size: nat, capacity: nat, actions: seq<Action>)
    requires capacity > 0
    ensures var s := Run(size, capacity, actions);
            && (forall i :: 0 <= i < |s.pops| ==>
                  s.pops[i].index < |s.pushed| && s.pops[i].value == s.pushed[s.pops[i].index])
            && (forall i, j :: 0 <= i < j < |s.pops| ==> s.pops[i].index < s.pops[j].index)
  {
    RunInv(size, capacity, actions);
  }

  function PoppedIndices(pops: seq<Popped>): set<nat> {
    set i | 0 <= i < |pops| :: pops[i].index
  }

  lemma {:induction false} DistinctPops(pops: seq<Popped>)
    requires forall i, j :: 0 <= i < j < |pops| ==> pops[i].index < pops[j].index
    ensures |PoppedIndices(pops)| == |pops|
  {
    if pops != [] {
      var shorter := pops[..|pops| - 1];
      DistinctPops(shorter);
      assert PoppedIndices(pops) == PoppedIndices(shorter) + {pops[|pops| - 1].index};
    }
  }

  function Below(n: nat): set<nat> {
    if n == 0 then {} else Below(n - 1) + {n - 1}
  }

  lemma {:induction false} BelowIsBelow(n: nat)
    ensures |Below(n)| == n && forall e: nat :: e in Below(n) <==> e < n
  {
    if n > 0 {
      BelowIsBelow(n - 1);
    }
  }

  function Shifted(events: set<nat>, shift: nat): set<nat> {
    set e | e in events :: e + shift
  }

  lemma {:induction false} ShiftSize(events: set<nat>, shift: nat)
    ensures |Shifted(events, shift)| == |events|
  {
    if events != {} {
      var e :| e in events;
      var rest := events - {e};
      ShiftSize(rest, shift);
      assert Shifted(events, shift) == Shifted(rest, shift) + {e + shift} by {
        forall x | x in Shifted(events, shift)
          ensures x in Shifted(rest, shift) + {e + shift}
        {
          var d :| d in events && d + shift == x;
          if d != e {
            assert d in rest;
          }
        }
        assert Shifted(rest, shift) <= Shifted(events, shift);
      }
    }
  }

  /** If each of the first `consumed` events was popped or has a counted successor, the count covers the rest. */
  lemma CountCoversSkips(pops: seq<Popped>, consumed: nat, counted: set<nat>, capacity: nat)
    requires forall i, j :: 0 <= i < j < |pops| ==> pops[i].index < pops[j].index
    requires forall i :: 0 <= i < |pops| ==> pops[i].index < consumed
    requires Shifted(Below(consumed) - PoppedIndices(pops), capacity) <= counted
    ensures |pops| <= consumed && consumed - |pops| <= |counted|
  {
    var popped := PoppedIndices(pops);
    var skipped := Below(consumed) - popped;
    DistinctPops(pops);
    BelowIsBelow(consumed);
    assert popped <= Below(consumed);
    assert Below(consumed) == popped + skipped;
    ShiftSize(skipped, capacity);
    SubsetSize(Shifted(skipped, capacity), counted);
  }

  /** The drop counter is never below the number of events the consumer skipped. */
  lemma DroppedCoversSkipped(size: nat, capacity: nat, actions: seq<Action>)
    requires capacity > 0
    ensures var s := Run(size, capacity, actions);
            |s.pops| <= s.consumed && s.consumed - |s.pops| <= s.dropped
  {
    var s := Run(size, capacity, actions);
    RunInv(size, capacity, actions);
    BelowIsBelow(s.consumed);
    var skipped := Below(s.consumed) - PoppedIndices(s.pops);
    forall x | x in Shifted(skipped, capacity)
      ensures x in s.counted
    {
      var e :| e in skipped && e + capacity == x;
      assert !WasPopped(s, e) && Overwritten(s, e);
    }
    CountCoversSkips(s.pops, s.consumed, s.counted, capacity);
  }

  lemma {:induction false} SubsetSize(a: set<nat>, b: set<nat>)
    requires a <= b
    ensures |a| <= |b|
  {
    if a != {} {
      var x :| x in a;
      SubsetSize(a - {x}, b - {x});
    }
  }

  // ----- Push and pop as whole operations ---------------------------------

  function Min(a: nat, b: nat): nat {
    if a < b then a else b
  }

  lemma MultipleBounds(k: int, capacity: nat)
    ensures k >= 1 ==> k * capacity >= capacity
    ensures k <= 0 ==> k * capacity <= 0
  {
  }

  lemma SameRemainder(j: nat, p: nat, capacity: nat)
    requires 0 < capacity && j % capacity == p % capacity
    ensures p - j == (p / capacity - j / capacity) * capacity
  {
  }

  lemma PlacesDiffer(j: nat, p: nat, capacity: nat)
    requires 0 < capacity && j < p < j + capacity
    ensures j % capacity != p % capacity
  {
    if j % capacity == p % capacity {
      SameRemainder(j, p, capacity);
      MultipleBounds(p / capacity - j / capacity, capacity);
    }
  }

  /** The queue as whole operations see it: what each cell holds, and the counters. */
  datatype Queue = Queue(slots: seq<Option<(nat, Payload)>>, published: nat, consumed: nat, dropped: nat)

  function PushWhole(q: Queue, value: Payload): Queue
    requires |q.slots| > 0
  {
    Queue(q.slots[q.published % |q.slots| := Some((q.published + 1, value))],
          q.published + 1, q.consumed,
          if q.published - q.consumed >= |q.slots| then q.dropped + 1 else q.dropped)
  }

  /** The event a pop looks for. */
  function Wanted(q: Queue): nat {
    var oldest := Oldest(q.published, |q.slots|);
    if q.consumed < oldest then oldest else q.consumed
  }

  function PopWhole(q: Queue): (Queue, Option<Payload>)
    requires |q.slots| > 0
  {
    if q.consumed >= q.published then (q, None)
    else
      var stored := q.slots[Wanted(q) % |q.slots|];
      if stored.None? || stored.value.0 != Wanted(q) + 1 then (q, None)
      else (q.(consumed := Wanted(q) + 1), Some(stored.value.1))
  }

  // ----- The steps of one operation, taken without interleaving -----------

  function CellValue(cell: Cell): Option<(nat, Payload)> {
    if cell.version == 0 then None else Some(Decode(cell.bytes))
  }

  function Whole(s: State): (q: Queue)
    ensures |q.slots| == |s.cells|
  {
    Queue(seq(|s.cells|, k requires 0 <= k < |s.cells| => CellValue(s.cells[k])), s.published, s.consumed, s.dropped)
  }

  function Produce(s: State, n: nat): (s': State)
    requires |s.cells| > 0
    ensures |s'.cells| == |s.cells|
    decreases n
  {
    if n == 0 then s else Produce(StepProducer(s), n - 1)
  }

  function Consume(s: State, n: nat): (s': State)
    requires |s.cells| > 0
    ensures |s'.cells| == |s.cells|
    decreases n
  {
    if n == 0 then s else Consume(StepConsumer(s), n - 1)
  }

  lemma {:induction false} ProduceAdds(s: State, m: nat, n: nat)
    requires |s.cells| > 0
    ensures Produce(s, m + n) == Produce(Produce(s, m), n)
    decreases m
  {
    if m > 0 {
      ProduceAdds(StepProducer(s), m - 1, n);
    }
  }

  lemma {:induction false} ConsumeAdds(s: State, m: nat, n: nat)
    requires |s.cells| > 0
    ensures Consume(s, m + n) == Consume(Consume(s, m), n)
    decreases m
  {
    if m > 0 {
      ConsumeAdds(StepConsumer(s), m - 1, n);
    }
  }

  /** The bytes go into the cell one by one, then the version becomes even. */
  lemma {:induction false} StoreAlone(s: State)
    requires Inv(s) && s.producer.Storing?
    ensures var p, value, k := s.published, s.producer.value, Place(s, s.published);
            Produce(s, Width(s) - s.producer.next + 1)
            == s.(cells := s.cells[k := Cell(s.cells[k].version + 1, Encode(p + 1, value))],
                  producer := Publishing(value, p))
    decreases Width(s) - s.producer.next
  {
    var s', k := StepProducer(s), Place(s, s.published);
    var bytes, next := Encoded(s, s.published), s.producer.next;
    StoringKeeps(s);
    if next < Width(s) {
      StoreAlone(s');
      assert s'.cells[k := Cell(s.cells[k].version + 1, bytes)] == s.cells[k := Cell(s.cells[k].version + 1, bytes)];
    } else {
      assert s.cells[k].bytes == s.cells[k].bytes[..next] == bytes[..next] == bytes;
      assert Produce(s, 1) == Produce(s', 0) == s';
    }
  }

  /** A push up to its drop test and count. */
  lemma CountAlone(s: State, value: Payload) returns (n: nat)
    requires Inv(s) && s.producer.ProducerIdle? && MayPush(s, value)
    ensures var p, full := s.published, s.published - s.consumed >= |s.cells|;
            Produce(Apply(s, Push(value)), n)
            == s.(pushed := s.pushed + [value],
                  dropped := if full then s.dropped + 1 else s.dropped,
                  counted := if full then s.counted + {p} else s.counted,
                  producer := Marking(value, p))
    ensures Inv(Produce(Apply(s, Push(value)), n))
  {
    var s1 := Apply(s, Push(value));
    PushKeeps(s, value);
    var s2 := StepProducer(s1);
    CheckingKeeps(s1);
    if s2.producer.Marking? {
      n := 1;
      assert Produce(s1, 1) == Produce(s2, 0);
    } else {
      n := 2;
      CheckingKeeps(s2);
      assert Produce(s1, 2) == Produce(s2, 1) == Produce(StepProducer(s2), 0);
    }
  }

  /** From there on: the cell is marked, written and published. */
  lemma WriteAlone(s: State) returns (n: nat)
    requires Inv(s) && s.producer.Marking?
    ensures var p, value, k := s.published, s.producer.value, Place(s, s.published);
            Produce(s, n)
            == s.(cells := s.cells[k := Cell(s.cells[k].version + 2, Encode(p + 1, value))],
                  published := p + 1, producer := ProducerIdle)
  {
    var marked := StepProducer(s);
    MarkingKeeps(s);
    StoreAlone(marked);
    var stored := Produce(marked, Width(s) + 1);
    assert Produce(s, 1) == Produce(marked, 0);
    ProduceAdds(s, 1, Width(s) + 1);
    ProduceAdds(s, 1 + (Width(s) + 1), 1);
    assert Produce(stored, 1) == Produce(StepProducer(stored), 0);
    n := 1 + (Width(s) + 1) + 1;
  }

  /** All the steps of one push, one after the other, are the whole push. */
  lemma PushAlone(s: State, value: Payload) returns (n: nat)
    requires Inv(s) && s.producer.ProducerIdle? && MayPush(s, value)
    ensures var s' := Produce(Apply(s, Push(value)), n);
            && s'.producer.ProducerIdle? && s'.consumer == s.consumer && s'.pops == s.pops
            && s'.pushed == s.pushed + [value]
            && Whole(s') == PushWhole(Whole(s), value)
  {
    var p, k := s.published, Place(s, s.published);
    var count := CountAlone(s, value);
    var counted := Produce(Apply(s, Push(value)), count);
    var write := WriteAlone(counted);
    ProduceAdds(Apply(s, Push(value)), count, write);
    n := count + write;
    EventSurvives(p + 1, value);
    var s' := Produce(counted, write);
    assert Whole(s').slots == PushWhole(Whole(s), value).slots;
  }

  /** With no push in progress, a copy takes the cell as it is. */
  lemma {:induction false} CopyAlone(s: State)
    requires Inv(s) && s.producer.ProducerIdle? && s.consumer.Copying?
    requires var cell := s.cells[Place(s, s.consumer.index)];
             cell.version == s.consumer.before && |s.consumer.bytes| <= |cell.bytes|
             && s.consumer.bytes == cell.bytes[..|s.consumer.bytes|]
    ensures var c, cell := s.consumer, s.cells[Place(s, s.consumer.index)];
            Consume(s, |cell.bytes| - |c.bytes| + 1)
            == s.(consumer := Confirming(c.index, c.attempt, c.before, cell.bytes, cell.version))
    decreases |s.cells[Place(s, s.consumer.index)].bytes| - |s.consumer.bytes|
  {
    var s', cell := StepConsumer(s), s.cells[Place(s, s.consumer.index)];
    CopyingKeeps(s);
    if |s.consumer.bytes| < |cell.bytes| {
      assert s'.consumer.bytes == cell.bytes[..|s'.consumer.bytes|];
      CopyAlone(s');
    } else {
      assert s.consumer.bytes == cell.bytes;
      assert Consume(s, 1) == Consume(s', 0) == s';
    }
  }

  /** A cell that was never written is tried until the attempts run out. */
  lemma {:induction false} EmptyAlone(s: State)
    requires |s.cells| > 0 && s.consumer.Attempting? && s.consumer.attempt <= ATTEMPTS
    requires s.cells[Place(s, s.consumer.index)].version == 0
    ensures Consume(s, ATTEMPTS - s.consumer.attempt + 1) == s.(consumer := ConsumerIdle)
    decreases ATTEMPTS - s.consumer.attempt
  {
    if s.consumer.attempt < ATTEMPTS {
      EmptyAlone(StepConsumer(s));
    } else {
      assert Consume(s, 1) == Consume(StepConsumer(s), 0);
    }
  }

  /** The outcome of a pop that has chosen its event. */
  function PopOutcome(s: State, e: nat): State
    requires |s.cells| > 0
  {
    var stored := CellValue(s.cells[Place(s, e)]);
    if stored.None? || stored.value.0 != e + 1 then s.(consumer := ConsumerIdle)
    else s.(consumed := e + 1, consumer := ConsumerIdle, pops := s.pops + [Popped(e, stored.value.1)])
  }

  lemma ReadAlone(s: State) returns (n: nat)
    requires Inv(s) && s.producer.ProducerIdle? && s.consumer.Attempting? && s.consumer.attempt == 0
    requires s.cells[Place(s, s.consumer.index)].version > 0
    ensures var e, cell := s.consumer.index, s.cells[Place(s, s.consumer.index)];
            Consume(s, n) == s.(consumer := Confirming(e, 0, cell.version, cell.bytes, cell.version))
    ensures s.cells[Place(s, s.consumer.index)].version % 2 == 0
  {
    var cell := s.cells[Place(s, s.consumer.index)];
    assert CellInv(s, Place(s, s.consumer.index));
    var copying := StepConsumer(s);
    AttemptingKeeps(s);
    CopyAlone(copying);
    assert Consume(s, 1) == Consume(copying, 0);
    ConsumeAdds(s, 1, |cell.bytes| + 1);
    n := 1 + (|cell.bytes| + 1);
  }

  /** A whole even copy is judged by its ticket. */
  lemma JudgeAlone(s: State) returns (n: nat)
    requires |s.cells| > 0 && s.consumer.Confirming?
    requires var cell := s.cells[Place(s, s.consumer.index)];
             s.consumer.before == s.consumer.after == cell.version > 0 && cell.version % 2 == 0
             && s.consumer.bytes == cell.bytes
    ensures Consume(s, n) == PopOutcome(s, s.consumer.index)
  {
    var judged := StepConsumer(s);
    if judged.consumer.Committing? {
      n := 2;
      assert Consume(s, 2) == Consume(judged, 1) == Consume(StepConsumer(judged), 0);
    } else {
      n := 1;
      assert Consume(s, 1) == Consume(judged, 0);
    }
  }

  lemma AttemptAlone(s: State) returns (n: nat)
    requires Inv(s) && s.producer.ProducerIdle? && s.consumer.Attempting? && s.consumer.attempt == 0
    ensures Consume(s, n) == PopOutcome(s, s.consumer.index)
  {
    if s.cells[Place(s, s.consumer.index)].version == 0 {
      EmptyAlone(s);
      n := ATTEMPTS + 1;
    } else {
      var read := ReadAlone(s);
      var judge := JudgeAlone(Consume(s, read));
      ConsumeAdds(s, read, judge);
      n := read + judge;
    }
  }

  /** The outcome of the steps is that of the whole pop. */
  lemma OutcomeIsWhole(s: State, chosen: State)
    requires |s.cells| > 0 && s.consumed < s.published
    requires chosen == s.(consumer := Attempting(Wanted(Whole(s)), 0))
    ensures var s', (q, event) := PopOutcome(chosen, Wanted(Whole(s))), PopWhole(Whole(s));
            && Whole(s') == q
            && s'.pops == s.pops + (if event.Some? then [Popped(Wanted(Whole(s)), event.value)] else [])
  {
    var e := Wanted(Whole(s));
    assert Whole(s).slots[Place(s, e)] == CellValue(s.cells[Place(s, e)]);
    assert Whole(PopOutcome(chosen, e)).slots == Whole(s).slots;
  }

  lemma ChooseAlone(s: State)
    requires Inv(s) && s.consumer.ConsumerIdle?
    ensures var next := Consume(Apply(s, Pop), 1);
            && Inv(next)
            && next == s.(consumer := if s.consumed >= s.published then ConsumerIdle
                                      else Attempting(Wanted(Whole(s)), 0))
  {
    var counted := Apply(s, Pop);
    PopKeeps(s);
    CountedKeeps(counted);
    assert Consume(counted, 1) == Consume(StepConsumer(counted), 0);
  }

  /** All the steps of one pop, one after the other, are the whole pop. */
  lemma PopAlone(s: State) returns (n: nat)
    requires Inv(s) && s.producer.ProducerIdle? && s.consumer.ConsumerIdle?
    ensures var s', (q, event) := Consume(Apply(s, Pop), n), PopWhole(Whole(s));
            && s'.consumer.ConsumerIdle? && s'.producer == s.producer && s'.pushed == s.pushed
            && Whole(s') == q
            && s'.pops == s.pops + (if event.Some? then [Popped(Wanted(Whole(s)), event.value)] else [])
  {
    ChooseAlone(s);
    n := 1;
    if s.consumed < s.published {
      var chosen := Consume(Apply(s, Pop), 1);
      var m := AttemptAlone(chosen);
      ConsumeAdds(Apply(s, Pop), 1, m);
      n := 1 + m;
      OutcomeIsWhole(s, chosen);
    }
  }

  /** The events that are still held are where their index says, ticket and all. */
  ghost predicate Window(slots: seq<Option<(nat, Payload)>>, pushed: seq<Payload>) {
    |slots| > 0 && forall j :: Oldest(|pushed|, |slots|) <= j < |pushed| ==> slots[j % |slots|] == Some((j + 1,
                                                                                                         pushed[j]))
  }

  lemma WindowAfterPush(slots: seq<Option<(nat, Payload)>>, pushed: seq<Payload>, value: Payload, capacity: nat)
    requires capacity == |slots| && Window(slots, pushed)
    ensures Window(slots[|pushed| % capacity := Some((|pushed| + 1, value))], pushed + [value])
  {
    var p, slots', pushed' := |pushed|, slots[|pushed| % capacity := Some((|pushed| + 1, value))], pushed + [value];
    forall j | Oldest(p + 1, capacity) <= j < p + 1
      ensures slots'[j % capacity] == Some((j + 1, pushed'[j]))
    {
      if j < p {
        PlacesDiffer(j, p, capacity);
      }
    }
  }

  // ----- The queue object -------------------------------------------------

  /** The queue when no push overlaps a pop: `PushAlone` and `PopAlone` tie it to the steps. */
  class SensorEventQueue {
    const capacity: nat
    var slots: seq<Option<(nat, Payload)>>
    var published: nat
    var consumed: nat
    var dropped: nat
    ghost var pushed: seq<Payload>
    ghost var popped: nat

    /** The window of events still held, and the conservation of events: each pushed event
        has been popped, counted as dropped, or is still waiting. */
    ghost predicate Valid()
      reads this
    {
      && capacity > 0 && |slots| == capacity
      && published == |pushed| && consumed <= published
      && Window(slots, pushed)
      && popped + dropped + Min(published - consumed, capacity) == published
    }

    ghost function First(): (e: nat)
      requires Valid()
      reads this
      ensures e <= |pushed|
    {
      if consumed < Oldest(published, capacity) then Oldest(published, capacity) else consumed
    }

    ghost function View(): Queue
      reads this
    {
      Queue(slots, published, consumed, dropped)
    }

    /** The events a consumer can still get, oldest first. */
    ghost function Contents(): (c: seq<Payload>)
      requires Valid()
      reads this
      ensures |c| == Min(published - consumed, capacity)
    {
      pushed[First()..]
    }

    constructor (capacity: nat)
      requires capacity > 0
      ensures Valid() && this.capacity == capacity && Contents() == []
      ensures popped == dropped == 0
    {
      this.capacity := capacity;
      slots := seq(capacity, _ => None);
      published, consumed, dropped := 0, 0, 0;
      pushed, popped := [], 0;
    }

    method Push(value: Payload)
      requires Valid()
      modifies this
      ensures Valid() && pushed == old(pushed) + [value] && popped == old(popped)
      ensures View() == PushWhole(old(View()), value)
      ensures |old(Contents())| < capacity ==> Contents() == old(Contents()) + [value] && dropped == old(dropped)
      ensures |old(Contents())| == capacity ==>
                Contents() == old(Contents())[1..] + [value] && dropped == old(dropped) + 1
    {
      var p := published;
      if p - consumed >= capacity {
        dropped := dropped + 1;
      }
      slots := slots[p % capacity := Some((p + 1, value))];
      published := p + 1;
      pushed := pushed + [value];
      WindowAfterPush(old(slots), old(pushed), value, capacity);
      assert Valid();
    }

    method Pop() returns (event: Option<Payload>)
      requires Valid()
      modifies this
      ensures Valid() && pushed == old(pushed) && dropped == old(dropped)
      ensures (View(), event) == PopWhole(old(View()))
      ensures old(Contents()) == [] ==> event == None && Contents() == [] && popped == old(popped)
      ensures old(Contents()) != [] ==>
                && event == Some(old(Contents())[0])
                && Contents() == old(Contents())[1..]
                && popped == old(popped) + 1
    {
      var p, c := published, consumed;
      if c >= p {
        return None;
      }
      var oldest := Oldest(p, capacity);
      if c < oldest {
        c := oldest;
      }
      var stored := slots[c % capacity];
      if stored.None? || stored.value.0 != c + 1 {
        return None;
      }
      consumed := c + 1;
      popped := popped + 1;
      return Some(stored.value.1);
    }
  }

  // ----- When a pop returns nothing ---------------------------------------

  /**
   A pop returns nothing only because it found nothing new, or made all sixteen attempts, or copied another event
   than the one it was after; a copy that was disturbed is tried again.
   */
  lemma EmptyPopHasACause(size: nat, capacity: nat, actions: seq<Action>, a: Action)
    requires capacity > 0
    requires var s, s' := Run(size, capacity, actions), Apply(Run(size, capacity, actions), a);
             !s.consumer.ConsumerIdle? && s'.consumer.ConsumerIdle? && s'.pops == s.pops
    ensures var s := Run(size, capacity, actions);
            a == ConsumerStep &&
            match s.consumer
            case Counted(seen) => s.consumed >= seen
            case Attempting(_, attempt) => attempt >= 16
            case Confirming(e, _, before, bytes, after) => before == after && CopiedAnother(s, e, bytes)
            case _ => false
  {
    RunInv(size, capacity, actions);
    OnlyConsumerEndsPop(Run(size, capacity, actions), a);
    EmptyPopStep(Run(size, capacity, actions));
  }

  lemma OnlyConsumerEndsPop(s: State, a: Action)
    requires |s.cells| > 0 && Apply(s, a).consumer != s.consumer && !s.consumer.ConsumerIdle?
    ensures a == ConsumerStep
  {
  }

  /** The copy held is that of another event. */
  predicate CopiedAnother(s: State, e: nat, bytes: Bytes) {
    exists j :: 0 <= j < |s.pushed| && j != e && bytes == Encoded(s, j)
  }

  lemma EmptyPopStep(s: State)
    requires |s.cells| > 0 && Sized(s) && ConsumerInv(s) && !s.consumer.ConsumerIdle?
    requires StepConsumer(s).consumer.ConsumerIdle? && StepConsumer(s).pops == s.pops
    ensures match s.consumer
            case Counted(seen) => s.consumed >= seen
            case Attempting(_, attempt) => attempt >= 16
            case Confirming(e, _, before, bytes, after) => before == after && CopiedAnother(s, e, bytes)
            case _ => false
  {
    if s.consumer.Confirming? && s.consumer.before == s.consumer.after {
      var j :| 0 <= j < |s.pushed| && s.consumer.bytes == Encoded(s, j);
      EventSurvives(j + 1, s.pushed[j]);
      assert j != s.consumer.index;
    }
  }
}
