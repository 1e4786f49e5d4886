/**
 ST3215 packets and the bounded incremental parser that finds them in a byte stream.
 */
module St3215Protocol {
  import opened Wrappers

  type Byte = x: int | 0 <= x < 256
  type Bytes = seq<Byte>

  const HEADER: Byte := 0xFF
  const MAX_PARAMETERS := 253
  const MAX_FRAME_SIZE := 259
  const CAPACITY := 518

  datatype Error = TooManyParameters | TooShort | BadHeader | BadLength | BadChecksum | CapacityExceeded

  datatype Packet = Packet(deviceId: Byte, instruction: Byte, parameters: Bytes)

  // ----- Packets ----------------------------------------------------------

  function Sum(bytes: Bytes): nat {
    if bytes == [] then 0 else Sum(bytes[..|bytes| - 1]) + bytes[|bytes| - 1]
  }

  /** `~total & 0xff` */
  function Checksum(deviceId: Byte, length: Byte, instruction: Byte, parameters: Bytes): Byte {
    255 - (deviceId + length + instruction + Sum(parameters)) % 256
  }

  method ComputeChecksum(deviceId: Byte, length: Byte, instruction: Byte, parameters: Bytes) returns (checksum: Byte)
    ensures checksum == Checksum(deviceId, length, instruction, parameters)
    ensures (deviceId + length + instruction + Sum(parameters) + checksum) % 256 == 255
  {
    var total: nat := deviceId + length + instruction;
    for i := 0 to |parameters|
      invariant total == deviceId + length + instruction + Sum(parameters[..i])
    {
      assert parameters[..i + 1][..i] == parameters[..i];
      total := total + parameters[i];
    }
    assert parameters[..|parameters|] == parameters;
    checksum := 255 - total % 256;
  }

  function Encode(packet: Packet): Result<Bytes, Error> {
    if |packet.parameters| > MAX_PARAMETERS then Failure(TooManyParameters)
    else
      var length: Byte := |packet.parameters| + 2;
      Success([HEADER, HEADER, packet.deviceId, length, packet.instruction] + packet.parameters
              + [Checksum(packet.deviceId, length, packet.instruction, packet.parameters)])
  }

  function Decode(frame: Bytes): Result<Packet, Error> {
    if |frame| < 6 then Failure(TooShort)
    else if frame[0] != HEADER || frame[1] != HEADER then Failure(BadHeader)
    else if frame[3] < 2 || (frame[3] as int) + 4 != |frame| then Failure(BadLength)
    else
      var parameters := frame[5..|frame| - 1];
      if frame[|frame| - 1] != Checksum(frame[2], frame[3], frame[4], parameters) then Failure(BadChecksum)
      else Success(Packet(frame[2], frame[4], parameters))
  }

  /** Every packet that can be encoded decodes to itself. */
  lemma EncodeThenDecode(packet: Packet)
    ensures Encode(packet).Success? <==> |packet.parameters| <= MAX_PARAMETERS
    ensures Encode(packet).Success? ==> Decode(Encode(packet).value) == Success(packet)
  {
    if Encode(packet).Success? {
      var frame := Encode(packet).value;
      assert frame[5..|frame| - 1] == packet.parameters;
    }
  }

  /** Every frame that decodes is the one encoding of its packet: no two frames mean the same. */
  lemma DecodeThenEncode(frame: Bytes)
    requires Decode(frame).Success?
    ensures Encode(Decode(frame).value) == Success(frame)
  {
    var packet := Decode(frame).value;
    assert Encode(packet).value == frame;
  }

  /** The bytes of a frame on the wire; everything behind the header, checksum included, sums to 255 modulo 256. */
  lemma FrameLayout(packet: Packet)
    requires Encode(packet).Success?
    ensures var frame := Encode(packet).value;
            && |frame| == |packet.parameters| + 6
            && frame[..5] == [0xFF, 0xFF, packet.deviceId, |frame| - 4, packet.instruction]
            && frame[5..|frame| - 1] == packet.parameters
            && Sum(frame[2..]) % 256 == 255
  {
    var frame := Encode(packet).value;
    var sum: Byte := frame[|frame| - 1];
    SumOfConcat([packet.deviceId, frame[3], packet.instruction], packet.parameters);
    SumOfThree(packet.deviceId, frame[3], packet.instruction);
    assert frame[2..|frame| - 1] == [packet.deviceId, frame[3], packet.instruction] + packet.parameters;
    SumOfConcat(frame[2..|frame| - 1], [sum]);
    assert frame[2..] == frame[2..|frame| - 1] + [sum];
    assert Sum([sum]) == sum by {
      assert [sum][..0] == [];
    }
  }

  lemma SumOfThree(a: Byte, b: Byte, c: Byte)
    ensures Sum([a, b, c]) == a + b + c
  {
    assert Sum([a]) == a;
    assert [a, b][..1] == [a] && Sum([a, b]) == a + b;
    assert [a, b, c][..2] == [a, b];
  }

  lemma {:induction false} SumOfConcat(a: Bytes, b: Bytes)
    ensures Sum(a + b) == Sum(a) + Sum(b)
    decreases |b|
  {
    if b == [] {
      assert a + b == a;
    } else {
      SumOfConcat(a, b[..|b| - 1]);
      assert (a + b)[..|a + b| - 1] == a + b[..|b| - 1];
    }
  }

  lemma {:induction false} SumOfChange(s: Bytes, k: nat, b: Byte)
    requires k < |s|
    ensures Sum(s[k := b]) == Sum(s) - s[k] + b
    decreases |s|
  {
    if k < |s| - 1 {
      SumOfChange(s[..|s| - 1], k, b);
      assert s[k := b][..|s| - 1] == s[..|s| - 1][k := b];
    } else {
      assert s[k := b][..|s| - 1] == s[..|s| - 1];
    }
  }

  /** A frame with one byte wrong, wherever it is, is never taken for a packet. */
  lemma OneWrongByteIsDetected(frame: Bytes, k: nat, b: Byte)
    requires Decode(frame).Success? && k < |frame| && b != frame[k]
    ensures Decode(frame[k := b]).Failure?
  {
    var wrong, parameters := frame[k := b], frame[5..|frame| - 1];
    if 5 <= k < |frame| - 1 {
      SumOfChange(parameters, k - 5, b);
      assert wrong[5..|frame| - 1] == parameters[k - 5 := b];
    } else {
      assert wrong[5..|frame| - 1] == parameters;
    }
    var total := frame[2] + frame[3] + frame[4] + Sum(parameters);
    RemaindersDiffer(total, total - frame[k] + b);
  }

  lemma RemaindersDiffer(m: int, n: int)
    requires m != n && -256 < m - n < 256
    ensures m % 256 != n % 256
  {
  }

  // ----- One step of the stream parser ------------------------------------

  predicate HeaderAt(s: Bytes, i: nat)
    requires i + 1 < |s|
  {
    s[i] == HEADER && s[i + 1] == HEADER
  }

  /** What is left after dropping everything before the next header. */
  function Resync(s: Bytes): (t: Bytes)
    ensures |t| <= |s|
    ensures |t| >= 2 ==> HeaderAt(t, 0)
  {
    if |s| < 2 || HeaderAt(s, 0) then s else Resync(s[1..])
  }

  /** The frame size announced by the length byte of a stream that starts at a header. */
  function FrameSize(t: Bytes): (size: int)
    requires |t| >= 4
    ensures 4 <= size <= MAX_FRAME_SIZE
  {
    (t[3] as int) + 4
  }

  datatype Item = Good(packet: Packet) | Bad(error: Error)

  function DecodeItem(frame: Bytes): Item {
    match Decode(frame)
    case Success(packet) => Good(packet)
    case Failure(error) => Bad(error)
  }

  datatype Parsed = Parsed(item: Option<Item>, rest: Bytes)

  /**
   The parser on a stream that starts at a header. A length byte of 255 makes a frame of
   exactly the maximum size, so the check of `next` against that maximum never fires.
   */
  function NextAligned(t: Bytes): (p: Parsed)
    ensures p.item.Some? ==> |p.rest| + 2 <= |t|
    ensures p.item.None? ==> |p.rest| < MAX_FRAME_SIZE && p.rest == t
  {
    if |t| < 4 then Parsed(None, t)
    else if t[3] < 2 then Parsed(Some(Bad(BadLength)), t[2..])
    else if |t| < FrameSize(t) then Parsed(None, t)
    else Parsed(Some(DecodeItem(t[..FrameSize(t)])), t[FrameSize(t)..])
  }

  function Next(s: Bytes): (p: Parsed)
    ensures p.item.Some? ==> |p.rest| + 2 <= |s|
    ensures p.item.None? ==> |p.rest| < MAX_FRAME_SIZE
  {
    NextAligned(Resync(s))
  }

  /** Everything `Next` yields until it has nothing more, and the bytes it keeps. */
  datatype Drained = Drained(items: seq<Item>, rest: Bytes)

  function Drain(s: Bytes): (d: Drained)
    ensures |d.rest| < MAX_FRAME_SIZE
    decreases |s|
  {
    var p := Next(s);
    if p.item.None? then Drained([], p.rest) else Cons(p.item.value, Drain(p.rest))
  }

  function Cons(item: Item, d: Drained): Drained {
    Drained([item] + d.items, d.rest)
  }

  function Prepend(items: seq<Item>, d: Drained): Drained {
    Drained(items + d.items, d.rest)
  }

  lemma PrependCons(item: Item, items: seq<Item>, d: Drained)
    ensures Prepend([item] + items, d) == Cons(item, Prepend(items, d))
    ensures Prepend(items + [item], d) == Prepend(items, Cons(item, d))
    ensures Prepend([], d) == d
  {
    assert [item] + items + d.items == [item] + (items + d.items);
    assert items + [item] + d.items == items + ([item] + d.items);
    assert [] + d.items == d.items;
  }

  lemma PrependPrepend(a: seq<Item>, b: seq<Item>, d: Drained)
    ensures Prepend(a, Prepend(b, d)) == Prepend(a + b, d)
  {
    assert a + b + d.items == a + (b + d.items);
  }

  // ----- Chunk independence -----------------------------------------------

  lemma {:induction false} ResyncAppend(s: Bytes, u: Bytes)
    ensures Resync(s + u) == Resync(Resync(s) + u)
    ensures |Resync(s)| >= 2 ==> Resync(s + u) == Resync(s) + u
    decreases |s|
  {
    if |s| >= 2 && !HeaderAt(s, 0) {
      assert (s + u)[1..] == s[1..] + u;
      ResyncAppend(s[1..], u);
    }
  }

  lemma AlignedAppend(t: Bytes, u: Bytes)
    requires NextAligned(t).item.Some?
    ensures NextAligned(t + u) == Parsed(NextAligned(t).item, NextAligned(t).rest + u)
  {
    assert (t + u)[3] == t[3];
    if t[3] < 2 {
      assert (t + u)[2..] == t[2..] + u;
    } else {
      assert (t + u)[..FrameSize(t)] == t[..FrameSize(t)];
      assert (t + u)[FrameSize(t)..] == t[FrameSize(t)..] + u;
    }
  }

  /** More bytes behind the stream change neither an item that is already complete nor what follows. */
  lemma NextAppend(s: Bytes, u: Bytes)
    ensures Next(s).item.Some? ==> Next(s + u) == Parsed(Next(s).item, Next(s).rest + u)
    ensures Next(s).item.None? ==> Next(s + u) == Next(Next(s).rest + u)
  {
    ResyncAppend(s, u);
    if Next(s).item.Some? {
      AlignedAppend(Resync(s), u);
    }
  }

  /** Draining early and going on with the kept bytes loses and changes nothing. */
  lemma {:induction false} DrainAppend(s: Bytes, u: Bytes)
    ensures Drain(s + u) == Prepend(Drain(s).items, Drain(Drain(s).rest + u))
    decreases |s|
  {
    NextAppend(s, u);
    var p := Next(s);
    if p.item.Some? {
      DrainAppend(p.rest, u);
      PrependCons(p.item.value, Drain(p.rest).items, Drain(Drain(s).rest + u));
    } else {
      DrainFromKept(s, u);
    }
  }

  lemma DrainFromKept(s: Bytes, u: Bytes)
    requires Next(s).item.None?
    ensures Drain(s + u) == Prepend([], Drain(Next(s).rest + u))
  {
    NextAppend(s, u);
    var d := Drain(Next(s).rest + u);
    assert Drain(s + u) == d;
    assert [] + d.items == d.items;
  }

  /** Feeding chunks one after the other, draining after each. */
  function DrainChunks(kept: Bytes, chunks: seq<Bytes>): Drained
    decreases |chunks|
  {
    if chunks == [] then Drained([], kept)
    else
      var first := Drain(kept + chunks[0]);
      Prepend(first.items, DrainChunks(first.rest, chunks[1..]))
  }

  function Concat(chunks: seq<Bytes>): Bytes {
    if chunks == [] then [] else chunks[0] + Concat(chunks[1..])
  }

  lemma {:induction false} DrainIsIdempotent(s: Bytes)
    ensures Drain(Drain(s).rest) == Drained([], Drain(s).rest)
    decreases |s|
  {
    if Next(s).item.Some? {
      DrainIsIdempotent(Next(s).rest);
    } else {
      NextAppend(s, []);
      assert s + [] == s && Next(s).rest + [] == Next(s).rest;
    }
  }

  lemma AppendIsAssociative(a: Bytes, b: Bytes, c: Bytes)
    ensures a + b + c == a + (b + c)
  {
  }

  lemma FirstChunk(kept: Bytes, chunk: Bytes, u: Bytes)
    ensures Drain(kept + (chunk + u)) == Prepend(Drain(kept + chunk).items, Drain(Drain(kept + chunk).rest + u))
  {
    AppendIsAssociative(kept, chunk, u);
    DrainAppend(kept + chunk, u);
  }

  lemma {:induction false} ChunksFromKept(kept: Bytes, chunks: seq<Bytes>)
    requires Drain(kept) == Drained([], kept)
    ensures DrainChunks(kept, chunks) == Drain(kept + Concat(chunks))
    decreases |chunks|
  {
    if chunks == [] {
      assert kept + [] == kept;
    } else {
      DrainIsIdempotent(kept + chunks[0]);
      FirstChunk(kept, chunks[0], Concat(chunks[1..]));
      ChunksFromKept(Drain(kept + chunks[0]).rest, chunks[1..]);
    }
  }

  /** However a byte stream is cut, the parser reports the same packets and errors and keeps the same bytes. */
  lemma ChunkIndependence(chunks: seq<Bytes>)
    ensures DrainChunks([], chunks) == Drain(Concat(chunks))
  {
    ChunksFromKept([], chunks);
    assert [] + Concat(chunks) == Concat(chunks);
  }

  // ----- What was sent is what is parsed ----------------------------------

  predicate Encodable(packets: seq<Packet>) {
    forall i :: 0 <= i < |packets| ==> |packets[i].parameters| <= MAX_PARAMETERS
  }

  function EncodeAll(packets: seq<Packet>): Bytes
    requires Encodable(packets)
  {
    if packets == [] then [] else Encode(packets[0]).value + EncodeAll(packets[1..])
  }

  function AllGood(packets: seq<Packet>): seq<Item> {
    if packets == [] then [] else [Good(packets[0])] + AllGood(packets[1..])
  }

  lemma FrameThenRest(packet: Packet, u: Bytes)
    requires |packet.parameters| <= MAX_PARAMETERS
    ensures Drain(Encode(packet).value + u) == Cons(Good(packet), Drain(u))
  {
    var frame := Encode(packet).value;
    EncodeThenDecode(packet);
    assert frame[..FrameSize(frame)] == frame && frame[FrameSize(frame)..] == [];
    assert Next(frame) == Parsed(Some(Good(packet)), []);
    NextAppend(frame, u);
    assert [] + u == u;
  }

  lemma {:induction false} NoiseIsSkipped(noise: Bytes, u: Bytes)
    requires HEADER !in noise
    ensures |u| >= 2 && HeaderAt(u, 0) ==> Resync(noise + u) == u
    decreases |noise|
  {
    if noise == [] {
      assert noise + u == u;
    } else {
      assert noise[0] != HEADER;
      assert (noise + u)[1..] == noise[1..] + u;
      NoiseIsSkipped(noise[1..], u);
    }
  }

  /** Packets sent back to back come out as they were sent, and no byte is left over. */
  lemma {:induction false} SentPacketsAreParsed(packets: seq<Packet>)
    requires Encodable(packets)
    ensures Drain(EncodeAll(packets)) == Drained(AllGood(packets), [])
    decreases |packets|
  {
    if packets != [] {
      SentPacketsAreParsed(packets[1..]);
      FrameThenRest(packets[0], EncodeAll(packets[1..]));
    }
  }

  /** Line noise without a header byte in front of a packet costs nothing. */
  lemma NoiseCostsNothing(noise: Bytes, packet: Packet, u: Bytes)
    requires HEADER !in noise && |packet.parameters| <= MAX_PARAMETERS
    ensures Drain(noise + (Encode(packet).value + u)) == Cons(Good(packet), Drain(u))
  {
    var stream := Encode(packet).value + u;
    assert HeaderAt(stream, 0);
    NoiseIsSkipped(noise, stream);
    assert Next(noise + stream) == Next(stream);
    FrameThenRest(packet, u);
  }

  // ----- Bytes moved in place ---------------------------------------------

  /** Shift `a[count..size]` down to the start of the buffer. */
  method MoveDown(a: array<Byte>, count: nat, size: nat)
    requires count <= size <= a.Length
    modifies a
    ensures a[..size - count] == old(a[..size])[count..]
  {
    for i := 0 to size - count
      invariant forall k :: 0 <= k < i ==> a[k] == old(a[k + count])
      invariant forall k :: i <= k < a.Length ==> a[k] == old(a[k])
    {
      a[i] := a[i + count];
    }
  }

  /** The index of the first header in `a[..size]`, or of the last byte if there is none. */
  method FindHeader(a: array<Byte>, size: nat) returns (header: nat)
    requires size <= a.Length
    ensures header <= size
    ensures a[..size][header..] == Resync(a[..size])
  {
    ghost var all := a[..size];
    assert all[0..] == all;
    header := 0;
    while header + 1 < size && (a[header] != HEADER || a[header + 1] != HEADER)
      invariant header <= size
      invariant Resync(all) == Resync(all[header..])
    {
      assert all[header..][1..] == all[header + 1..];
      header := header + 1;
    }
    assert Resync(all[header..]) == all[header..];
  }

  // ----- The parser object ------------------------------------------------

  class StreamParser {
    const buffer: array<Byte>
    var size: nat

    predicate Valid()
      reads this
    {
      buffer.Length == CAPACITY && size <= CAPACITY
    }

    function Contents(): Bytes
      requires Valid()
      reads this, buffer
    {
      buffer[..size]
    }

    constructor ()
      ensures Valid() && Contents() == [] && fresh(buffer)
    {
      buffer := new Byte[CAPACITY](_ => 0);
      size := 0;
    }

    method Append(data: Bytes) returns (result: Result<(), Error>)
      requires Valid()
      modifies this, buffer
      ensures Valid()
      ensures |data| <= CAPACITY - |old(Contents())| ==>
                result == Success(()) && Contents() == old(Contents()) + data
      ensures |data| > CAPACITY - |old(Contents())| ==>
                result == Failure(CapacityExceeded) && Contents() == []
    {
      if |data| > CAPACITY - size {
        size := 0;
        return Failure(CapacityExceeded);
      }
      for i := 0 to |data|
        invariant size == old(size)
        invariant forall k :: 0 <= k < size ==> buffer[k] == old(buffer[k])
        invariant forall k :: 0 <= k < i ==> buffer[size + k] == data[k]
      {
        buffer[size + i] := data[i];
      }
      assert buffer[..size + |data|] == old(Contents()) + data;
      size := size + |data|;
      return Success(());
    }

    method DiscardPrefix(count: nat)
      requires Valid()
      modifies this, buffer
      ensures Valid()
      ensures Contents() == if count <= old(size) then old(Contents())[count..] else []
    {
      var clamped := if count <= size then count else size;
      MoveDown(buffer, clamped, size);
      size := size - clamped;
    }

    method NextItem() returns (item: Option<Item>)
      requires Valid()
      modifies this, buffer
      ensures Valid()
      ensures Parsed(item, Contents()) == Next(old(Contents()))
    {
      var header := FindHeader(buffer, size);
      if header > 0 {
        DiscardPrefix(header);
      }
      ghost var t := Contents();
      assert t == Resync(old(Contents()));
      if size < 4 {
        return None;
      }
      var length: int := buffer[3];
      if length < 2 {
        DiscardPrefix(2);
        return Some(Bad(BadLength));
      }
      var frameSize := length + 4;
      assert frameSize == FrameSize(t);
      if size < frameSize {
        return None;
      }
      var frame := buffer[..frameSize];
      assert frame == t[..frameSize];
      DiscardPrefix(frameSize);
      return Some(DecodeItem(frame));
    }

    /** Append one chunk and drain: chunks of up to 260 bytes never overflow a drained parser. */
    method Feed(chunk: Bytes) returns (items: seq<Item>)
      requires Valid() && |Contents()| < MAX_FRAME_SIZE && |chunk| <= CAPACITY - MAX_FRAME_SIZE + 1
      modifies this, buffer
      ensures Valid() && |Contents()| < MAX_FRAME_SIZE
      ensures Drained(items, Contents()) == Drain(old(Contents()) + chunk)
    {
      var appended := Append(chunk);
      assert appended.Success?;
      ghost var all := Drain(Contents());
      items := [];
      PrependCons(Bad(TooShort), [], all);
      var item := NextItem();
      while item.Some?
        invariant Valid()
        invariant item.Some? ==> all == Prepend(items, Cons(item.value, Drain(Contents())))
        invariant item.None? ==> all == Drained(items, Contents())
        decreases size + (if item.Some? then 1 else 0)
      {
        PrependCons(item.value, items, Drain(Contents()));
        items := items + [item.value];
        item := NextItem();
        PrependCons(Bad(TooShort), items, Drained([], Contents()));
      }
    }

    /** A fresh parser fed any stream in such chunks reports what one pass over the whole stream would. */
    method FeedAll(chunks: seq<Bytes>) returns (items: seq<Item>)
      requires Valid() && Contents() == []
      requires forall i :: 0 <= i < |chunks| ==> |chunks[i]| <= CAPACITY - MAX_FRAME_SIZE + 1
      modifies this, buffer
      ensures Valid()
      ensures Drained(items, Contents()) == Drain(Concat(chunks))
    {
      items := [];
      FeedStart(chunks);
      for i := 0 to |chunks|
        invariant Valid() && |Contents()| < MAX_FRAME_SIZE
        invariant FedSoFar(chunks, i, items, Contents())
      {
        ghost var before := Contents();
        var fed := Feed(chunks[i]);
        FeedStep(chunks, i, items, before, fed, Contents());
        items := items + fed;
      }
      FeedEnd(chunks, items, Contents());
    }
  }

  /** After `i` chunks, `items` were reported and `kept` is buffered. */
  ghost predicate FedSoFar(chunks: seq<Bytes>, i: nat, items: seq<Item>, kept: Bytes)
    requires i <= |chunks|
  {
    DrainChunks([], chunks) == Prepend(items, DrainChunks(kept, chunks[i..]))
  }

  lemma FeedStart(chunks: seq<Bytes>)
    ensures FedSoFar(chunks, 0, [], [])
  {
    assert chunks[0..] == chunks;
    var d := DrainChunks([], chunks);
    assert [] + d.items == d.items;
  }

  lemma FeedStep(chunks: seq<Bytes>, i: nat, items: seq<Item>, before: Bytes, fed: seq<Item>, kept: Bytes)
    requires i < |chunks| && FedSoFar(chunks, i, items, before)
    requires Drained(fed, kept) == Drain(before + chunks[i])
    ensures FedSoFar(chunks, i + 1, items + fed, kept)
  {
    ChunkStep(before, chunks, i);
    PrependPrepend(items, fed, DrainChunks(kept, chunks[i + 1..]));
  }

  lemma FeedEnd(chunks: seq<Bytes>, items: seq<Item>, kept: Bytes)
    requires FedSoFar(chunks, |chunks|, items, kept)
    ensures Drained(items, kept) == Drain(Concat(chunks))
  {
    ChunkIndependence(chunks);
    assert chunks[|chunks|..] == [] && items + [] == items;
  }

  lemma ChunkStep(kept: Bytes, chunks: seq<Bytes>, i: nat)
    requires i < |chunks|
    ensures var first := Drain(kept + chunks[i]);
            DrainChunks(kept, chunks[i..]) == Prepend(first.items, DrainChunks(first.rest, chunks[i + 1..]))
  {
    assert chunks[i..][1..] == chunks[i + 1..];
  }
}
