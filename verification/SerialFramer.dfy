/**
 The second framer, inside the serial transport: it cuts raw frames out of the same byte
 stream without decoding them. It agrees with the stream parser on every stream exactly
 when its configured maximum is the protocol's own.
 */
module SerialFramer {
  import opened Wrappers
  import opened St3215Protocol

  // ----- One extraction ---------------------------------------------------

  /** A frame, the stream behind it, and whether a framing error was seen on the way. */
  datatype Extracted = Extracted(frame: Option<Bytes>, rest: Bytes, sawError: bool)

  function Extract(s: Bytes, maximum: nat): (e: Extracted)
    ensures e.frame.Some? ==> |e.rest| + 6 <= |s| && |e.frame.value| <= maximum
    decreases |s|
  {
    var t := Resync(s);
    if |t| < 4 then Extracted(None, t, false)
    else if t[3] < 2 || FrameSize(t) > maximum then
      var e := Extract(t[2..], maximum);
      Extracted(e.frame, e.rest, true)
    else if |t| < FrameSize(t) then Extracted(None, t, false)
    else Extracted(Some(t[..FrameSize(t)]), t[FrameSize(t)..], false)
  }

  datatype Framed = Framed(frames: seq<Bytes>, rest: Bytes, sawError: bool)

  /** All the frames of a stream, the bytes kept, and whether any framing error was reported. */
  function ExtractAll(s: Bytes, maximum: nat): Framed
    decreases |s|
  {
    var e := Extract(s, maximum);
    if e.frame.None? then Framed([], e.rest, e.sawError)
    else
      var others := ExtractAll(e.rest, maximum);
      Framed([e.frame.value] + others.frames, others.rest, e.sawError || others.sawError)
  }

  // ----- Agreement with the parser ----------------------------------------

  function DecodeAll(frames: seq<Bytes>): seq<Item> {
    if frames == [] then [] else [DecodeItem(frames[0])] + DecodeAll(frames[1..])
  }

  function WithoutLengthErrors(items: seq<Item>): seq<Item> {
    if items == [] then []
    else (if items[0] == Bad(BadLength) then [] else [items[0]]) + WithoutLengthErrors(items[1..])
  }

  /** The framer, then the decoder, gives what the parser gives without its length errors, and flags exactly those. */
  predicate Agrees(s: Bytes, maximum: nat) {
    var framed, drained := ExtractAll(s, maximum), Drain(s);
    && DecodeAll(framed.frames) == WithoutLengthErrors(drained.items)
    && framed.rest == drained.rest
    && (framed.sawError <==> Bad(BadLength) in drained.items)
  }

  lemma CompleteFrameIsNotALengthError(t: Bytes)
    requires |t| >= 4 && HeaderAt(t, 0) && t[3] >= 2 && |t| >= FrameSize(t)
    ensures DecodeItem(t[..FrameSize(t)]) != Bad(BadLength)
  {
  }

  /** One parser step seen from the framer, at the protocol's maximum. */
  lemma ExtractFollowsNext(s: Bytes)
    ensures var p, e := Next(s), Extract(s, MAX_FRAME_SIZE);
            match p.item
            case None => e == Extracted(None, p.rest, false)
            case Some(item) =>
              if item == Bad(BadLength) then
                e == Extract(p.rest, MAX_FRAME_SIZE).(sawError := true)
              else
                e.frame.Some? && DecodeItem(e.frame.value) == item && e.rest == p.rest && !e.sawError
  {
    var t := Resync(s);
    if |t| >= 4 && t[3] >= 2 && |t| >= FrameSize(t) {
      CompleteFrameIsNotALengthError(t);
    }
  }

  lemma {:induction false} FramersAgree(s: Bytes)
    ensures Agrees(s, MAX_FRAME_SIZE)
    decreases |s|
  {
    ExtractFollowsNext(s);
    var p := Next(s);
    if p.item.Some? {
      FramersAgree(p.rest);
      var d := Drain(p.rest);
      assert Drain(s).items == [p.item.value] + d.items;
      assert Drain(s).items[1..] == d.items;
      if p.item.value != Bad(BadLength) {
        var frames := ExtractAll(s, MAX_FRAME_SIZE).frames;
        assert frames[1..] == ExtractAll(p.rest, MAX_FRAME_SIZE).frames;
      }
    }
  }

  // ----- A smaller maximum loses frames -----------------------------------

  lemma {:induction false} NoHeaderLeavesAtMostOneByte(s: Bytes)
    requires forall i :: 0 <= i < |s| - 1 ==> !HeaderAt(s, i)
    ensures |Resync(s)| < 2
    decreases |s|
  {
    if |s| >= 2 {
      assert !HeaderAt(s, 0);
      forall i | 0 <= i < |s[1..]| - 1
        ensures !HeaderAt(s[1..], i)
      {
        assert !HeaderAt(s, i + 1);
      }
      NoHeaderLeavesAtMostOneByte(s[1..]);
    }
  }

  function LargestPacket(): Packet {
    Packet(1, 0, seq(MAX_PARAMETERS, _ => 0))
  }

  /** The parser reads the largest packet; a framer with a smaller maximum throws it away. */
  lemma SmallMaximumLosesAPacket(maximum: nat)
    requires maximum < MAX_FRAME_SIZE
    ensures var s := Encode(LargestPacket()).value;
            && Encode(LargestPacket()).Success?
            && Drain(s).items == [Good(LargestPacket())]
            && ExtractAll(s, maximum).frames == []
            && !Agrees(s, maximum)
  {
    var packet := LargestPacket();
    var s := Encode(packet).value;
    FrameThenRest(packet, []);
    assert s + [] == s;
    assert Drain([]) == Drained([], []);
    assert FrameSize(s) == MAX_FRAME_SIZE && Resync(s) == s;
    var tail := s[2..];
    forall i | 0 <= i < |tail| - 1
      ensures !HeaderAt(tail, i)
    {
      assert tail[i] == s[i + 2] && tail[i + 1] == s[i + 3];
    }
    NoHeaderLeavesAtMostOneByte(tail);
    assert Extract(s, maximum).frame.None?;
  }

  /** Within the maxima the transport accepts, the two framers agree on every stream exactly at 259. */
  lemma AgreementNeedsTheFullMaximum(maximum: nat)
    requires 6 <= maximum <= MAX_FRAME_SIZE
    ensures (forall s: Bytes :: Agrees(s, maximum)) <==> maximum == MAX_FRAME_SIZE
  {
    if maximum == MAX_FRAME_SIZE {
      forall s: Bytes
        ensures Agrees(s, maximum)
      {
        FramersAgree(s);
      }
    } else {
      SmallMaximumLosesAPacket(maximum);
    }
  }

  // ----- The framer object ------------------------------------------------

  class Framer {
    const stream: array<Byte>
    const maximum: nat
    var size: nat

    predicate Valid()
      reads this
    {
      stream.Length == CAPACITY && size <= CAPACITY && 6 <= maximum <= MAX_FRAME_SIZE
    }

    function Contents(): Bytes
      requires Valid()
      reads this, stream
    {
      stream[..size]
    }

    constructor (maximum: nat)
      requires 6 <= maximum <= MAX_FRAME_SIZE
      ensures Valid() && Contents() == [] && this.maximum == maximum && fresh(stream)
    {
      stream := new Byte[CAPACITY](_ => 0);
      this.maximum := maximum;
      size := 0;
    }

    method DiscardStreamPrefix(count: nat)
      requires Valid()
      modifies this, stream
      ensures Valid()
      ensures Contents() == if count <= old(size) then old(Contents())[count..] else []
    {
      var clamped := if count <= size then count else size;
      MoveDown(stream, clamped, size);
      size := size - clamped;
    }

    method ExtractFrame(sawErrorBefore: bool) returns (frame: Option<Bytes>, sawError: bool)
      requires Valid()
      modifies this, stream
      ensures Valid()
      ensures var e := Extract(old(Contents()), maximum);
              frame == e.frame && Contents() == e.rest && sawError == (sawErrorBefore || e.sawError)
      decreases size
    {
      sawError := sawErrorBefore;
      var header := FindHeader(stream, size);
      if header > 0 {
        DiscardStreamPrefix(header);
      }
      ghost var t := Contents();
      assert t == Resync(old(Contents()));
      if size < 4 {
        return None, sawError;
      }
      var length: int := stream[3];
      var frameSize := length + 4;
      assert frameSize == FrameSize(t);
      if length < 2 || frameSize > maximum {
        DiscardStreamPrefix(2);
        frame, sawError := ExtractFrame(true);
        return;
      }
      if size < frameSize {
        return None, sawError;
      }
      var bytes := stream[..frameSize];
      assert bytes == t[..frameSize];
      DiscardStreamPrefix(frameSize);
      return Some(bytes), sawError;
    }
  }
}
