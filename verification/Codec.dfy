/**
 Packet framing: Serialize writes a header, the body and then the body's length into the header;
 Deserialize walks the frames of a payload and hands each body to its serializer, fenced by a read
 limit. Serializers are arbitrary: one may misread its frame, overrun it, rewind, or leave the
 buffer's error flag set.
 */
module Codecs {
  import opened Buffers
  import opened Bytes
  import opened Options

  // How a serializer produced a body: in the frame's own buffer, or in one of its own.
  datatype Body = Nothing | InPlace(bytes: seq<byte>) | Elsewhere(bytes: seq<byte>)

  // What a deserializer did: the packet if it made one, and how it left the buffer's read cursor
  // and error flag. (It may move the read limit too; the codec resets that.)
  datatype Parsed<+P> = Parsed(packet: Option<P>, cursor: Size, error: BufferError)

  type Size = n: nat | n <= NO_LIMIT

  datatype Codec<!P> = Codec(
    ids: set<nat>,
    idOf: P -> nat,
    write: P -> Body,
    parse: (nat, seq<byte>, nat, nat) -> Parsed<P>)

  const MAX_BODY: nat := 0x1_0000_0000

  function FrameOf(id: nat, body: seq<byte>): seq<byte>
    requires Significant(id) < 256
  {
    VarInt(id, false) + Little(|body|, 4) + body
  }

  // One frame as its header locates it.
  datatype Head = Head(start: nat, id: nat, body: nat, size: nat)

  // The header at pos, unless it cannot be read or declares more than is there. An error left over
  // from before counts against it.
  function HeadAt(data: seq<byte>, end: nat, pos: nat, error: BufferError): (h: Option<Head>)
    requires end <= |data|
    ensures h.Some? ==> h.value.start == pos < h.value.body && h.value.body + h.value.size <= end
  {
    var id := ReadVarIntAt(data, end, pos, 8, false);
    var size := ReadNumberAt(data, end, id.pos, 4, false);
    if error.NoError? && id.error.NoError? && size.error.NoError? && size.value <= end - size.pos
    then Some(Head(pos, id.value, size.pos, size.value))
    else None
  }

  // What became of one frame: skipped or handled (with the packet), invalid, or framing lost.
  datatype Fate<+P> = Skipped | Handled(packet: P) | Invalid | Overrun

  function FateOf<P>(c: Codec<P>, data: seq<byte>, h: Head): Fate<P>
  {
    if h.id !in c.ids then Skipped
    else
      var r := c.parse(h.id, data, h.body, h.body + h.size);
      if r.packet.None? then Invalid
      else if h.body <= r.cursor <= h.body + h.size then Handled(r.packet.value)
      else Overrun
  }

  datatype Outcome<+P> = Outcome(handled: seq<P>, visited: seq<Head>, invalid: nat, lost: bool)

  // An outcome whose first frame h met the given fate.
  function After<P>(h: Head, fate: Fate<P>, rest: Outcome<P>): Outcome<P>
  {
    Outcome((if fate.Handled? then [fate.packet] else []) + rest.handled, [h] + rest.visited,
            (if fate.Invalid? || fate.Overrun? then 1 else 0) + rest.invalid, fate.Overrun? || rest.lost)
  }

  function DecodeFrom<P>(c: Codec<P>, data: seq<byte>, pos: nat, limit: nat, error: BufferError): Outcome<P>
    decreases |data| - pos
  {
    var end := Min(|data|, limit);
    if pos >= end then Outcome([], [], 0, false)
    else
      match HeadAt(data, end, pos, error)
      case None => Outcome([], [], 1, true)
      case Some(h) =>
        var fate := FateOf(c, data, h);
        After(h, fate,
              match fate
              case Overrun => Outcome([], [], 0, false)
              case Skipped => DecodeFrom(c, data, h.body + h.size, limit, NoError)
              case _ => DecodeFrom(c, data, h.body + h.size, NO_LIMIT, LeftError(c, data, h)))
  }

  lemma DecodeUnfold<P>(c: Codec<P>, data: seq<byte>, pos: nat, limit: nat, error: BufferError, h: Head)
    requires pos < Min(|data|, limit) && HeadAt(data, Min(|data|, limit), pos, error) == Some(h)
    ensures var fate := FateOf(c, data, h);
            var next := h.body + h.size;
            && (fate.Skipped? ==>
                  DecodeFrom(c, data, pos, limit, error) == After(h, fate, DecodeFrom(c, data, next, limit, NoError)))
            && (fate.Handled? || fate.Invalid? ==>
                  DecodeFrom(c, data, pos, limit, error)
                  == After(h, fate, DecodeFrom(c, data, next, NO_LIMIT, LeftError(c, data, h))))
            && (fate.Overrun? ==> DecodeFrom(c, data, pos, limit, error) == After(h, fate, Outcome([], [], 0, false)))
  {
    hide HeadAt, FateOf, After;
  }

  lemma DecodeStops<P>(c: Codec<P>, data: seq<byte>, pos: nat, limit: nat, error: BufferError)
    ensures pos >= Min(|data|, limit) ==> DecodeFrom(c, data, pos, limit, error) == Outcome([], [], 0, false)
    ensures pos < Min(|data|, limit) && HeadAt(data, Min(|data|, limit), pos, error).None? ==>
              DecodeFrom(c, data, pos, limit, error) == Outcome([], [], 1, true)
  {
    hide HeadAt, FateOf, After;
  }

  // The error flag a serializer leaves behind.
  function LeftError<P>(c: Codec<P>, data: seq<byte>, h: Head): BufferError
  {
    c.parse(h.id, data, h.body, h.body + h.size).error
  }

  // One frame header: where the body lies, or None when the framing can no longer be trusted.
  method ReadHead(buffer: Buffer) returns (head: Option<Head>)
    requires buffer.Valid() && buffer.data != null && !buffer.big && buffer.readCursor < buffer.End()
    modifies buffer`readCursor, buffer`lastError
    ensures buffer.lastError == NoError
    ensures head == HeadAt(buffer.Written(), buffer.End(), old(buffer.readCursor), old(buffer.lastError))
    ensures head.Some? ==> buffer.readCursor == head.value.body
  {
    var start := buffer.readCursor;
    var id := buffer.ReadVarInt(8);
    var size := buffer.ReadNumber(4);
    var error := buffer.GetAndClearLastError();
    if error != NoError || size > buffer.ReadableBytes() {
      return None;
    }
    return Some(Head(start, id, buffer.readCursor, size));
  }

  // The body of one frame, as its serializer reads it between the fences.
  method ReadBody<P>(c: Codec<P>, buffer: Buffer, h: Head) returns (fate: Fate<P>)
    requires buffer.Valid() && buffer.data != null && buffer.writeCursor <= NO_LIMIT && buffer.lastError == NoError
    requires buffer.readCursor == h.body && 0 < h.body && h.body + h.size <= buffer.writeCursor
    modifies buffer`readCursor, buffer`readLimit, buffer`lastError
    ensures fate == FateOf(c, buffer.Written(), h)
    ensures !fate.Overrun? ==> buffer.readCursor == h.body + h.size
    ensures fate.Skipped? ==> buffer.readLimit == old(buffer.readLimit) && buffer.lastError == NoError
    ensures fate.Handled? || fate.Invalid? ==>
              buffer.readLimit == NO_LIMIT
              && buffer.lastError == LeftError(c, buffer.Written(), h)
  {
    hide Buffer.Fenced;
    if h.id !in c.ids {
      buffer.readCursor := buffer.readCursor + h.size;
      return Skipped;
    }
    buffer.SetReadLimit(h.body + h.size);
    var r := c.parse(h.id, buffer.data[..buffer.writeCursor], h.body, h.body + h.size);
    buffer.readCursor, buffer.lastError := r.cursor, r.error;
    if r.packet.None? {
      buffer.readCursor := h.body + h.size;
      buffer.SetReadLimit(0);
      return Invalid;
    }
    // a cursor behind the body wraps to more bytes than any frame holds
    var readBytes := (buffer.readCursor - h.body) % (NO_LIMIT + 1);
    WrappedDistance(buffer.readCursor, h.body, h.size);
    if readBytes < h.size {
      buffer.readCursor := h.body + h.size;
    } else if readBytes > h.size {
      return Overrun;
    }
    buffer.SetReadLimit(0);
    return Handled(r.packet.value);
  }

  lemma WrappedDistance(cursor: nat, body: nat, size: nat)
    requires cursor <= NO_LIMIT && body + size <= NO_LIMIT && 0 < body
    ensures var distance := (cursor - body) % (NO_LIMIT + 1);
            if body <= cursor then distance == cursor - body else distance > size
  {
    if cursor < body {
      assert (cursor - body) % (NO_LIMIT + 1) == cursor - body + NO_LIMIT + 1;
    }
  }

  // What is left to decode, as the buffer stands.
  ghost function Remaining<P>(c: Codec<P>, buffer: Buffer): Outcome<P>
    requires buffer.Valid()
    reads buffer, buffer.Repr()
  {
    DecodeFrom(c, buffer.Written(), buffer.readCursor, buffer.readLimit, buffer.lastError)
  }

  // One turn of Deserialize's loop.
  method ReadFrame<P>(c: Codec<P>, buffer: Buffer) returns (head: Option<Head>, fate: Fate<P>)
    requires buffer.Valid() && buffer.data != null && !buffer.big && buffer.writeCursor <= NO_LIMIT
    requires buffer.ReadableBytes() > 0
    modifies buffer`readCursor, buffer`readLimit, buffer`lastError
    ensures head.None? ==> old(Remaining(c, buffer)) == Outcome([], [], 1, true)
    ensures head.Some? && fate.Overrun? ==>
              old(Remaining(c, buffer)) == After(head.value, fate, Outcome([], [], 0, false))
    ensures head.Some? && !fate.Overrun? ==>
              && old(Remaining(c, buffer)) == After(head.value, fate, Remaining(c, buffer))
              && old(buffer.readCursor) < buffer.readCursor <= buffer.writeCursor
  {
    hide DecodeFrom, After, FateOf;
    fate := Skipped;
    ghost var start, limit, error := buffer.readCursor, buffer.readLimit, buffer.lastError;
    head := ReadHead(buffer);
    if head.None? {
      DecodeStops(c, buffer.Written(), start, limit, error);
      return;
    }
    DecodeUnfold(c, buffer.Written(), start, limit, error, head.value);
    fate := ReadBody(c, buffer, head.value);
  }

  /** Reads every frame it can and hands the packets on in order. */
  method Deserialize<P>(c: Codec<P>, buffer: Buffer)
    returns (handled: seq<P>, invalid: nat, lost: bool, ghost visited: seq<Head>)
    requires buffer.Valid() && buffer.data != null && !buffer.big && buffer.writeCursor <= NO_LIMIT
    modifies buffer`readCursor, buffer`readLimit, buffer`lastError
    ensures Outcome(handled, visited, invalid, lost) == old(Remaining(c, buffer))
  {
    hide DecodeFrom, FateOf;
    handled, visited, invalid, lost := [], [], 0, false;
    ghost var whole := Remaining(c, buffer);
    while buffer.ReadableBytes() > 0
      invariant buffer.data == old(buffer.data) && buffer.writeCursor == old(buffer.writeCursor) && !lost
      invariant whole == Joined(handled, visited, invalid, Remaining(c, buffer))
      decreases buffer.writeCursor - buffer.readCursor
    {
      var head, fate := ReadFrame(c, buffer);
      if head.None? {
        invalid, lost := invalid + 1, true;
        return;
      }
      JoinAfter(handled, visited, invalid, head.value, fate,
                if fate.Overrun? then Outcome([], [], 0, false) else Remaining(c, buffer));
      visited := visited + [head.value];
      if fate.Handled? {
        handled := handled + [fate.packet];
      }
      if fate.Invalid? || fate.Overrun? {
        invalid := invalid + 1;
      }
      if fate.Overrun? {
        lost := true;
        return;
      }
    }
    DecodeStops(c, buffer.Written(), buffer.readCursor, buffer.readLimit, buffer.lastError);
  }

  lemma JoinAfter<P>(handled: seq<P>, visited: seq<Head>, invalid: nat, h: Head, fate: Fate<P>, tail: Outcome<P>)
    ensures Joined(handled, visited, invalid, After(h, fate, tail))
            == Joined(if fate.Handled? then handled + [fate.packet] else handled, visited + [h],
                      if fate.Invalid? || fate.Overrun? then invalid + 1 else invalid,
                      if fate.Overrun? then tail.(lost := true) else tail)
  {
    if fate.Handled? {
      assert handled + ([fate.packet] + tail.handled) == handled + [fate.packet] + tail.handled;
    } else {
      assert [] + tail.handled == tail.handled;
    }
    assert visited + ([h] + tail.visited) == visited + [h] + tail.visited;
  }

  function Joined<P>(handled: seq<P>, visited: seq<Head>, invalid: nat, rest: Outcome<P>): Outcome<P>
  {
    Outcome(handled + rest.handled, visited + rest.visited, invalid + rest.invalid, rest.lost)
  }

  // --- Any serializer ----------------------------------------------------------------------

  // The frames as the headers alone lay them out.
  function Tiling(data: seq<byte>, pos: nat): seq<Head>
    decreases |data| - pos
  {
    if pos >= |data| then []
    else
      match HeadAt(data, |data|, pos, NoError)
      case None => []
      case Some(h) => [h] + Tiling(data, h.body + h.size)
  }

  function KnownIn(ids: set<nat>, heads: seq<Head>): nat
  {
    if heads == [] then 0 else (if heads[0].id in ids then 1 else 0) + KnownIn(ids, heads[1..])
  }

  // Whatever the serializers do, the walk stays on the frame grid: it visits the frames in order,
  // from the first, and all of them unless the framing was lost; and every frame of a known kind
  // it visited was either handed on or counted invalid.
  lemma {:induction false} StaysOnGrid<P>(c: Codec<P>, data: seq<byte>, pos: nat, error: BufferError)
    requires |data| <= NO_LIMIT
    ensures var r := DecodeFrom(c, data, pos, NO_LIMIT, error);
            && r.visited <= Tiling(data, pos)
            && (!r.lost ==> r.visited == Tiling(data, pos) && |r.handled| + r.invalid == KnownIn(c.ids, r.visited))
    decreases |data| - pos
  {
    hide DecodeFrom, HeadAt;
    DecodeStops(c, data, pos, NO_LIMIT, error);
    var head := HeadAt(data, |data|, pos, error);
    if pos < |data| && head.Some? {
      var h := head.value;
      assert error.NoError? by { HeadNeedsClean(data, |data|, pos, error); }
      DecodeUnfold(c, data, pos, NO_LIMIT, error, h);
      var fate := FateOf(c, data, h);
      if !fate.Overrun? {
        var left := if fate.Skipped? then NoError else LeftError(c, data, h);
        StaysOnGrid(c, data, h.body + h.size, left);
        var rest := DecodeFrom(c, data, h.body + h.size, NO_LIMIT, left);
        assert ([h] + rest.visited)[1..] == rest.visited;
      }
    }
  }

  lemma HeadNeedsClean(data: seq<byte>, end: nat, pos: nat, error: BufferError)
    requires end <= |data| && HeadAt(data, end, pos, error).Some?
    ensures error.NoError?
  {
  }

  /** One frame, by what its serializer did, whatever follows. Without a serializer, or when it made
      nothing, decoding goes on behind the frame wherever the serializer left the cursor. A packet is
      handed on, and decoding goes on behind its frame, also when the serializer read less than all of
      it. One that read past its frame, or before it, costs the packet and the rest of the payload. */
  lemma FrameByCursor<P>(c: Codec<P>, data: seq<byte>, pos: nat, limit: nat, h: Head)
    requires pos < Min(|data|, limit) && HeadAt(data, Min(|data|, limit), pos, NoError) == Some(h)
    ensures var r := c.parse(h.id, data, h.body, h.body + h.size);
            var got := DecodeFrom(c, data, pos, limit, NoError);
            var next := h.body + h.size;
            if h.id !in c.ids then
              var rest := DecodeFrom(c, data, next, limit, NoError);
              got.handled == rest.handled && got.invalid == rest.invalid && got.lost == rest.lost
            else if r.packet.None? then
              var rest := DecodeFrom(c, data, next, NO_LIMIT, r.error);
              got.handled == rest.handled && got.invalid == 1 + rest.invalid && got.lost == rest.lost
            else if r.cursor < h.body || next < r.cursor then
              got.handled == [] && got.invalid == 1 && got.lost
            else
              var rest := DecodeFrom(c, data, next, NO_LIMIT, r.error);
              got.handled == [r.packet.value] + rest.handled && got.invalid == rest.invalid && got.lost == rest.lost
  {
    hide DecodeFrom, HeadAt;
    DecodeUnfold(c, data, pos, limit, NoError, h);
  }

  // A serializer that leaves the error flag set costs the payload its next frame.
  lemma LeftErrorLosesFraming<P>(c: Codec<P>, data: seq<byte>, pos: nat, limit: nat, error: BufferError)
    requires !error.NoError? && pos < Min(|data|, limit)
    ensures DecodeFrom(c, data, pos, limit, error) == Outcome([], [], 1, true)
  {
  }

  // The headers alone lay frames out to the very end.
  predicate TilesToEnd(data: seq<byte>, pos: nat)
    decreases |data| - pos
  {
    pos >= |data| ||
    match HeadAt(data, |data|, pos, NoError)
    case None => false
    case Some(h) => TilesToEnd(data, h.body + h.size)
  }

  // The serializer of a known frame neither leaves its frame nor, unless the frame is the last,
  // leaves an error behind.
  predicate Behaves<P>(c: Codec<P>, data: seq<byte>, h: Head)
  {
    h.id in c.ids ==>
      !FateOf(c, data, h).Overrun? && (h.body + h.size < |data| ==> LeftError(c, data, h) == NoError)
  }

  predicate AllBehave<P>(c: Codec<P>, data: seq<byte>, heads: seq<Head>)
  {
    forall k | 0 <= k < |heads| :: Behaves(c, data, heads[k])
  }

  /** Framing survives exactly when the headers lay frames out to the end of the payload and the
      serializer of every known frame stays inside it and, but for the last, leaves no error. */
  lemma {:induction false} FramingSurvivesExactly<P>(c: Codec<P>, data: seq<byte>, pos: nat)
    requires |data| <= NO_LIMIT
    ensures !DecodeFrom(c, data, pos, NO_LIMIT, NoError).lost
            <==> TilesToEnd(data, pos) && AllBehave(c, data, Tiling(data, pos))
    decreases |data| - pos
  {
    hide DecodeFrom, HeadAt, FateOf, LeftError;
    DecodeStops(c, data, pos, NO_LIMIT, NoError);
    var head := HeadAt(data, |data|, pos, NoError);
    if pos < |data| && head.Some? {
      var h := head.value;
      DecodeUnfold(c, data, pos, NO_LIMIT, NoError, h);
      KnownIsNotSkipped(c, data, h);
      var next := h.body + h.size;
      FramingSurvivesExactly(c, data, next);
      var tiles, rest := Tiling(data, pos), Tiling(data, next);
      assert tiles == [h] + rest;
      assert AllBehave(c, data, tiles) <==> Behaves(c, data, h) && AllBehave(c, data, rest) by {
        BehaveSplit(c, data, h, rest);
      }
      var left := LeftError(c, data, h);
      if left != NoError && next < |data| {
        LeftErrorLosesFraming(c, data, next, NO_LIMIT, left);
      } else if left != NoError {
        DecodeStops(c, data, next, NO_LIMIT, left);
      }
    }
  }

  lemma KnownIsNotSkipped<P>(c: Codec<P>, data: seq<byte>, h: Head)
    ensures FateOf(c, data, h).Skipped? <==> h.id !in c.ids
  {
  }

  lemma BehaveSplit<P>(c: Codec<P>, data: seq<byte>, h: Head, rest: seq<Head>)
    ensures AllBehave(c, data, [h] + rest) <==> Behaves(c, data, h) && AllBehave(c, data, rest)
  {
    hide Behaves;
    var all := [h] + rest;
    if AllBehave(c, data, all) {
      assert Behaves(c, data, all[0]);
      forall k | 0 <= k < |rest|
        ensures Behaves(c, data, rest[k])
      {
        assert rest[k] == all[k + 1];
      }
    }
  }

  // Two empty frames whose headers are in order, and a serializer that reads its own but leaves an
  // error: the second frame is lost.
  lemma LeftErrorWitness()
    ensures var c := Careless();
            var data := [0, 0, 0, 0, 0, 0, 0, 0, 0, 0];
            && TilesToEnd(data, 0)
            && DecodeFrom(c, data, 0, NO_LIMIT, NoError) == Outcome([7], [Head(0, 0, 5, 0)], 1, true)
  {
    hide DecodeFrom, TilesToEnd, Careless;
    var data: seq<byte> := [0, 0, 0, 0, 0, 0, 0, 0, 0, 0];
    FiveZeros(data, 0);
    FiveZeros(data, 5);
    SecondIsLost(data);
  }

  lemma SecondIsLost(data: seq<byte>)
    requires |data| == 10 && data[0..5] == [0, 0, 0, 0, 0] == data[5..10]
    ensures TilesToEnd(data, 0)
    ensures DecodeFrom(Careless(), data, 0, NO_LIMIT, NoError) == Outcome([7], [Head(0, 0, 5, 0)], 1, true)
  {
    hide HeadAt, DecodeFrom, TilesToEnd, Careless, FateOf, LeftError;
    TwoEmptyFrames(data);
    CarelessFate(data);
    DecodeUnfold(Careless(), data, 0, NO_LIMIT, NoError, Head(0, 0, 5, 0));
    LeftErrorLosesFraming(Careless(), data, 5, NO_LIMIT, ReadOutOfBounds);
  }

  // It parses every body as 7, reads none of it and leaves an error behind.
  function Careless(): Codec<nat>
  {
    Codec({0}, (p: nat) => 0, (p: nat) => InPlace([]),
          (id: nat, data: seq<byte>, at: nat, end: nat) =>
            Parsed(Some(7), if at <= NO_LIMIT then at else 0, ReadOutOfBounds))
  }

  lemma FiveZeros(data: seq<byte>, pos: nat)
    requires pos + 5 <= |data| && forall k | pos <= k < pos + 5 :: data[k] == 0
    ensures data[pos..pos + 5] == [0, 0, 0, 0, 0]
  {
  }

  lemma CarelessFate(data: seq<byte>)
    ensures var h := Head(0, 0, 5, 0);
            FateOf(Careless(), data, h) == Handled(7) && LeftError(Careless(), data, h) == ReadOutOfBounds
  {
  }

  lemma TwoEmptyFrames(data: seq<byte>)
    requires |data| == 10 && data[0..5] == [0, 0, 0, 0, 0] == data[5..10]
    ensures TilesToEnd(data, 0) && HeadAt(data, 10, 0, NoError) == Some(Head(0, 0, 5, 0))
  {
    EmptyFrame(data, 0);
    EmptyFrame(data, 5);
    hide HeadAt;
    assert TilesToEnd(data, 10) && TilesToEnd(data, 5);
  }

  lemma EmptyFrame(data: seq<byte>, pos: nat)
    requires pos + 5 <= |data| && data[pos..pos + 5] == [0, 0, 0, 0, 0]
    ensures HeadAt(data, |data|, pos, NoError) == Some(Head(pos, 0, pos + 5, 0))
  {
    var v := data[pos..pos + 5];
    assert data[pos] == v[0] == 0;
    assert data[pos + 1..pos + 1] == [];
    assert data[pos + 1..pos + 5] == v[1..] == Little(0, 4) by {
      assert Little(0, 4) == [0] + Little(0, 3) && Little(0, 3) == [0] + Little(0, 2);
      assert Little(0, 2) == [0] + Little(0, 1) && Little(0, 1) == [0] + Little(0, 0);
    }
    LittleRoundTrip(0, 4);
  }

  // --- Serializers that round-trip ---------------------------------------------------------

  function BodyOf<P>(c: Codec<P>, p: P): seq<byte>
  {
    if c.write(p).Nothing? then [] else c.write(p).bytes
  }

  // The packet's serializer makes the packet of what it wrote, reading all of it or less, and leaves no
  // error behind.
  predicate ReadsBack<P(==)>(c: Codec<P>, p: P, data: seq<byte>, at: nat)
  {
    var body := BodyOf(c, p);
    at + |body| <= |data| && data[at..at + |body|] == body ==>
      var r := c.parse(c.idOf(p), data, at, at + |body|);
      r.packet == Some(p) && at <= r.cursor <= at + |body| && r.error == NoError
  }

  // Wherever it lies in any buffer a size_t can index.
  ghost predicate RoundTrips<P>(c: Codec<P>, p: P)
  {
    && c.idOf(p) in c.ids && c.idOf(p) < Range(8) && !c.write(p).Nothing? && |BodyOf(c, p)| < MAX_BODY
    && forall data: seq<byte>, at: nat | |data| <= NO_LIMIT :: ReadsBack(c, p, data, at)
  }

  // A codec of one packet type, whose body is the packet's own bytes.
  function RawCodec(): Codec<seq<byte>>
  {
    Codec({1}, (p: seq<byte>) => 1, (p: seq<byte>) => InPlace(p),
          (id: nat, data: seq<byte>, at: nat, end: nat) =>
            if at <= end <= |data| && end <= NO_LIMIT then Parsed(Some(data[at..end]), end, NoError)
            else Parsed(None, 0, ReadOutOfBounds))
  }

  /** There are codecs that round-trip: this one does, for every packet whose length fits a header. */
  lemma RawRoundTrips(p: seq<byte>)
    ensures RoundTrips(RawCodec(), p) <==> |p| < MAX_BODY
  {
    var c := RawCodec();
    assert 1 < Range(8) by { assert Range(8) == 256 * Range(7) && Range(7) > 0; }
    forall data: seq<byte>, at: nat | |data| <= NO_LIMIT
      ensures ReadsBack(c, p, data, at)
    {
    }
  }

  ghost function Frames<P>(c: Codec<P>, packets: seq<P>): seq<byte>
    requires forall p | p in packets :: RoundTrips(c, p)
  {
    if packets == [] then []
    else
      assert RoundTrips(c, packets[0]);
      SignificantFits(c.idOf(packets[0]), 8);
      FrameOf(c.idOf(packets[0]), BodyOf(c, packets[0])) + Frames(c, packets[1..])
  }

  lemma Located(before: seq<byte>, x: seq<byte>, after: seq<byte>, data: seq<byte>)
    requires data == before + x + after
    ensures data[|before|..|before| + |x|] == x
  {
  }

  lemma ThreeLocated(before: seq<byte>, a: seq<byte>, b: seq<byte>, c: seq<byte>, after: seq<byte>, data: seq<byte>)
    requires data == before + (a + b + c) + after
    ensures var i := |before|;
            var j := i + |a|;
            var k := j + |b|;
            k + |c| <= |data| && data[i..j] == a && data[j..k] == b && data[k..k + |c|] == c
  {
    assert data == before + a + (b + c + after);
    Located(before, a, b + c + after, data);
    assert data == (before + a) + b + (c + after);
    Located(before + a, b, c + after, data);
    assert data == (before + a + b) + c + after;
    Located(before + a + b, c, after, data);
  }

  lemma FrameLayout(id: nat, body: seq<byte>, before: seq<byte>, after: seq<byte>, data: seq<byte>)
    requires Significant(id) < 256 && data == before + FrameOf(id, body) + after
    ensures var v := |before| + |VarInt(id, false)|;
            && |FrameOf(id, body)| == |VarInt(id, false)| + 4 + |body|
            && v + 4 + |body| <= |data|
            && data[|before|..v] == VarInt(id, false)
            && data[v..v + 4] == Little(|body|, 4)
            && data[v + 4..v + 4 + |body|] == body
  {
    hide Little, VarInt;
    ThreeLocated(before, VarInt(id, false), Little(|body|, 4), body, after, data);
  }

  lemma HeadFound(data: seq<byte>, pos: nat, id: nat, at: nat, size: nat)
    requires ReadVarIntAt(data, |data|, pos, 8, false) == ReadOut(id, at, NoError)
    requires pos < at && size < MAX_BODY && at + 4 + size <= |data| && data[at..at + 4] == Little(size, 4)
    ensures HeadAt(data, |data|, pos, NoError) == Some(Head(pos, id, at + 4, size))
  {
    hide ReadVarIntAt;
    assert size < Range(4);
    LittleRoundTrip(size, 4);
  }

  // Where a frame that starts at `start` says its body is.
  function HeadFor(start: nat, id: nat, body: seq<byte>): Head
    requires Significant(id) < 256
  {
    Head(start, id, start + |VarInt(id, false)| + 4, |body|)
  }

  lemma HeadOfFrame(id: nat, body: seq<byte>, before: seq<byte>, after: seq<byte>, data: seq<byte>)
    requires id < Range(8) && |body| < MAX_BODY
    ensures Significant(id) < 256
    ensures data == before + FrameOf(id, body) + after ==>
              var h := HeadFor(|before|, id, body);
              && HeadAt(data, |data|, |before|, NoError) == Some(h)
              && h.body + h.size == |before| + |FrameOf(id, body)| <= |data| && data[h.body..h.body + h.size] == body
  {
    hide ReadVarIntAt, VarInt, Little, HeadAt, Significant, Range, FrameOf;
    SignificantFits(id, 8);
    if data == before + FrameOf(id, body) + after {
      FrameLayout(id, body, before, after, data);
      VarIntRoundTrip(id, 8, data, |data|, |before|, false);
      HeadFound(data, |before|, id, |before| + |VarInt(id, false)|, |body|);
    }
  }

  lemma BodyIsHandled<P>(c: Codec<P>, p: P, data: seq<byte>, h: Head)
    requires RoundTrips(c, p) && h.id == c.idOf(p) && h.size == |BodyOf(c, p)|
    requires h.body + h.size <= |data| <= NO_LIMIT && data[h.body..h.body + h.size] == BodyOf(c, p)
    ensures FateOf(c, data, h) == Handled(p) && LeftError(c, data, h) == NoError
  {
    assert ReadsBack(c, p, data, h.body);
  }

  // A header gives its body's length back exactly when the length fits its four bytes.
  lemma LengthFitsExactly(n: nat)
    ensures FromLittle(Little(n, 4)) == n <==> n < MAX_BODY
  {
    assert Range(4) == MAX_BODY;
    if n < MAX_BODY {
      LittleRoundTrip(n, 4);
    }
  }

  lemma FrameIsHandled<P>(c: Codec<P>, p: P, before: seq<byte>, after: seq<byte>, data: seq<byte>)
    requires RoundTrips(c, p) && |data| <= NO_LIMIT
    ensures Significant(c.idOf(p)) < 256
    ensures data == before + FrameOf(c.idOf(p), BodyOf(c, p)) + after ==>
              var h := HeadFor(|before|, c.idOf(p), BodyOf(c, p));
              && HeadAt(data, |data|, |before|, NoError) == Some(h)
              && h.body + h.size == |before| + |FrameOf(c.idOf(p), BodyOf(c, p))|
              && FateOf(c, data, h) == Handled(p) && LeftError(c, data, h) == NoError
  {
    HeadOfFrame(c.idOf(p), BodyOf(c, p), before, after, data);
    hide HeadAt, FrameOf, FateOf, LeftError, RoundTrips, BodyOf, Significant;
    if data == before + FrameOf(c.idOf(p), BodyOf(c, p)) + after {
      BodyIsHandled(c, p, data, HeadFor(|before|, c.idOf(p), BodyOf(c, p)));
    }
  }

  // Deserialize of concatenated Serialize outputs yields the same packets, in order, all valid.
  lemma {:induction false} DecodesWhatWasEncoded<P>(c: Codec<P>, packets: seq<P>, before: seq<byte>)
    requires forall p | p in packets :: RoundTrips(c, p)
    requires |before + Frames(c, packets)| <= NO_LIMIT
    ensures var r := DecodeFrom(c, before + Frames(c, packets), |before|, NO_LIMIT, NoError);
            r.handled == packets && r.invalid == 0 && !r.lost
    decreases |packets|
  {
    hide DecodeFrom, HeadAt, FateOf, LeftError, FrameOf, RoundTrips;
    var data := before + Frames(c, packets);
    DecodeStops(c, data, |before|, NO_LIMIT, NoError);
    if packets != [] {
      var p, rest := packets[0], packets[1..];
      FrameIsHandled(c, p, before, Frames(c, rest), data);
      var frame := FrameOf(c.idOf(p), BodyOf(c, p));
      assert data == before + frame + Frames(c, rest);
      DecodeUnfold(c, data, |before|, NO_LIMIT, NoError, HeadFor(|before|, c.idOf(p), BodyOf(c, p)));
      DecodesWhatWasEncoded(c, rest, before + frame);
      assert packets == [p] + rest;
    }
  }

  /** Packet to frame, with headroom in front of it for the stages to come. Null when there is no
      serializer for the packet or it produced nothing. */
  method Serialize<P>(c: Codec<P>, p: P, headroom: nat) returns (buffer: Buffer?)
    requires c.idOf(p) < Range(8)
    ensures buffer == null <==> c.idOf(p) !in c.ids || c.write(p).Nothing?
    ensures Significant(c.idOf(p)) < 256
    ensures buffer != null ==>
              && fresh(buffer) && buffer.Valid() && buffer.data != null && fresh(buffer.data) && !buffer.big
              && buffer.readCursor == headroom && buffer.readLimit == NO_LIMIT && buffer.lastError == NoError
              && buffer.Message() == FrameOf(c.idOf(p), BodyOf(c, p))
  {
    SignificantFits(c.idOf(p), 8);
    hide VarInt, Number, Little, Significant, Range;
    if c.idOf(p) !in c.ids {
      return null;
    }
    var frame := OpenFrame(c.idOf(p), headroom);
    var bodyStart := frame.writeCursor;
    var produced := c.write(p);
    if produced.Nothing? {
      return null;
    }
    frame.Write(produced.bytes);
    FillLength(frame, headroom, bodyStart, VarInt(c.idOf(p), false), produced.bytes);
    assert Number(|produced.bytes|, 4, false) == Little(|produced.bytes|, 4) by { NumberLittle(|produced.bytes|, 4); }
    return frame;
  }

  lemma NumberLittle(n: nat, k: nat)
    ensures Number(n, k, false) == Little(n, k)
  {
  }

  // Serialize's first steps: headroom, the packet's id and room for the length.
  method OpenFrame(id: nat, headroom: nat) returns (frame: Buffer)
    requires id < Range(8)
    ensures fresh(frame) && frame.Valid() && frame.data != null && fresh(frame.data) && !frame.big
    ensures frame.readLimit == NO_LIMIT && frame.lastError == NoError && frame.readCursor == headroom
    ensures Significant(id) < 256 && frame.Message() == VarInt(id, false) + Number(0, 4, false)
    ensures frame.writeCursor == headroom + |frame.Message()|
  {
    hide VarInt, Number, Significant, Range;
    frame := new Buffer(false);
    if headroom != 0 {
      frame.ReserveHeadroom(headroom);
    }
    assert frame.Message() == [];
    frame.WriteVarInt(id);
    assert frame.Message() == VarInt(id, false);
    frame.WriteNumber(0, 4);
  }

  // Serialize's last step: the body's length, written over the placeholder in front of it.
  method FillLength(frame: Buffer, headroom: nat, bodyStart: nat, ghost v: seq<byte>, ghost body: seq<byte>)
    requires frame.Valid() && frame.data != null && !frame.big
    requires frame.readCursor == headroom && bodyStart == headroom + |v| + 4 && frame.writeCursor == bodyStart + |body|
    requires frame.Message() == v + Number(0, 4, false) + body
    modifies frame`data, frame`writeCursor, frame.data
    ensures frame.Valid() && frame.data == old(frame.data) && frame.writeCursor == old(frame.writeCursor)
    ensures frame.Message() == v + Number(|body|, 4, false) + body
  {
    ghost var draft := frame.data[..];
    var end := frame.writeCursor;
    frame.writeCursor := bodyStart - 4;
    frame.WriteNumber(end - bodyStart, 4);
    frame.writeCursor := end;
    Backfilled(draft, frame.data[..], headroom, end, v, Number(0, 4, false), Number(|body|, 4, false), body);
  }

  // Overwriting the middle part of a message leaves the parts around it.
  lemma Backfilled(was: seq<byte>, now: seq<byte>, from: nat, end: nat, a: seq<byte>, x: seq<byte>, y: seq<byte>, b: seq<byte>)
    requires from <= end <= |was| == |now| && |x| == |y|
    requires was[from..end] == a + x + b
    requires now[..from + |a|] == was[..from + |a|]
    requires now[from + |a|..from + |a| + |y|] == y
    requires now[from + |a| + |y|..] == was[from + |a| + |y|..]
    ensures now[from..end] == a + y + b
  {
    forall k | 0 <= k < end - from
      ensures now[from..end][k] == (a + y + b)[k]
    {
      var kept := |a| + |x|;
      if k < |a| {
        assert now[from + k] == now[..from + |a|][from + k];
        assert was[from + k] == was[from..end][k];
      } else if k < kept {
        assert now[from + k] == now[from + |a|..from + kept][k - |a|];
      } else {
        assert now[from + k] == now[from + kept..][k - kept] == was[from + kept..][k - kept];
        assert was[from + k] == was[from..end][k];
      }
    }
    assert |was[from..end]| == |a + x + b|;
  }
}
