/**
 The TCP transport: every message goes out behind a big-endian 16-bit length, a zero length marking
 a one-byte control frame, and is cut out of the byte stream again however the network segments it.
 What the socket answers to each send and offers at each receive is given from outside.
 */
module TcpFraming {
  import opened Buffers
  import opened Bytes
  import opened Options

  const CAPACITY: nat := 4096
  const SEND_LIMIT: nat := CAPACITY - 48
  const PING: byte := 1
  const PONG: byte := 2

  datatype Frame = Data(payload: seq<byte>) | Control(kind: byte)

  function Wire(f: Frame): (s: seq<byte>)
    ensures |s| > 0
  {
    match f
    case Data(payload) => Big(|payload|, 2) + payload
    case Control(kind) => [0, 0, kind]
  }

  // What Send lets through; a control frame always passes.
  predicate Sendable(f: Frame)
  {
    f.Data? ==> 0 < |f.payload| && |f.payload| + 2 < SEND_LIMIT
  }

  function Stream(frames: seq<Frame>): seq<byte>
  {
    if frames == [] then [] else Wire(frames[0]) + Stream(frames[1..])
  }

  function DataOf(frames: seq<Frame>): seq<seq<byte>>
  {
    if frames == [] then []
    else (if frames[0].Data? then [frames[0].payload] else []) + DataOf(frames[1..])
  }

  function PingsOf(frames: seq<Frame>): nat
  {
    if frames == [] then 0 else (if frames[0] == Control(PING) then 1 else 0) + PingsOf(frames[1..])
  }

  // --- Sending -----------------------------------------------------------------------------

  // What one turn of the send loop meets: some bytes taken, a full socket (and whether waiting for
  // room worked), an error, or the application closing the connection.
  datatype Answer = Took(count: nat) | WouldBlock(waited: bool) | Failed | Closing

  datatype Port = Port(closed: bool, answers: seq<Answer>, wire: seq<byte>)

  datatype Push = Push(port: Port, ok: bool)

  // A connection that answers no more is a closed one.
  function Pushed(port: Port, bytes: seq<byte>): Push
    decreases |port.answers|
  {
    if bytes == [] then Push(port, true)
    else if port.closed then Push(port, false)
    else if port.answers == [] then Push(port.(closed := true), false)
    else
      var next := port.(answers := port.answers[1..]);
      match port.answers[0]
      case Took(count) =>
        if count == 0 then Push(next, false)
        else
          var k := Min(count, |bytes|);
          Pushed(next.(wire := next.wire + bytes[..k]), bytes[k..])
      case WouldBlock(waited) => if waited then Pushed(next, bytes) else Push(next, false)
      case Failed => Push(next, false)
      case Closing => Push(next.(closed := true), false)
  }

  // One turn of the loop.
  lemma PushUnfold(port: Port, bytes: seq<byte>)
    ensures bytes == [] ==> Pushed(port, bytes) == Push(port, true)
    ensures bytes != [] && port.closed ==> Pushed(port, bytes) == Push(port, false)
    ensures bytes != [] && !port.closed && port.answers == [] ==> Pushed(port, bytes) == Push(port.(closed := true), false)
    ensures bytes != [] && !port.closed && port.answers != [] ==>
              var next := port.(answers := port.answers[1..]);
              Pushed(port, bytes) ==
                match port.answers[0]
                case Took(count) =>
                  if count == 0 then Push(next, false)
                  else Pushed(next.(wire := next.wire + bytes[..Min(count, |bytes|)]), bytes[Min(count, |bytes|)..])
                case WouldBlock(waited) => if waited then Pushed(next, bytes) else Push(next, false)
                case Failed => Push(next, false)
                case Closing => Push(next.(closed := true), false)
  {
  }

  // Whatever the socket does, a prefix of the frame reaches the wire, and all of it exactly when
  // the call reports success.
  lemma {:induction false} PushesPrefix(port: Port, bytes: seq<byte>)
    returns (prefix: seq<byte>)
    ensures Pushed(port, bytes).port.wire == port.wire + prefix && prefix <= bytes
    ensures Pushed(port, bytes).ok <==> prefix == bytes
    decreases |port.answers|
  {
    prefix := [];
    if bytes != [] && !port.closed && port.answers != [] {
      var next := port.(answers := port.answers[1..]);
      match port.answers[0]
      case Took(count) =>
        if count != 0 {
          var k := Min(count, |bytes|);
          prefix := PushesPrefix(next.(wire := next.wire + bytes[..k]), bytes[k..]);
          assert bytes == bytes[..k] + bytes[k..];
          prefix := bytes[..k] + prefix;
        }
      case WouldBlock(waited) =>
        if waited {
          prefix := PushesPrefix(next, bytes);
        }
      case _ =>
    }
  }

  // An answer after which the loop goes on.
  predicate GoesOn(a: Answer)
  {
    (a.Took? && a.count > 0) || (a.WouldBlock? && a.waited)
  }

  /** How a send on an open connection ends: after answers that let the loop go on, with the last byte
      taken, or at the first other answer. It closes the connection exactly if that answer says the other
      side has closed it, or none is left because the connection was closed underneath; a failure of any
      other kind leaves it open. */
  lemma {:induction false} SendEnds(port: Port, bytes: seq<byte>) returns (n: nat)
    requires !port.closed
    ensures n <= |port.answers| && forall k | 0 <= k < n :: GoesOn(port.answers[k])
    ensures var r := Pushed(port, bytes);
            && (r.ok ==> !r.port.closed && r.port.answers == port.answers[n..])
            && (!r.ok && n == |port.answers| ==> r.port.closed)
            && (!r.ok && n < |port.answers| ==>
                  && !GoesOn(port.answers[n]) && r.port.answers == port.answers[n + 1..]
                  && (r.port.closed <==> port.answers[n].Closing?))
    decreases |port.answers|
  {
    hide Pushed;
    PushUnfold(port, bytes);
    n := 0;
    assert port.answers[0..] == port.answers;
    if bytes != [] && port.answers != [] && GoesOn(port.answers[0]) {
      var next := port.(answers := port.answers[1..]);
      if port.answers[0].Took? {
        var k := Min(port.answers[0].count, |bytes|);
        n := SendEnds(next.(wire := next.wire + bytes[..k]), bytes[k..]);
      } else {
        n := SendEnds(next, bytes);
      }
      assert next.answers[n..] == port.answers[n + 1..];
      n := n + 1;
    }
  }

  function SentControl(port: Port, kind: byte): Port
  {
    if port.closed then port else Pushed(port, Wire(Control(kind))).port
  }

  // A run of sends on one connection: frames that went out whole, and what the first one that
  // failed left behind.
  ghost predicate SendRun(port: Port, frames: seq<Frame>, end: Port)
    decreases |frames|
  {
    if frames == [] then end == port
    else Pushed(port, Wire(frames[0])).ok && SendRun(Pushed(port, Wire(frames[0])).port, frames[1..], end)
  }

  lemma {:induction false} WireIsTheFrames(port: Port, frames: seq<Frame>, end: Port)
    requires SendRun(port, frames, end)
    ensures end.wire == port.wire + Stream(frames)
    decreases |frames|
  {
    if frames != [] {
      var prefix := PushesPrefix(port, Wire(frames[0]));
      WireIsTheFrames(Pushed(port, Wire(frames[0])).port, frames[1..], end);
    }
  }

  // --- Receiving ---------------------------------------------------------------------------

  datatype Next = Partial | Oversized | Whole(frame: Frame, rest: seq<byte>)

  // The frame at the front of the stream.
  function NextOf(s: seq<byte>): (n: Next)
    ensures n.Whole? ==> |n.rest| < |s|
  {
    if |s| < 2 then Partial
    else
      var size := FromBig(s[..2]);
      var need := if size == 0 then 1 else size;
      if size + 2 > CAPACITY then Oversized
      else if |s| - 2 < need then Partial
      else Whole(if size == 0 then Control(s[2]) else Data(s[2..2 + size]), s[2 + need..])
  }

  // Every payload a stream holds whole, and whether its framing never asks for the impossible.
  function Payloads(s: seq<byte>): seq<seq<byte>>
    decreases |s|
  {
    match NextOf(s)
    case Whole(f, rest) => (if f.Data? then [f.payload] else []) + Payloads(rest)
    case _ => []
  }

  // Every ping a stream holds whole.
  function PingsIn(s: seq<byte>): nat
    decreases |s|
  {
    match NextOf(s)
    case Whole(f, rest) => (if f == Control(PING) then 1 else 0) + PingsIn(rest)
    case _ => 0
  }

  predicate WellFramed(s: seq<byte>)
    decreases |s|
  {
    match NextOf(s)
    case Whole(_, rest) => WellFramed(rest)
    case Oversized => false
    case Partial => true
  }

  datatype Scan = Scan(frame: Option<seq<byte>>, unread: seq<byte>, port: Port)

  // One ReadBuffer: past any control frames to the first data frame, if it is all there.
  function Scanned(unread: seq<byte>, port: Port): Scan
    decreases |unread|
  {
    match NextOf(unread)
    case Partial => Scan(None, unread, port)
    case Oversized => Scan(None, [], port.(closed := true))
    case Whole(Data(payload), rest) => Scan(Some(payload), rest, port)
    case Whole(Control(kind), rest) => Scanned(rest, if kind == PING then SentControl(port, PONG) else port)
  }

  // What ReadBuffer's loop finds at the front of its buffer.
  datatype Turn = Waiting | Broken | Taken(frame: Frame)

  // What a call to Receive finds at the socket.
  datatype Arrival = Quiet | Ended | Reset | Bytes(bytes: seq<byte>)

  // One Receive: the scan, how many of the offered bytes were taken in.
  datatype Received = Received(scan: Scan, taken: nat)

  // The bytes at the socket, as many as there is room for, and the scan after them.
  function ReadIn(unread: seq<byte>, port: Port, bytes: seq<byte>): (r: Received)
    requires |unread| <= CAPACITY
    ensures |r.scan.unread| <= CAPACITY && r.taken <= |bytes|
  {
    var n := Min(|bytes|, CAPACITY - |unread|);
    // nothing taken reads as the peer having closed
    if n == 0 then Received(Scan(None, unread, port.(closed := true)), 0)
    else
      ScanLeavesRoom(unread + bytes[..n], port);
      Received(Scanned(unread + bytes[..n], port), n)
  }

  function ReceivedOf(unread: seq<byte>, port: Port, arrival: Arrival): (r: Received)
    requires |unread| <= CAPACITY
    ensures |r.scan.unread| <= CAPACITY && (arrival.Bytes? ==> r.taken <= |arrival.bytes|)
    ensures !arrival.Bytes? ==> r.taken == 0
  {
    ScanLeavesRoom(unread, port);
    var first := Scanned(unread, port);
    if first.frame.Some? then Received(first, 0)
    else
      match arrival
      case Quiet => Received(first, 0)
      case Ended => Received(first.(port := first.port.(closed := true)), 0)
      case Reset => Received(first.(port := first.port.(closed := true)), 0)
      case Bytes(bytes) => ReadIn(first.unread, first.port, bytes)
  }

  // A partial frame never fills the buffer, so recv always has room and a zero return means what
  // it says.
  lemma {:induction false} ScanLeavesRoom(unread: seq<byte>, port: Port)
    ensures var r := Scanned(unread, port);
            |r.unread| <= |unread| && (r.frame.None? ==> |r.unread| < CAPACITY)
    decreases |unread|
  {
    match NextOf(unread)
    case Whole(Control(kind), rest) =>
      ScanLeavesRoom(rest, if kind == PING then SentControl(port, PONG) else port);
    case _ =>
  }

  /** When the other side has ended the connection, or reset it, a frame that is there already is still
      handed up and the connection stays open for it; without one it is closed, and what is there stays. */
  lemma EndIsNoticed(unread: seq<byte>, port: Port, arrival: Arrival)
    requires |unread| <= CAPACITY && (arrival.Ended? || arrival.Reset?)
    ensures var quiet, r := ReceivedOf(unread, port, Quiet), ReceivedOf(unread, port, arrival);
            && r.scan.frame == quiet.scan.frame && r.scan.unread == quiet.scan.unread && r.taken == 0
            && (if r.scan.frame.Some? then r.scan.port == quiet.scan.port else r.scan.port.closed)
  {
    hide Scanned;
  }

  // --- The transport -----------------------------------------------------------------------

  method Append(buffer: Buffer, bytes: seq<byte>)
    requires buffer.Valid() && buffer.data != null && buffer.readCursor <= buffer.writeCursor
    modifies buffer`data, buffer`writeCursor, buffer.data
    ensures buffer.Valid() && buffer.data != null && (buffer.data == old(buffer.data) || fresh(buffer.data))
    ensures buffer.writeCursor == old(buffer.writeCursor) + |bytes|
    ensures buffer.Message() == old(buffer.Message()) + bytes
  {
    buffer.Write(bytes);
  }

  class TCPTransportLayer {
    const recv: Buffer
    var closed: bool
    var answers: seq<Answer>  // what the socket will answer to the sends to come
    var wire: seq<byte>       // what it has taken

    ghost predicate Valid()
      reads recv
    {
      && recv.Valid() && recv.data != null && recv.data.Length == CAPACITY && recv.big
      && recv.readCursor <= recv.writeCursor && recv.readLimit == NO_LIMIT && recv.lastError == NoError
    }

    ghost function Socket(): Port
      reads this
    {
      Port(closed, answers, wire)
    }

    ghost function Unread(): seq<byte>
      reads recv, recv.Repr()
      requires Valid()
    {
      recv.data[recv.readCursor..recv.writeCursor]
    }

    constructor (answers: seq<Answer>)
      ensures Valid() && fresh(recv) && fresh(recv.data) && Unread() == []
      ensures Socket() == Port(false, answers, [])
    {
      recv := new Buffer(true);
      closed, this.answers, wire := false, answers, [];
      new;
      recv.Reserve(CAPACITY, true);
    }

    /** The send loop: retries short sends until the frame is out, the socket fails or the
        connection is closed underneath it. */
    method WriteAll(buffer: Buffer) returns (ok: bool)
      requires buffer.Valid()
      modifies this`closed, this`answers, this`wire
      ensures Push(Socket(), ok) == Pushed(old(Socket()), buffer.Readable())
    {
      var data: seq<byte> := [];
      if buffer.ReadableBytes() > 0 {
        data := buffer.data[buffer.readCursor..buffer.End()];
      }
      assert data == buffer.Readable();
      hide Pushed;
      var remaining, offset := |data|, 0;
      while remaining > 0
        invariant 0 <= offset && 0 <= remaining && offset + remaining == |data|
        invariant Pushed(old(Socket()), data) == Pushed(Socket(), data[offset..])
        decreases |answers|
      {
        ghost var before, rest := Socket(), data[offset..];
        PushUnfold(before, rest);
        if closed {
          return false;
        }
        if answers == [] {
          closed := true;
          return false;
        }
        var answer := answers[0];
        answers := answers[1..];
        match answer
        case Took(count) =>
          if count == 0 {
            return false;
          }
          var written := Min(count, remaining);
          TailOf(data, offset, written);
          wire := wire + data[offset..offset + written];
          offset := offset + written;
          remaining := remaining - written;
        case WouldBlock(waited) =>
          if !waited {
            return false;
          }
        case Failed => return false;
        case Closing =>
          closed := true;
          return false;
      }
      assert data[offset..] == [];
      PushUnfold(Socket(), []);
      return true;
    }

    method SendControl(kind: byte)
      modifies this`closed, this`answers, this`wire
      ensures Socket() == SentControl(old(Socket()), kind)
    {
      if closed {
        return;
      }
      hide Pushed;
      var frame := Copied(0, 0, [kind]);
      assert frame.Readable() == Wire(Control(kind));
      var _ := WriteAll(frame);
    }

    /** Frames one message, in its own headroom when it has any, in a copy otherwise: the bytes on
        the wire are the same. Empty and oversized messages are refused untouched. */
    method Send(buffer: Buffer) returns (ok: bool)
      requires buffer.Valid() && buffer != recv
      modifies this`closed, this`answers, this`wire, buffer`readCursor, buffer.data
      ensures var f := Data(old(buffer.Readable()));
              if old(closed) || !Sendable(f) then !ok && Socket() == old(Socket())
              else Push(Socket(), ok) == Pushed(old(Socket()), Wire(f))
    {
      if closed {
        return false;
      }
      var size := buffer.ReadableBytes();
      if buffer.data == null || size == 0 {
        return false;
      }
      if size + 2 >= SEND_LIMIT || size > 0xFFFF {
        return false;
      }
      var framed := Framed(buffer);
      hide Pushed, Wire, Buffer.Readable, Buffer.Valid;
      ok := WriteAll(framed);
    }

    method Framed(buffer: Buffer) returns (framed: Buffer)
      requires buffer.Valid() && buffer.data != null && buffer.readCursor <= buffer.End()
      requires buffer.ReadableBytes() <= 0xFFFF
      modifies buffer`readCursor, buffer.data
      ensures framed.Valid() && framed.Readable() == Wire(Data(old(buffer.Readable())))
    {
      hide Wire;
      var size := buffer.ReadableBytes();
      var high, low: byte := size / 256, size % 256;
      FramedIs(buffer.Readable());
      if buffer.readCursor >= 2 {
        Prepend(buffer, high, low);
        return buffer;
      }
      framed := Copied(high, low, buffer.data[buffer.readCursor..buffer.End()]);
    }

    // The length in the message's own headroom.
    method Prepend(buffer: Buffer, high: byte, low: byte)
      requires buffer.Valid() && buffer.data != null && 2 <= buffer.readCursor <= buffer.End()
      modifies buffer`readCursor, buffer.data
      ensures buffer.Valid() && buffer.Readable() == [high, low] + old(buffer.Readable())
    {
      hide Buffer.Readable, Buffer.Message;
      ghost var payload := buffer.Readable();
      var _ := buffer.PrependInt8(low);
      var _ := buffer.PrependInt8(high);
      assert [high] + ([low] + payload) == [high, low] + payload;
    }

    // The frame in a buffer of its own.
    method Copied(high: byte, low: byte, payload: seq<byte>) returns (framed: Buffer)
      requires |payload| + 2 <= NO_LIMIT
      ensures fresh(framed) && framed.Valid() && framed.Readable() == [high, low] + payload
    {
      framed := new Buffer(true);
      framed.Reserve(|payload| + 2, true);
      assert framed.Message() == [];
      Append(framed, [high]);
      Append(framed, [low]);
      assert framed.Message() == [high, low];
      Append(framed, payload);
      assert framed.Readable() == framed.Message();
    }

    method HandleControl(kind: byte)
      modifies this`closed, this`answers, this`wire
      ensures Socket() == if kind == PING then SentControl(old(Socket()), PONG) else old(Socket())
    {
      if kind == PING {
        SendControl(PONG);
      }
    }

    // The frame at the front of the receive buffer, taken out if it is whole.
    method TakeFrame() returns (next: Turn)
      requires Valid() && recv.ReadableBytes() >= 2
      modifies recv`readCursor, recv`lastError
      ensures Valid()
      ensures match NextOf(old(Unread()))
              case Partial => next == Waiting && Unread() == old(Unread())
              case Oversized => next == Broken
              case Whole(f, rest) => next == Taken(f) && Unread() == rest
    {
      hide FromBig;
      var start := recv.readCursor;
      ghost var d, end := recv.data[..], recv.writeCursor;
      SliceOfPrefix(d, end, start, start + 2);
      PrefixOfSlice(d, start, start + 2, end);
      var size := recv.ReadNumber(2);
      if size + 2 > recv.Capacity() {
        return Broken;
      }
      var need := if size == 0 then 1 else size;
      if recv.ReadableBytes() < need {
        recv.readCursor := start;
        return Waiting;
      }
      SliceOfSlice(d, start, end, 2, 2 + need);
      next := Taken(if size == 0 then Control(recv.data[recv.readCursor])
                    else Data(recv.data[recv.readCursor..recv.readCursor + size]));
      recv.readCursor := recv.readCursor + need;
    }

    /** Takes the next whole data frame out of the receive buffer, answering each ping in front of it;
        slides what is left to the front when there is none. */
    method ReadBuffer() returns (frame: Buffer?)
      requires Valid()
      modifies this`closed, this`answers, this`wire, recv, recv.data
      ensures Valid() && recv.data == old(recv.data)
      ensures var r := Scanned(old(Unread()), old(Socket()));
              && Unread() == r.unread && Socket() == r.port && (frame == null <==> r.frame.None?)
              && (frame != null ==> fresh(frame) && frame.Valid() && frame.Message() == r.frame.value)
              && (frame == null ==> recv.readCursor == 0)
      ensures WellFramed(old(Unread())) ==>
                && PingsIn(Unread()) <= PingsIn(old(Unread()))
                && Socket() == Replied(old(Socket()), PingsIn(old(Unread())) - PingsIn(Unread()))
    {
      hide Scanned, WellFramed, PingsIn, Replied, TCPTransportLayer.Valid, Buffer.Valid, Buffer.Message;
      if WellFramed(Unread()) {
        AnswersItsPings(Unread(), Socket());
      }
      frame := TakeOut();
    }

    // Its loop.
    method TakeOut() returns (frame: Buffer?)
      requires Valid()
      modifies this`closed, this`answers, this`wire, recv, recv.data
      ensures Valid() && recv.data == old(recv.data)
      ensures var r := Scanned(old(Unread()), old(Socket()));
              && Unread() == r.unread && Socket() == r.port && (frame == null <==> r.frame.None?)
              && (frame != null ==> fresh(frame) && frame.Valid() && frame.Message() == r.frame.value)
              && (frame == null ==> recv.readCursor == 0)
    {
      while recv.ReadableBytes() >= 2
        invariant Valid() && recv.data == old(recv.data)
        invariant Scanned(old(Unread()), old(Socket())) == Scanned(Unread(), Socket())
        decreases recv.writeCursor - recv.readCursor
      {
        hide NextOf, SentControl;
        var next := TakeFrame();
        if next.Broken? {
          closed := true;
          recv.readCursor, recv.writeCursor, recv.lastError := 0, 0, NoError;
          return null;
        }
        if next.Waiting? {
          break;
        }
        if next.frame.Data? {
          frame := new Buffer.Of(next.frame.payload, true);
          return;
        }
        HandleControl(next.frame.kind);
      }
      recv.Compact();
      return null;
    }

    /** One read of the socket at most. */
    method Receive(arrival: Arrival) returns (frame: Buffer?, taken: nat)
      requires Valid()
      modifies this`closed, this`answers, this`wire, recv, recv.data
      ensures Valid() && recv.data == old(recv.data)
      ensures var r := ReceivedOf(old(Unread()), old(Socket()), arrival);
              && Unread() == r.scan.unread && Socket() == r.scan.port && taken == r.taken
              && (frame == null <==> r.scan.frame.None?)
              && (frame != null ==> fresh(frame) && frame.Valid() && frame.Message() == r.scan.frame.value)
    {
      hide Scanned, ReadIn, TCPTransportLayer.Valid, Buffer.Valid, Buffer.Message;
      taken := 0;
      frame := ReadBuffer();
      if frame != null {
        return;
      }
      match arrival
      case Quiet =>
      case Ended => closed := true;
      case Reset => closed := true;
      case Bytes(bytes) =>
        frame, taken := ReadSocket(bytes);
    }

    method ReadSocket(bytes: seq<byte>) returns (frame: Buffer?, taken: nat)
      requires Valid() && recv.readCursor == 0
      modifies this`closed, this`answers, this`wire, recv, recv.data
      ensures Valid() && recv.data == old(recv.data)
      ensures var r := ReadIn(old(Unread()), old(Socket()), bytes);
              && Unread() == r.scan.unread && Socket() == r.scan.port && taken == r.taken
              && (frame == null <==> r.scan.frame.None?)
              && (frame != null ==> fresh(frame) && frame.Valid() && frame.Message() == r.scan.frame.value)
    {
      hide Scanned;
      taken := TakeIn(bytes);
      if taken == 0 {
        closed := true;
        return null, 0;
      }
      frame := ReadBuffer();
    }

    // recv: as much of what is there as the buffer has room for.
    method TakeIn(bytes: seq<byte>) returns (taken: nat)
      requires Valid() && recv.readCursor == 0
      modifies recv`writeCursor, recv.data
      ensures Valid() && taken == Min(|bytes|, CAPACITY - |old(Unread())|)
      ensures Unread() == old(Unread()) + bytes[..taken]
    {
      taken := Min(|bytes|, recv.WritableBytes());
      forall i | 0 <= i < taken {
        recv.data[recv.writeCursor + i] := bytes[i];
      }
      recv.writeCursor := recv.writeCursor + taken;
    }
  }

  lemma LengthBytes(size: nat)
    requires size < 0x10000
    ensures Big(size, 2) == [size / 256, size % 256]
  {
    assert Big(size / 256, 1) == Big(size / 256 / 256, 0) + [size / 256 % 256] == [size / 256];
  }

  lemma FramedIs(payload: seq<byte>)
    requires |payload| < 0x10000
    ensures Wire(Data(payload)) == [|payload| / 256, |payload| % 256] + payload
  {
    LengthBytes(|payload|);
  }

  lemma TailOf(data: seq<byte>, offset: nat, k: nat)
    requires offset + k <= |data|
    ensures data[offset..][..k] == data[offset..offset + k] && data[offset..][k..] == data[offset + k..]
  {
  }

  // --- Any segmentation --------------------------------------------------------------------

  lemma {:induction false} LengthReadsBack(size: nat, s: seq<byte>)
    requires size < 0x10000 && Big(size, 2) <= s
    ensures FromBig(s[..2]) == size
  {
    BigRoundTrip(size, 2);
    assert s[..2] == Big(size, 2);
  }

  lemma NextOfFrame(f: Frame, rest: seq<byte>)
    requires Sendable(f)
    ensures NextOf(Wire(f) + rest) == Whole(f, rest)
  {
    var s := Wire(f) + rest;
    match f
    case Data(payload) =>
      LengthReadsBack(|payload|, s);
      assert s[2..2 + |payload|] == payload && s[2 + |payload|..] == rest;
    case Control(kind) =>
      assert s[..2] == Big(0, 2) by { LengthBytes(0); }
      LengthReadsBack(0, s);
      assert s[3..] == rest;
  }

  // What is whole stays whole as more arrives; what is impossible stays impossible.
  lemma NextIsStable(s: seq<byte>, more: seq<byte>)
    ensures NextOf(s).Whole? ==> NextOf(s + more) == Whole(NextOf(s).frame, NextOf(s).rest + more)
    ensures NextOf(s).Oversized? ==> NextOf(s + more).Oversized?
  {
    var t := s + more;
    if |s| >= 2 {
      assert t[..2] == s[..2];
      if NextOf(s).Whole? {
        var size := FromBig(s[..2]);
        var need := if size == 0 then 1 else size;
        assert t[2..2 + need] == s[2..2 + need];
        assert t[2 + need..] == s[2 + need..] + more;
      }
    }
  }

  // A proper beginning of a frame is not a frame yet.
  lemma PartOfFrame(f: Frame, part: seq<byte>)
    requires Sendable(f) && part <= Wire(f) && part != Wire(f)
    ensures NextOf(part).Partial?
  {
    NextOfFrame(f, []);
    assert Wire(f) + [] == Wire(f);
    var more := Wire(f)[|part|..];
    assert part + more == Wire(f);
    NextIsStable(part, more);
  }

  lemma {:induction false} StreamParses(frames: seq<Frame>, tail: seq<byte>)
    requires forall f | f in frames :: Sendable(f)
    requires NextOf(tail).Partial?
    ensures WellFramed(Stream(frames) + tail) && Payloads(Stream(frames) + tail) == DataOf(frames)
    ensures PingsIn(Stream(frames) + tail) == PingsOf(frames)
    decreases |frames|
  {
    if frames == [] {
      assert Stream(frames) + tail == tail;
    } else {
      StreamParses(frames[1..], tail);
      assert Stream(frames) + tail == Wire(frames[0]) + (Stream(frames[1..]) + tail);
      NextOfFrame(frames[0], Stream(frames[1..]) + tail);
    }
  }

  // The port after answering so many pings.
  function Replied(port: Port, pings: nat): Port
    decreases pings
  {
    if pings == 0 then port else Replied(SentControl(port, PONG), pings - 1)
  }

  lemma {:induction false} RepliedTwice(port: Port, j: nat, k: nat)
    ensures Replied(Replied(port, j), k) == Replied(port, j + k)
    decreases j
  {
    if j > 0 {
      RepliedTwice(SentControl(port, PONG), j - 1, k);
    }
  }

  // On a socket that takes what it is given, answering n pings writes the pong n times.
  lemma {:induction false} PongsOnTheWire(port: Port, n: nat)
    requires !port.closed && n <= |port.answers|
    requires forall k | 0 <= k < n :: port.answers[k].Took? && port.answers[k].count >= 3
    ensures Replied(port, n) == Port(false, port.answers[n..], port.wire + Pongs(n))
    decreases n
  {
    hide SentControl;
    if n == 0 {
      assert port.wire + [] == port.wire;
    } else {
      OnePong(port);
      PongsOnTheWire(SentControl(port, PONG), n - 1);
      assert port.wire + [0, 0, 2] + Pongs(n - 1) == port.wire + Pongs(n);
    }
  }

  lemma OnePong(port: Port)
    requires !port.closed && port.answers != [] && port.answers[0].Took? && port.answers[0].count >= 3
    ensures SentControl(port, PONG) == Port(false, port.answers[1..], port.wire + [0, 0, 2])
  {
    hide Pushed;
    LengthBytes(0);
    var pong: seq<byte> := [0, 0, 2];
    assert Wire(Control(PONG)) == pong;
    assert pong[..3] == pong && pong[3..] == [];
    PushUnfold(port, pong);
    PushUnfold(Port(false, port.answers[1..], port.wire + pong), []);
  }

  function Pongs(n: nat): seq<byte>
  {
    if n == 0 then [] else [0, 0, 2] + Pongs(n - 1)
  }

  function HandedUp(scan: Scan): seq<seq<byte>>
  {
    if scan.frame.Some? then [scan.frame.value] else []
  }

  // The scan took exactly the first data frame of what was there, if there was one, and touched the
  // connection only to answer the pings it took out, each once. What has yet to arrive went from `future` to `later`.
  ghost predicate Conserves(unread: seq<byte>, future: seq<byte>, port: Port,
                            scan: Scan, later: seq<byte>, pings: nat)
  {
    && Payloads(unread + future) == HandedUp(scan) + Payloads(scan.unread + later)
    && WellFramed(scan.unread + later)
    && (scan.frame.None? ==> NextOf(scan.unread).Partial?)
    && scan.port == Replied(port, pings) && PingsIn(unread + future) == pings + PingsIn(scan.unread + later)
  }

  lemma {:induction false} ScanConserves(unread: seq<byte>, port: Port, future: seq<byte>) returns (pings: nat)
    requires WellFramed(unread + future)
    ensures Conserves(unread, future, port, Scanned(unread, port), future, pings)
    decreases |unread|
  {
    hide NextOf, SentControl;
    NextIsStable(unread, future);
    pings := 0;
    match NextOf(unread)
    case Whole(Control(kind), rest) =>
      pings := ScanConserves(rest, if kind == PING then SentControl(port, PONG) else port, future);
      if kind == PING {
        pings := pings + 1;
      }
    case _ =>
  }

  /** A scan that comes to a length no frame can have, and to no data frame before it, closes the
      connection and drops what it holds. */
  lemma {:induction false} BrokenFramingCloses(unread: seq<byte>, port: Port)
    requires !WellFramed(unread) && Scanned(unread, port).frame.None?
    ensures Scanned(unread, port).port.closed && Scanned(unread, port).unread == []
    decreases |unread|
  {
    hide SentControl;
    match NextOf(unread)
    case Whole(Control(kind), rest) =>
      BrokenFramingCloses(rest, if kind == PING then SentControl(port, PONG) else port);
    case _ =>
  }

  lemma AnswersItsPings(unread: seq<byte>, port: Port)
    requires WellFramed(unread)
    ensures var r := Scanned(unread, port);
            PingsIn(r.unread) <= PingsIn(unread) && r.port == Replied(port, PingsIn(unread) - PingsIn(r.unread))
  {
    hide Scanned, WellFramed, PingsIn, Replied, Payloads, NextOf;
    assert unread + [] == unread;
    var pings := ScanConserves(unread, port, []);
    assert Scanned(unread, port).unread + [] == Scanned(unread, port).unread;
  }

  lemma ReadInConserves(unread: seq<byte>, port: Port, future: seq<byte>, n: nat) returns (pings: nat)
    requires |unread| < CAPACITY && 0 < n <= |future| && WellFramed(unread + future)
    ensures var r := ReadIn(unread, port, future[..n]);
            0 < r.taken && Conserves(unread, future, port, r.scan, future[r.taken..], pings)
  {
    hide Scanned, Payloads, PingsIn, WellFramed, NextOf, Replied;
    var k := Min(n, CAPACITY - |unread|);
    assert future[..n][..k] == future[..k];
    assert unread + future[..k] + future[k..] == unread + future;
    pings := ScanConserves(unread + future[..k], port, future[k..]);
  }

  // One after the other.
  lemma ConservesTwice(unread: seq<byte>, future: seq<byte>, port: Port, first: Scan, pings: nat,
                       second: Scan, later: seq<byte>, again: nat)
    requires Conserves(unread, future, port, first, future, pings) && first.frame.None?
    requires Conserves(first.unread, future, first.port, second, later, again)
    ensures Conserves(unread, future, port, second, later, pings + again)
  {
    hide Payloads, PingsIn, WellFramed, NextOf, Replied;
    RepliedTwice(port, pings, again);
  }

  lemma ReceiveConserves(unread: seq<byte>, port: Port, future: seq<byte>, n: nat) returns (pings: nat)
    requires |unread| <= CAPACITY && n <= |future| && WellFramed(unread + future)
    ensures var r := ReceivedOf(unread, port, if n == 0 then Quiet else Bytes(future[..n]));
            && Conserves(unread, future, port, r.scan, future[r.taken..], pings)
            && (n > 0 && r.scan.frame.None? ==> r.taken > 0)
  {
    hide Scanned, ReadIn, Conserves, NextOf;
    var first := Scanned(unread, port);
    pings := ScanConserves(unread, port, future);
    ScanLeavesRoom(unread, port);
    assert future[0..] == future;
    if first.frame.None? && n > 0 {
      assert WellFramed(first.unread + future) by { ConservesFraming(unread, future, port, first, future, pings); }
      var again := ReadInConserves(first.unread, first.port, future, n);
      var r := ReadIn(first.unread, first.port, future[..n]);
      ConservesTwice(unread, future, port, first, pings, r.scan, future[r.taken..], again);
      pings := pings + again;
    }
  }

  lemma ConservesFraming(unread: seq<byte>, future: seq<byte>, port: Port, scan: Scan, later: seq<byte>, pings: nat)
    requires Conserves(unread, future, port, scan, later, pings)
    ensures WellFramed(scan.unread + later)
  {
  }

  lemma PartialHoldsNone(s: seq<byte>)
    requires NextOf(s).Partial?
    ensures Payloads(s) == [] && PingsIn(s) == 0
  {
  }

  // The receiving end of a connection: what it holds, what has yet to arrive, what it handed up.
  datatype Conn = Conn(unread: seq<byte>, future: seq<byte>, delivered: seq<seq<byte>>, port: Port)

  // One Receive when at most `offered` bytes of the future are at the socket.
  function Step(c: Conn, offered: nat): (d: Conn)
    requires |c.unread| <= CAPACITY
    ensures |d.unread| <= CAPACITY
  {
    var n := Min(offered, |c.future|);
    var r := ReceivedOf(c.unread, c.port, if n == 0 then Quiet else Bytes(c.future[..n]));
    Conn(r.scan.unread, c.future[r.taken..],
         c.delivered + HandedUp(r.scan), r.scan.port)
  }

  ghost predicate ConnOk(c: Conn)
  {
    |c.unread| <= CAPACITY && WellFramed(c.unread + c.future)
  }

  // Nothing is lost, repeated or reordered by a call, a call that found bytes took some, and it does
  // nothing to the connection but answer the pings it took out.
  lemma StepConserves(c: Conn, offered: nat) returns (pings: nat)
    requires ConnOk(c)
    ensures var d := Step(c, offered);
            && ConnOk(d)
            && d.delivered + Payloads(d.unread + d.future) == c.delivered + Payloads(c.unread + c.future)
            && (offered > 0 && d.future == c.future && d.delivered == c.delivered ==>
                  c.future == [] && NextOf(d.unread).Partial?)
            && d.port == Replied(c.port, pings)
            && PingsIn(c.unread + c.future) == pings + PingsIn(d.unread + d.future)
  {
    hide ReceivedOf, Payloads, PingsIn, WellFramed, Replied, NextOf;
    var n := Min(offered, |c.future|);
    pings := ReceiveConserves(c.unread, c.port, c.future, n);
    var r := ReceivedOf(c.unread, c.port, if n == 0 then Quiet else Bytes(c.future[..n]));
    var rest := Payloads(r.scan.unread + c.future[r.taken..]);
    assert c.delivered + HandedUp(r.scan) + rest == c.delivered + (HandedUp(r.scan) + rest);
  }

  function Run(c: Conn, offers: seq<nat>): Conn
    requires |c.unread| <= CAPACITY
    decreases |offers|
  {
    if offers == [] then c else Run(Step(c, offers[0]), offers[1..])
  }

  lemma {:induction false} RunConserves(c: Conn, offers: seq<nat>) returns (pings: nat)
    requires ConnOk(c)
    ensures var d := Run(c, offers);
            && ConnOk(d)
            && d.delivered + Payloads(d.unread + d.future) == c.delivered + Payloads(c.unread + c.future)
            && d.port == Replied(c.port, pings)
            && PingsIn(c.unread + c.future) == pings + PingsIn(d.unread + d.future)
    decreases |offers|
  {
    pings := 0;
    if offers != [] {
      hide Step, Payloads, PingsIn, ConnOk, Pushed;
      pings := StepConserves(c, offers[0]);
      var later := RunConserves(Step(c, offers[0]), offers[1..]);
      RepliedTwice(c.port, pings, later);
      pings := pings + later;
    }
  }

  /** Whatever frames were sent, wherever the last one broke off and however the stream is cut up
      on its way: at every moment the payloads handed up are a prefix of those sent, in order, and
      once a call with bytes on offer changes nothing they are all of them. The receiver never takes
      the connection for closed or its framing for broken: it answers each ping it has taken out, once,
      and does nothing else. */
  lemma EverySegmentation(frames: seq<Frame>, tail: seq<byte>, offers: seq<nat>, port: Port) returns (pings: nat)
    requires forall f | f in frames :: Sendable(f)
    requires NextOf(tail).Partial?
    ensures WellFramed(Stream(frames) + tail)
    ensures ConnOk(Conn([], Stream(frames) + tail, [], port))
    ensures var c := Run(Conn([], Stream(frames) + tail, [], port), offers);
            && ConnOk(c)
            && c.delivered <= DataOf(frames)
            && c.port == Replied(port, pings) && pings + PingsIn(c.unread + c.future) == PingsOf(frames)
            && (Step(c, 1).future == c.future && Step(c, 1).delivered == c.delivered ==>
                  c.delivered == DataOf(frames) && Step(c, 1).port == Replied(port, PingsOf(frames)))
  {
    hide Step, Payloads, PingsIn, Replied, NextOf, Run, WellFramed;
    StreamParses(frames, tail);
    var start := Conn([], Stream(frames) + tail, [], port);
    assert [] + start.future == start.future;
    pings := RunConserves(start, offers);
    var c := Run(start, offers);
    var more := StepConserves(c, 1);
    var d := Step(c, 1);
    assert c.delivered + Payloads(c.unread + c.future) == DataOf(frames);
    if d.future == c.future && d.delivered == c.delivered {
      assert d.unread + d.future == d.unread;
      PartialHoldsNone(d.unread);
      RepliedTwice(port, pings, more);
    }
  }

  /** End to end: a sender that stopped at the first frame the socket would not take whole, and a
      receiver reading what reached the wire, in any pieces. */
  lemma WhatWasSentArrives(out: Port, frames: seq<Frame>, mid: Port, last: Frame, offers: seq<nat>, port: Port)
    requires out.wire == [] && SendRun(out, frames, mid)
    requires Sendable(last) && forall f | f in frames :: Sendable(f)
    requires !Pushed(mid, Wire(last)).ok
    ensures var wire := Pushed(mid, Wire(last)).port.wire;
            var c := Run(Conn([], wire, [], port), offers);
            && |c.unread| <= CAPACITY
            && c.delivered <= DataOf(frames)
            && (Step(c, 1).future == c.future && Step(c, 1).delivered == c.delivered ==> c.delivered == DataOf(frames))
  {
    hide Pushed, Step, Run, NextOf, Stream, Wire, DataOf, Sendable, SendRun;
    WireIsTheFrames(out, frames, mid);
    var tail := PushesPrefix(mid, Wire(last));
    PartOfFrame(last, tail);
    assert Pushed(mid, Wire(last)).port.wire == Stream(frames) + tail;
    var _ := EverySegmentation(frames, tail, offers, port);
  }

  // Frame after frame, up to the first the socket would not take whole.
  function SendAll(port: Port, frames: seq<Frame>): Push
    decreases |frames|
  {
    if frames == [] then Push(port, true)
    else
      var first := Pushed(port, Wire(frames[0]));
      if first.ok then SendAll(first.port, frames[1..]) else first
  }

  // What then lies on the wire: whole frames from the front, and a part of the next at most.
  lemma {:induction false} SendAllLeaves(port: Port, frames: seq<Frame>) returns (k: nat, tail: seq<byte>)
    requires forall f | f in frames :: Sendable(f)
    ensures k <= |frames| && (SendAll(port, frames).ok <==> k == |frames|)
    ensures SendAll(port, frames).port.wire == port.wire + Stream(frames[..k]) + tail && NextOf(tail).Partial?
    decreases |frames|
  {
    hide Pushed, Wire, NextOf, Sendable;
    k, tail := 0, [];
    assert NextOf([]).Partial? by { NothingIsPartial(); }
    if frames != [] {
      var f := frames[0];
      var first := Pushed(port, Wire(f));
      var prefix := PushesPrefix(port, Wire(f));
      if first.ok {
        var rest := frames[1..];
        k, tail := SendAllLeaves(first.port, rest);
        assert frames[..k + 1] == [f] + rest[..k];
        assert Stream(frames[..k + 1]) == Wire(f) + Stream(rest[..k]);
        k := k + 1;
      } else {
        PartOfFrame(f, prefix);
        tail := prefix;
        assert Stream(frames[..0]) == [];
      }
    }
  }

  lemma NothingIsPartial()
    ensures NextOf([]).Partial?
  {
  }

  /** A send that failed may leave part of its frame on the wire without closing the connection. A
      frame sent after it is found where it was written exactly when nothing was left. */
  lemma AfterFailedSend(port: Port, last: Frame, f: Frame, rest: seq<byte>) returns (tail: seq<byte>)
    requires Sendable(f) && !Pushed(port, Wire(last)).ok
    requires Pushed(Pushed(port, Wire(last)).port, Wire(f)).ok
    ensures Pushed(Pushed(port, Wire(last)).port, Wire(f)).port.wire == port.wire + tail + Wire(f)
    ensures tail <= Wire(last) && tail != Wire(last)
    ensures NextOf(tail + Wire(f) + rest) == Whole(f, rest) <==> tail == []
  {
    hide Pushed, Wire, NextOf, Sendable;
    var torn := Pushed(port, Wire(last)).port;
    tail := PushesPrefix(port, Wire(last));
    var whole := PushesPrefix(torn, Wire(f));
    if tail == [] {
      assert tail + Wire(f) + rest == Wire(f) + rest;
      NextOfFrame(f, rest);
    } else if NextOf(tail + Wire(f) + rest) == Whole(f, rest) {
      FrameLength(f, tail + Wire(f) + rest, rest);
    }
  }

  // What is taken for a frame is as long as that frame.
  lemma FrameLength(f: Frame, s: seq<byte>, rest: seq<byte>)
    requires NextOf(s) == Whole(f, rest)
    ensures |s| == |Wire(f)| + |rest|
  {
  }

  // For example: the socket takes two bytes of a frame and fails, which leaves the connection open,
  // then takes a whole frame of one byte. The receiver delivers the second frame's length as the
  // first one's payload.
  lemma TornFrameMisread()
    ensures var announced, sent := Data([5, 6]), Data([9]);
            var torn := Pushed(Port(false, [Took(2), Failed, Took(3)], []), Wire(announced));
            var whole := Pushed(torn.port, Wire(sent));
            && Sendable(announced) && Sendable(sent)
            && !torn.ok && !torn.port.closed && whole.ok && !whole.port.closed
            && Payloads(whole.port.wire) == [[0, 1]]
  {
    FramedIs([5, 6]);
    FramedIs([9]);
    assert Wire(Data([5, 6])) == [0, 2, 5, 6] && Wire(Data([9])) == [0, 1, 9];
    TornSend();
    TornStream();
  }

  lemma TornSend()
    ensures Pushed(Port(false, [Took(2), Failed, Took(3)], []), [0, 2, 5, 6])
            == Push(Port(false, [Took(3)], [0, 2]), false)
    ensures Pushed(Port(false, [Took(3)], [0, 2]), [0, 1, 9]) == Push(Port(false, [], [0, 2, 0, 1, 9]), true)
  {
    hide Pushed;
    var bytes: seq<byte> := [0, 2, 5, 6];
    assert [] + bytes[..2] == [0, 2] && bytes[2..] == [5, 6];
    PushUnfold(Port(false, [Took(2), Failed, Took(3)], []), bytes);
    assert [Took(2), Failed, Took(3)][1..] == [Failed, Took(3)] && [Failed, Took(3)][1..] == [Took(3)];
    PushUnfold(Port(false, [Failed, Took(3)], [0, 2]), [5, 6]);
    var more: seq<byte> := [0, 1, 9];
    assert more[..3] == more && more[3..] == [] && [Took(3)][1..] == [];
    PushUnfold(Port(false, [Took(3)], [0, 2]), more);
    assert [0, 2] + more == [0, 2, 0, 1, 9];
    PushUnfold(Port(false, [], [0, 2] + more), []);
  }

  lemma TornStream()
    ensures Payloads([0, 2, 0, 1, 9]) == [[0, 1]]
  {
    var s: seq<byte> := [0, 2, 0, 1, 9];
    LengthBytes(2);
    LengthReadsBack(2, s);
    assert FromBig(s[..2]) == 2 && s[2..4] == [0, 1] && s[4..] == [9];
    assert NextOf(s) == Whole(Data([0, 1]), [9]);
    assert NextOf([9]).Partial?;
  }
}
