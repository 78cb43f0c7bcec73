/**
 The byte buffer every wire layer works in: one heap array with a read cursor, a write cursor, a
 read limit and a sticky error flag. Allocation is taken to succeed and the host to be
 little-endian, so a little-endian buffer copies bytes straight and a big-endian one reverses them.
 */
module Buffers {
  import opened Bytes

  datatype BufferError = NoError | ReadOutOfBounds | CorruptedFormat

  // max(size_t), what SetReadLimit(0) restores.
  const NO_LIMIT: nat := 0xFFFF_FFFF_FFFF_FFFF

  // k bytes of n in the buffer's byte order, and the number such bytes denote.
  function Number(n: nat, k: nat, big: bool): seq<byte>
  {
    if big then Big(n, k) else Little(n, k)
  }

  function FromNumber(s: seq<byte>, big: bool): nat
  {
    if big then FromBig(s) else FromLittle(s)
  }

  // How many bytes of n matter; zero needs none.
  function Significant(n: nat): nat
  {
    if n == 0 then 0 else 1 + Significant(n / 256)
  }

  // A variable-length number: its byte count, then that many bytes.
  function VarInt(n: nat, big: bool): (s: seq<byte>)
    requires Significant(n) < 256
    ensures |s| == 1 + Significant(n)
  {
    [Significant(n)] + Number(n, Significant(n), big)
  }

  // What a read leaves: the value, where the cursor stands, and the error it raised, if any.
  datatype ReadOut = ReadOut(value: nat, pos: nat, error: BufferError)

  function ReadNumberAt(data: seq<byte>, end: nat, pos: nat, k: nat, big: bool): ReadOut
    requires end <= |data|
  {
    if pos + k <= end then ReadOut(FromNumber(data[pos..pos + k], big), pos + k, NoError)
    else ReadOut(0, pos, ReadOutOfBounds)
  }

  function ReadVarIntAt(data: seq<byte>, end: nat, pos: nat, k: nat, big: bool): ReadOut
    requires end <= |data|
  {
    if end < pos + 1 then ReadOut(0, pos, ReadOutOfBounds)
    else if data[pos] > k then ReadOut(0, pos + 1, CorruptedFormat)
    else if end < pos + 1 + data[pos] then ReadOut(0, pos + 1, ReadOutOfBounds)
    else ReadOut(FromNumber(data[pos + 1..pos + 1 + data[pos]], big), pos + 1 + data[pos], NoError)
  }

  lemma {:induction false} SignificantFits(n: nat, k: nat)
    requires n < Range(k)
    ensures Significant(n) <= k && n < Range(Significant(n))
    decreases k
  {
    if n > 0 {
      SignificantFits(n / 256, k - 1);
    }
  }

  lemma NumberRoundTrip(n: nat, k: nat, big: bool)
    requires n < Range(k)
    ensures FromNumber(Number(n, k, big), big) == n
  {
    if big { BigRoundTrip(n, k); } else { LittleRoundTrip(n, k); }
  }

  // Reading back what was written gives the number and stops right behind it.
  lemma VarIntRoundTrip(n: nat, k: nat, data: seq<byte>, end: nat, pos: nat, big: bool)
    requires n < Range(k) && k < 256
    ensures Significant(n) < 256
    ensures pos + |VarInt(n, big)| <= end <= |data| && data[pos..pos + |VarInt(n, big)|] == VarInt(n, big)
            ==> ReadVarIntAt(data, end, pos, k, big) == ReadOut(n, pos + |VarInt(n, big)|, NoError)
  {
    hide Significant, Number, FromNumber, Range;
    SignificantFits(n, k);
    var v := VarInt(n, big);
    if pos + |v| <= end <= |data| && data[pos..pos + |v|] == v {
      var m := Significant(n);
      assert data[pos] == data[pos..pos + |v|][0] == m;
      SliceOfSlice(data, pos, pos + |v|, 1, |v|);
      assert v[1..|v|] == Number(n, m, big);
      NumberRoundTrip(n, m, big);
    }
  }

  // --- The buffer itself -------------------------------------------------------------------

  class Buffer {
    var data: array?<byte>
    var readCursor: nat
    var writeCursor: nat
    var readLimit: nat
    var lastError: BufferError
    const big: bool

    ghost predicate Valid()
      reads this
    {
      if data == null then readCursor == writeCursor else writeCursor <= data.Length
    }

    ghost function Repr(): set<object>
      reads this
    {
      if data == null then {this} else {this, data}
    }

    // Everything up to the write cursor.
    ghost function Written(): seq<byte>
      reads this, Repr()
      requires Valid()
    {
      if data == null then [] else data[..writeCursor]
    }

    // The message in the buffer: from the read cursor, past any headroom, to the write cursor.
    ghost function Message(): (m: seq<byte>)
      reads this, Repr()
      requires Valid()
    {
      if data == null || writeCursor < readCursor then [] else data[readCursor..writeCursor]
    }

    // The part of the message a reader may still take.
    ghost function Readable(): (m: seq<byte>)
      reads this, Repr()
      requires Valid()
      ensures |m| == if data == null then 0 else ReadableBytes()
    {
      if data == null || End() < readCursor then [] else data[readCursor..End()]
    }

    // A reader gets the message up to the limit and no further; all of it when there is none.
    ghost predicate Fenced(limit: nat)
      reads this, Repr()
      requires Valid()
    {
      && (limit == 0 && writeCursor <= NO_LIMIT ==> Readable() == Message())
      && (0 < limit && readCursor <= limit <= writeCursor ==> Readable() == Message()[..limit - readCursor])
      && (0 < limit <= readCursor ==> Readable() == [])
    }

    function End(): nat
      reads this
    {
      Min(writeCursor, readLimit)
    }

    function Capacity(): nat
      reads this
    {
      if data == null then 0 else data.Length
    }

    function ReadableBytes(): nat
      reads this
    {
      if readCursor > End() then 0 else End() - readCursor
    }

    function WritableBytes(): nat
      reads this
      requires Valid() && data != null
    {
      data.Length - writeCursor
    }

    constructor (big: bool)
      ensures Valid() && data == null && readCursor == 0 && writeCursor == 0
      ensures readLimit == NO_LIMIT && lastError == NoError && this.big == big
    {
      data, readCursor, writeCursor, readLimit, lastError, this.big := null, 0, 0, NO_LIMIT, NoError, big;
    }

    constructor Of(bytes: seq<byte>, big: bool)
      ensures Valid() && data != null && fresh(data) && readCursor == 0
      ensures writeCursor == |bytes| && Written() == bytes && Message() == bytes
      ensures readLimit == NO_LIMIT && lastError == NoError && this.big == big
    {
      data := new byte[|bytes|](i requires 0 <= i < |bytes| => bytes[i]);
      readCursor, writeCursor, readLimit, lastError, this.big := 0, |bytes|, NO_LIMIT, NoError, big;
    }

    /** Makes room for `size` bytes in all. Bytes already written keep their place; a buffer with
        room is left alone. */
    method Reserve(size: nat, exact: bool)
      requires Valid()
      modifies this`data
      ensures data != null && size <= data.Length
      ensures old(data) != null && size <= old(data).Length ==> data == old(data)
      ensures data == old(data) || fresh(data)
      ensures old(data) != null ==> data[..writeCursor] == old(data[..writeCursor])
      ensures exact && old(data) == null ==> data.Length == size
      ensures !exact && old(data) == null ==> data.Length == if 2 * size < 64 then 64 else 2 * size
    {
      if data == null {
        var target := size;
        if !exact {
          target := size * 2;
          if target < 64 {
            target := 64;
          }
        }
        data := new byte[target];
        return;
      }
      if data.Length >= size {
        return;
      }
      var target := size * 2;
      if target < 64 {
        target := 64;
      }
      var from := data;
      var grown := new byte[target];
      forall i | 0 <= i < writeCursor {
        grown[i] := from[i];
      }
      data := grown;
    }

    /** Appends raw bytes at the write cursor. Whatever lay behind them stays when no growth was
        needed, which is what lets a header be filled in afterwards. */
    method Write(bytes: seq<byte>)
      requires Valid()
      modifies this`data, this`writeCursor, data
      ensures Valid() && data != null && writeCursor == old(writeCursor) + |bytes|
      ensures data == old(data) || fresh(data)
      ensures data[old(writeCursor)..writeCursor] == bytes
      ensures old(data) != null ==> data[..old(writeCursor)] == old(data[..writeCursor])
      ensures old(data) != null && writeCursor <= old(data).Length ==>
                data == old(data) && data[writeCursor..] == old(data[writeCursor + |bytes|..])
      ensures readCursor <= old(writeCursor) ==> Message() == old(Message()) + bytes
    {
      Reserve(writeCursor + |bytes|, false);
      ghost var before, was := writeCursor, data[..];
      CopyInto(data, writeCursor, bytes);
      ghost var now := data[..];
      Spliced(was, bytes, before, now);
      writeCursor := writeCursor + |bytes|;
      if readCursor <= before {
        SlicesJoin(now, readCursor, before, writeCursor);
        SliceOfPrefix(now, before, readCursor, before);
        SliceOfPrefix(was, before, readCursor, before);
      }
    }

    /** WriteInt: k bytes of n in the buffer's byte order. */
    method WriteNumber(n: nat, k: nat)
      requires Valid()
      modifies this`data, this`writeCursor, data
      ensures Valid() && data != null && writeCursor == old(writeCursor) + k
      ensures data == old(data) || fresh(data)
      ensures data[old(writeCursor)..writeCursor] == Number(n, k, big)
      ensures old(data) != null ==> data[..old(writeCursor)] == old(data[..writeCursor])
      ensures old(data) != null && writeCursor <= old(data).Length ==>
                data == old(data) && data[writeCursor..] == old(data[writeCursor + k..])
      ensures readCursor <= old(writeCursor) ==> Message() == old(Message()) + Number(n, k, big)
    {
      var out := InBufferOrder(n, k, big);
      Write(out);
    }

    /** WriteVarInt of a 64-bit number. */
    method WriteVarInt(n: nat)
      requires Valid() && n < Range(8)
      modifies this`data, this`writeCursor, data
      ensures Valid() && data != null && Significant(n) <= 8
      ensures data == old(data) || fresh(data)
      ensures writeCursor == old(writeCursor) + |VarInt(n, big)|
      ensures readCursor <= old(writeCursor) ==> Message() == old(Message()) + VarInt(n, big)
    {
      hide Significant, Number, Range;
      var size := CountBytes(n);
      var digits := InBufferOrder(n, size, big);
      Write([size] + digits);
    }

    /** Consumes a k-byte number, or raises the error and consumes nothing. */
    method ReadNumber(k: nat) returns (value: nat)
      requires Valid() && data != null
      modifies this`readCursor, this`lastError
      ensures var r := ReadNumberAt(Written(), End(), old(readCursor), k, big);
              && value == r.value && readCursor == r.pos
              && lastError == if r.error.NoError? then old(lastError) else r.error
    {
      if readCursor + k > End() {
        lastError := ReadOutOfBounds;
        return 0;
      }
      value := FromNumber(data[readCursor..readCursor + k], big);
      SliceOfPrefix(data[..], writeCursor, readCursor, readCursor + k);
      readCursor := readCursor + k;
    }

    /** Consumes a variable-length number of at most k bytes. */
    method ReadVarInt(k: nat) returns (value: nat)
      requires Valid() && data != null
      modifies this`readCursor, this`lastError
      ensures var r := ReadVarIntAt(Written(), End(), old(readCursor), k, big);
              && value == r.value && readCursor == r.pos
              && lastError == if r.error.NoError? then old(lastError) else r.error
    {
      if readCursor + 1 > End() {
        lastError := ReadOutOfBounds;
        return 0;
      }
      var size := data[readCursor];
      readCursor := readCursor + 1;
      if size > k {
        lastError := CorruptedFormat;
        return 0;
      }
      if readCursor + size > End() {
        lastError := ReadOutOfBounds;
        return 0;
      }
      value := FromNumber(data[readCursor..readCursor + size], big);
      SliceOfPrefix(data[..], writeCursor, readCursor, readCursor + size);
      readCursor := readCursor + size;
    }

    method GetAndClearLastError() returns (error: BufferError)
      modifies this`lastError
      ensures error == old(lastError) && lastError == NoError
    {
      error := lastError;
      lastError := NoError;
    }

    /** Fences reads off at a position of the buffer; zero takes the fence down. */
    method SetReadLimit(limit: nat)
      requires Valid()
      modifies this`readLimit
      ensures readLimit == if limit == 0 then NO_LIMIT else limit
      ensures Fenced(limit)
    {
      readLimit := if limit == 0 then NO_LIMIT else limit;
      if data != null && readCursor <= limit <= writeCursor {
        PrefixOfSlice(data[..], readCursor, limit, writeCursor);
      }
    }

    /** Leaves unwritten room in front of the payload of a fresh buffer. */
    method ReserveHeadroom(bytes: nat)
      requires Valid() && data == null
      modifies this`readCursor, this`writeCursor
      ensures Valid() && readCursor == writeCursor == bytes
    {
      readCursor := bytes;
      writeCursor := bytes;
    }

    /** Spends one byte of headroom, or reports that there is none and changes nothing. */
    method PrependInt8(value: byte) returns (ok: bool)
      requires Valid() && (data != null ==> readCursor <= data.Length)
      modifies this`readCursor, data
      ensures ok == (old(readCursor) > 0 && data != null)
      ensures Valid()
      ensures ok ==> readCursor == old(readCursor) - 1
                     && (old(readCursor) <= writeCursor ==> Message() == [value] + old(Message()))
                     && (old(readCursor) <= End() ==> Readable() == [value] + old(Readable()))
      ensures !ok ==> readCursor == old(readCursor) && (data != null ==> data[..] == old(data[..]))
    {
      if readCursor == 0 || data == null {
        return false;
      }
      ghost var was := data[..];
      readCursor := readCursor - 1;
      data[readCursor] := value;
      assert data[..] == was[readCursor := value];
      if readCursor < writeCursor {
        SliceWithFront(was, readCursor, writeCursor, value);
      }
      if readCursor < End() {
        SliceWithFront(was, readCursor, End(), value);
      }
      return true;
    }

    /** Slides the unread bytes to the front, so the consumed space can be written again. */
    method Compact()
      requires Valid() && data != null
      modifies this`readCursor, this`writeCursor, data
      ensures Valid() && readCursor == 0 && Message() == old(Message())
      ensures writeCursor == |Message()|
    {
      if readCursor == 0 {
        return;
      }
      var unread := if writeCursor > readCursor then writeCursor - readCursor else 0;
      SlideDown(data, readCursor, unread);
      readCursor := 0;
      writeCursor := unread;
    }
  }

  // n bytes from `from` on, moved to the front.
  method SlideDown(d: array<byte>, from: nat, n: nat)
    requires n > 0 ==> from + n <= d.Length
    modifies d
    ensures n <= d.Length && (n > 0 ==> d[0..n] == old(d[from..from + n]))
  {
    ghost var was := if n > 0 then d[from..from + n] else [];
    for i := 0 to n
      invariant forall k | 0 <= k < i :: d[k] == was[k]
      invariant forall k | i <= k < n :: d[from + k] == was[k]
    {
      d[i] := d[from + i];
    }
  }

  // The copy every writer ends in.
  method CopyInto(d: array<byte>, at: nat, bytes: seq<byte>)
    requires at + |bytes| <= d.Length
    modifies d
    ensures d[..] == old(d[..at]) + bytes + old(d[at + |bytes|..])
  {
    ghost var was := d[..];
    for i := 0 to |bytes|
      invariant d[..] == was[..at] + bytes[..i] + was[at + i..]
    {
      d[at + i] := bytes[i];
    }
    assert bytes[..|bytes|] == bytes;
  }

  // WriteNumber's loops: the host's little-endian bytes of n, straight or reversed.
  method InBufferOrder(n: nat, k: nat, big: bool) returns (out: seq<byte>)
    ensures out == Number(n, k, big)
  {
    var host := Little(n, k);
    out := [];
    for i := 0 to k
      invariant out == Number(n, k, big)[..i]
    {
      if big {
        LittleAt(n, k, k - 1 - i);
        BigAt(n, k, i);
        out := out + [host[k - 1 - i]];
      } else {
        out := out + [host[i]];
      }
    }
  }

  // WriteVarInt's first loop: the position of the last non-zero byte, plus one.
  method CountBytes(n: nat) returns (size: nat)
    requires n < Range(8)
    ensures size == Significant(n) && size <= 8
  {
    size := 0;
    var rest := n;
    for i := 0 to 8
      invariant rest == Shifted(n, i) && rest < Range(8 - i)
      invariant Significant(n) == if rest == 0 then size else i + Significant(rest)
      invariant size <= i
    {
      ShiftedMore(n, i);
      if rest % 256 != 0 {
        size := i + 1;
      }
      rest := rest / 256;
    }
  }
}
