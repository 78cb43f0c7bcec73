/**
 Candidate addresses on the rendezvous wire: a count, then per candidate a type byte, the address
 and, for a relayed one, the relay's token. Reading past the end yields zeros without moving on and
 sets the buffer's error flag, as everywhere in the buffer.
 */
module Candidates {
  import opened Buffers
  import opened Bytes
  import opened Options

  const MAX_CANDIDATES: nat := 32

  datatype Kind = Host | Reflexive | Relayed

  // A valid address. Unix paths carry no port and do not travel.
  datatype Address = V4(host: seq<byte>, port: nat) | V6(host: seq<byte>, port: nat) | UnixPath(path: seq<byte>)

  datatype Candidate = Candidate(kind: Kind, address: Address, token: nat)

  predicate IsIp(a: Address)
  {
    match a
    case V4(host, port) => |host| == 4 && port < 0x10000
    case V6(host, port) => |host| == 16 && port < 0x10000
    case UnixPath(_) => false
  }

  // What the wire can carry without loss.
  predicate Travels(c: Candidate)
  {
    && IsIp(c.address) && c.address.port != 0
    && (if c.kind.Relayed? then c.token < Range(8) else c.token == 0)
  }

  function KindByte(k: Kind): byte
  {
    match k case Host => 0 case Reflexive => 1 case Relayed => 2
  }

  function AddressBytes(a: Address): seq<byte>
  {
    match a
    case V4(host, port) => [4] + host + Big(port, 2)
    case V6(host, port) => [6] + host + Big(port, 2)
    case UnixPath(_) => [0]
  }

  function CandidateBytes(c: Candidate): seq<byte>
  {
    [KindByte(c.kind)] + AddressBytes(c.address) + TokenBytes(c)
  }

  function TokenBytes(c: Candidate): seq<byte>
  {
    if c.kind.Relayed? then Little(c.token, 8) else []
  }

  function AllBytes(cs: seq<Candidate>): seq<byte>
  {
    if cs == [] then [] else CandidateBytes(cs[0]) + AllBytes(cs[1..])
  }

  function Kept(cs: seq<Candidate>): (kept: seq<Candidate>)
    ensures |kept| <= MAX_CANDIDATES
  {
    if |cs| > MAX_CANDIDATES then cs[..MAX_CANDIDATES] else cs
  }

  function ListBytes(cs: seq<Candidate>): seq<byte>
  {
    [|Kept(cs)|] + AllBytes(Kept(cs))
  }

  // --- Reading -----------------------------------------------------------------------------

  datatype Got<+T> = Got(value: T, pos: nat)

  function Zeros(k: nat): seq<byte> { seq(k, _ => 0) }

  // k raw bytes, or zeros and no movement when they are not all there.
  function RawAt(data: seq<byte>, pos: nat, k: nat): (g: Got<seq<byte>>)
    ensures |g.value| == k && g.pos >= pos
  {
    if pos + k <= |data| then Got(data[pos..pos + k], pos + k) else Got(Zeros(k), pos)
  }

  function AddressAt(data: seq<byte>, pos: nat): (g: Got<Option<Address>>)
    ensures g.value.Some? ==> !g.value.value.UnixPath?
  {
    var version := RawAt(data, pos, 1);
    var size := if version.value[0] == 4 then 4 else 16;
    var host := RawAt(data, version.pos, size);
    var port := RawAt(data, host.pos, 2);
    if version.value[0] == 4 then Got(Some(V4(host.value, FromBig(port.value))), port.pos)
    else if version.value[0] == 6 then Got(Some(V6(host.value, FromBig(port.value))), port.pos)
    else Got(None, version.pos)
  }

  function KindOf(b: byte): Option<Kind>
  {
    if b == 0 then Some(Host) else if b == 1 then Some(Reflexive) else if b == 2 then Some(Kind.Relayed) else None
  }

  function CandidateAt(data: seq<byte>, pos: nat): Got<Option<Candidate>>
  {
    var raw := RawAt(data, pos, 1);
    var kind := KindOf(raw.value[0]);
    if kind.None? then Got(None, raw.pos)
    else
      var address := AddressAt(data, raw.pos);
      if address.value.None? || address.value.value.port == 0 then Got(None, address.pos)
      else if !kind.value.Relayed? then Got(Some(Candidate(kind.value, address.value.value, 0)), address.pos)
      else
        var token := RawAt(data, address.pos, 8);
        Got(Some(Candidate(kind.value, address.value.value, FromLittle(token.value))), token.pos)
  }

  // The next `count` candidates after those in hand; None when one is refused.
  function ManyAt(data: seq<byte>, pos: nat, count: nat, before: seq<Candidate>): Option<seq<Candidate>>
    decreases count
  {
    if count == 0 then Some(before)
    else
      var next := CandidateAt(data, pos);
      if next.value.None? then None
      else ManyAt(data, next.pos, count - 1, before + [next.value.value])
  }

  function ListAt(data: seq<byte>, pos: nat): Option<seq<Candidate>>
  {
    var count := RawAt(data, pos, 1);
    if count.value[0] > MAX_CANDIDATES then None else ManyAt(data, count.pos, count.value[0], [])
  }

  lemma CandidateTravels(data: seq<byte>, pos: nat)
    ensures CandidateAt(data, pos).value.Some? ==> Travels(CandidateAt(data, pos).value.value)
  {
    hide FromBig, FromLittle;
    assert Range(2) == 0x10000;
  }

  lemma {:induction false} ManyTravel(data: seq<byte>, pos: nat, count: nat, before: seq<Candidate>)
    requires forall c | c in before :: Travels(c)
    ensures var cs := ManyAt(data, pos, count, before);
            cs.Some? ==> |cs.value| == |before| + count && forall c | c in cs.value :: Travels(c)
    decreases count
  {
    if count > 0 {
      hide CandidateAt, Travels;
      CandidateTravels(data, pos);
      var next := CandidateAt(data, pos);
      if next.value.Some? {
        ManyTravel(data, next.pos, count - 1, before + [next.value.value]);
      }
    }
  }

  /** Whatever bytes arrive, what is read as a list is one the wire can carry: at most 32 candidates of known
      kinds, with IP addresses and non-zero ports. */
  lemma OnlyCarriableIsRead(data: seq<byte>, pos: nat)
    ensures var cs := ListAt(data, pos);
            cs.Some? ==> |cs.value| <= MAX_CANDIDATES && forall c | c in cs.value :: Travels(c)
  {
    hide ManyAt, Travels;
    var count := RawAt(data, pos, 1);
    ManyTravel(data, count.pos, count.value[0], []);
  }

  // --- On a buffer -------------------------------------------------------------------------

  method WriteCandidates(buffer: Buffer, cs: seq<Candidate>)
    requires buffer.Valid() && !buffer.big && buffer.readCursor <= buffer.writeCursor
    modifies buffer`data, buffer`writeCursor, buffer.data
    ensures buffer.Valid() && buffer.data != null && buffer.readCursor <= buffer.writeCursor
    ensures buffer.Message() == old(buffer.Message()) + ListBytes(cs)
  {
    hide ListBytes;
    var out := Listed(cs);
    buffer.Write(out);
  }

  // WriteCandidates' loop.
  method Listed(cs: seq<Candidate>) returns (out: seq<byte>)
    ensures out == ListBytes(cs)
  {
    hide CandidateBytes;
    var count := if |cs| > MAX_CANDIDATES then MAX_CANDIDATES else |cs|;
    out := [count];
    for i := 0 to count
      invariant out == [count] + AllBytes(cs[..i])
    {
      assert cs[..i + 1] == cs[..i] + [cs[i]];
      AllBytesSnoc(cs[..i], cs[i]);
      var next := EncodeOne(cs[i]);
      out := out + next;
    }
    assert cs[..count] == Kept(cs);
  }

  // One turn of it.
  method EncodeOne(c: Candidate) returns (out: seq<byte>)
    ensures out == CandidateBytes(c)
  {
    out := [KindByte(c.kind)];
    out := out + AddressBytes(c.address);
    if c.kind.Relayed? {
      out := out + Little(c.token, 8);
    }
  }

  lemma CandidateParts(c: Candidate)
    ensures CandidateBytes(c) == [KindByte(c.kind)] + (AddressBytes(c.address) + TokenBytes(c))
  {
    hide AddressBytes, TokenBytes, KindByte;
    Regroup([KindByte(c.kind)], AddressBytes(c.address), TokenBytes(c));
  }

  lemma Regroup(a: seq<byte>, b: seq<byte>, c: seq<byte>)
    ensures a + b + c == a + (b + c)
  {
  }

  lemma {:induction false} AllBytesSnoc(cs: seq<Candidate>, c: Candidate)
    ensures AllBytes(cs + [c]) == AllBytes(cs) + CandidateBytes(c)
    decreases |cs|
  {
    hide CandidateBytes;
    if cs == [] {
      assert AllBytes([]) == [];
      assert [c][1..] == [];
      assert cs + [c] == [c];
    } else {
      AllBytesSnoc(cs[1..], c);
      assert (cs + [c])[1..] == cs[1..] + [c];
    }
  }

  // Read(arr, k): the bytes, or zeros and the error flag.
  method ReadRaw(buffer: Buffer, k: nat) returns (bytes: seq<byte>)
    requires buffer.Valid() && buffer.data != null && buffer.writeCursor <= buffer.readLimit
    modifies buffer`readCursor, buffer`lastError
    ensures Got(bytes, buffer.readCursor) == RawAt(buffer.Written(), old(buffer.readCursor), k)
  {
    if buffer.readCursor + k > buffer.End() {
      buffer.lastError := ReadOutOfBounds;
      return Zeros(k);
    }
    bytes := buffer.data[buffer.readCursor..buffer.readCursor + k];
    assert bytes == buffer.Written()[buffer.readCursor..buffer.readCursor + k];
    buffer.readCursor := buffer.readCursor + k;
  }

  method ReadInetAddress(buffer: Buffer) returns (address: Option<Address>)
    requires buffer.Valid() && buffer.data != null && buffer.writeCursor <= buffer.readLimit
    modifies buffer`readCursor, buffer`lastError
    ensures Got(address, buffer.readCursor) == AddressAt(buffer.Written(), old(buffer.readCursor))
  {
    hide RawAt;
    var version := ReadRaw(buffer, 1);
    if version[0] == 4 {
      var host := ReadRaw(buffer, 4);
      var port := ReadRaw(buffer, 2);
      return Some(V4(host, FromBig(port)));
    }
    if version[0] == 6 {
      var host := ReadRaw(buffer, 16);
      var port := ReadRaw(buffer, 2);
      return Some(V6(host, FromBig(port)));
    }
    buffer.lastError := CorruptedFormat;
    return None;
  }

  method ReadCandidate(buffer: Buffer) returns (c: Option<Candidate>)
    requires buffer.Valid() && buffer.data != null && buffer.writeCursor <= buffer.readLimit
    modifies buffer`readCursor, buffer`lastError
    ensures Got(c, buffer.readCursor) == CandidateAt(buffer.Written(), old(buffer.readCursor))
  {
    hide RawAt, AddressAt;
    var raw := ReadRaw(buffer, 1);
    if raw[0] > 2 {
      return None;
    }
    var kind := KindOf(raw[0]).value;
    var address := ReadInetAddress(buffer);
    if address.None? || address.value.port == 0 {
      return None;
    }
    var token := 0;
    if kind.Relayed? {
      var digits := ReadRaw(buffer, 8);
      token := FromLittle(digits);
    }
    return Some(Candidate(kind, address.value, token));
  }

  method ReadCandidates(buffer: Buffer) returns (out: Option<seq<Candidate>>)
    requires buffer.Valid() && buffer.data != null && buffer.writeCursor <= buffer.readLimit
    modifies buffer`readCursor, buffer`lastError
    ensures out == ListAt(buffer.Written(), old(buffer.readCursor))
  {
    hide CandidateAt, RawAt;
    var first := ReadRaw(buffer, 1);
    var count := first[0];
    if count > MAX_CANDIDATES {
      return None;
    }
    var got: seq<Candidate> := [];
    for i := 0 to count
      invariant buffer.Written() == old(buffer.Written()) && buffer.data == old(buffer.data)
      invariant ListAt(buffer.Written(), old(buffer.readCursor))
                == ManyAt(buffer.Written(), buffer.readCursor, count - i, got)
    {
      var c := ReadCandidate(buffer);
      if c.None? {
        return None;
      }
      got := got + [c.value];
    }
    return Some(got);
  }

  // --- There and back ----------------------------------------------------------------------

  // x stands in data at pos.
  predicate Has(data: seq<byte>, pos: nat, x: seq<byte>)
  {
    pos + |x| <= |data| && data[pos..pos + |x|] == x
  }

  lemma HasParts(data: seq<byte>, pos: nat, x: seq<byte>, y: seq<byte>)
    requires Has(data, pos, x + y)
    ensures Has(data, pos, x) && Has(data, pos + |x|, y)
  {
    var all := data[pos..pos + |x + y|];
    assert data[pos..pos + |x|] == all[..|x|] == x;
    assert data[pos + |x|..pos + |x| + |y|] == all[|x|..] == y;
  }

  lemma RawReads(data: seq<byte>, pos: nat, x: seq<byte>)
    requires Has(data, pos, x)
    ensures RawAt(data, pos, |x|) == Got(x, pos + |x|)
  {
  }

  lemma AddressReads(data: seq<byte>, pos: nat, a: Address)
    requires IsIp(a) && Has(data, pos, AddressBytes(a))
    ensures AddressAt(data, pos) == Got(Some(a), pos + |AddressBytes(a)|)
  {
    var version: byte := if a.V4? then 4 else 6;
    var port := Big(a.port, 2);
    assert AddressBytes(a) == [version] + (a.host + port);
    HasParts(data, pos, [version], a.host + port);
    HasParts(data, pos + 1, a.host, port);
    RawReads(data, pos, [version]);
    RawReads(data, pos + 1, a.host);
    RawReads(data, pos + 1 + |a.host|, port);
    assert a.port < Range(2);
    BigRoundTrip(a.port, 2);
    hide RawAt, Big, FromBig;
  }

  lemma CandidateReads(data: seq<byte>, pos: nat, c: Candidate)
    requires Travels(c) && Has(data, pos, CandidateBytes(c))
    ensures CandidateAt(data, pos) == Got(Some(c), pos + |CandidateBytes(c)|)
  {
    hide RawAt, AddressAt, AddressBytes, Little, FromLittle, Has, Range;
    CandidateParts(c);
    var kind, address, token := KindByte(c.kind), AddressBytes(c.address), TokenBytes(c);
    HasParts(data, pos, [kind], address + token);
    HasParts(data, pos + 1, address, token);
    RawReads(data, pos, [kind]);
    AddressReads(data, pos + 1, c.address);
    if c.kind.Relayed? {
      RawReads(data, pos + 1 + |address|, token);
      LittleRoundTrip(c.token, 8);
    }
  }

  lemma ManyUnfold(data: seq<byte>, pos: nat, count: nat, before: seq<Candidate>)
    ensures count == 0 ==> ManyAt(data, pos, count, before) == Some(before)
    ensures var next := CandidateAt(data, pos);
            count > 0 && next.value.Some? ==>
              ManyAt(data, pos, count, before) == ManyAt(data, next.pos, count - 1, before + [next.value.value])
  {
    hide CandidateAt;
  }

  lemma {:induction false} ManyRead(data: seq<byte>, pos: nat, cs: seq<Candidate>, before: seq<Candidate>)
    requires (forall c | c in cs :: Travels(c)) && Has(data, pos, AllBytes(cs))
    ensures ManyAt(data, pos, |cs|, before) == Some(before + cs)
    decreases |cs|
  {
    hide CandidateBytes, CandidateAt, Travels, Has, ManyAt;
    ManyUnfold(data, pos, |cs|, before);
    if cs == [] {
      assert before + cs == before;
    } else {
      HasParts(data, pos, CandidateBytes(cs[0]), AllBytes(cs[1..]));
      CandidateReads(data, pos, cs[0]);
      ManyRead(data, pos + |CandidateBytes(cs[0])|, cs[1..], before + [cs[0]]);
      assert before + [cs[0]] + cs[1..] == before + cs;
    }
  }

  /** A list of at most 32 candidates with IP addresses and non-zero ports reads back as written,
      wherever in a packet it lies. */
  lemma ListReadsBack(data: seq<byte>, pos: nat, cs: seq<Candidate>)
    requires |cs| <= MAX_CANDIDATES && (forall c | c in cs :: Travels(c)) && Has(data, pos, ListBytes(cs))
    ensures ListAt(data, pos) == Some(cs)
  {
    hide AllBytes, ManyAt;
    HasParts(data, pos, [|cs|], AllBytes(cs));
    RawReads(data, pos, [|cs|]);
    ManyRead(data, pos + 1, cs, []);
    assert [] + cs == cs;
  }
}
