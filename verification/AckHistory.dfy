/**
 What a ZDT receiver remembers about which datagrams arrived, how it reports that, and what the
 sender concludes: the multiword bitmap, its run-length encoding, and the ack parser.
 */
module AckHistory {
  import opened Bits
  import opened Bytes

  const HISTORY_BITS: nat := 1024
  const HISTORY_WORDS: nat := 16
  const MAX_ACK_BLOCKS: nat := 24
  const PERIOD: nat := 0x1_0000

  // --- 16-bit sequence comparison ----------------------------------------------------------

  // A sequence number as it travels, truncated to 16 bits.
  function OnWire(x: int): (q: nat)
    ensures q < PERIOD
  {
    x % PERIOD
  }

  // static_cast<int16_t>(x)
  function Int16(x: int): int
  {
    (x + 0x8000) % PERIOD - 0x8000
  }

  predicate SeqGreater(a: int, b: int) { Int16(a - b) > 0 }

  predicate SeqLess(a: int, b: int) { Int16(a - b) < 0 }

  // The two casts of Record: the distance a 16-bit difference stands for.
  lemma DistanceOnWire(a: nat, b: nat)
    requires a < PERIOD && b < PERIOD
    ensures var d := Int16(a - b);
            && -0x8000 <= d < 0x8000 && (d == 0 <==> a == b)
            && (d > 0 ==> (a - b) % PERIOD == d) && (d < 0 ==> (b - a) % PERIOD == -d)
  {
  }

  // --- The bitmap and the history it stands for --------------------------------------------

  predicate IsBitmap(bits: seq<nat>)
  {
    |bits| == HISTORY_WORDS && forall w | 0 <= w < |bits| :: IsWord(bits[w])
  }

  predicate HistoryBit(bits: seq<nat>, b: nat)
    requires |bits| == HISTORY_WORDS && b < HISTORY_BITS
  {
    Bit(bits[b / 64], b % 64)
  }

  function Unpacked(bits: seq<nat>): (arrived: seq<bool>)
    requires |bits| == HISTORY_WORDS
    ensures |arrived| == HISTORY_BITS
  {
    seq(HISTORY_BITS, b requires 0 <= b < HISTORY_BITS => HistoryBit(bits, b))
  }

  // arrived[b] says that sequence number highest - b arrived; of those positions the first
  // validBits lie at or after the first number ever recorded.
  datatype History = History(hasAny: bool, highest: nat, validBits: nat, arrived: seq<bool>)

  predicate WellFormed(h: History)
  {
    && h.highest < PERIOD && |h.arrived| == HISTORY_BITS && h.validBits <= HISTORY_BITS
    && (h.hasAny ==> h.arrived[0] && 1 <= h.validBits)
  }

  // The history with every known number n places further back and the new ones unknown.
  function Older(arrived: seq<bool>, n: nat): (r: seq<bool>)
    requires |arrived| == HISTORY_BITS
  {
    seq(HISTORY_BITS, b requires 0 <= b < HISTORY_BITS => b >= n && arrived[b - n])
  }

  function Blank(): seq<bool>
  {
    seq(HISTORY_BITS, _ => false)
  }

  // A newer number arrived, `shift` ahead of the highest so far.
  function Advanced(h: History, packetSeq: nat, shift: nat): History
    requires WellFormed(h)
  {
    History(true, packetSeq, if h.validBits + shift > HISTORY_BITS then HISTORY_BITS else h.validBits + shift,
            Older(h.arrived, shift)[0 := true])
  }

  // An older number arrived, or the highest again.
  function OlderArrived(h: History, back: nat): History
    requires WellFormed(h)
  {
    if back < HISTORY_BITS then h.(arrived := h.arrived[back := true]) else h
  }

  function Recorded(h: History, packetSeq: nat): History
    requires WellFormed(h) && packetSeq < PERIOD
  {
    if !h.hasAny then History(true, packetSeq, 1, Blank()[0 := true])
    else
      var d := Int16(packetSeq - h.highest);
      if d > 0 then Advanced(h, packetSeq, d)
      else OlderArrived(h, -d)
  }

  // The three branches of Record after the first number; the last is a repeat of the highest.
  lemma RecordedBranches(h: History, packetSeq: nat)
    requires WellFormed(h) && h.hasAny && packetSeq < PERIOD
    ensures Recorded(h, packetSeq) ==
            if SeqGreater(packetSeq, h.highest) then Advanced(h, packetSeq, (packetSeq - h.highest) % PERIOD)
            else if SeqLess(packetSeq, h.highest) then OlderArrived(h, (h.highest - packetSeq) % PERIOD)
            else h
  {
    DistanceOnWire(packetSeq, h.highest);
    assert h.arrived[0 := true] == h.arrived;
  }

  // SetHistoryBit, in place.
  method SetHistoryBit(bits: array<nat>, b: nat)
    requires IsBitmap(bits[..]) && b < HISTORY_BITS
    modifies bits
    ensures IsBitmap(bits[..]) && Unpacked(bits[..]) == Unpacked(old(bits[..]))[b := true]
  {
    ghost var was := bits[..];
    var mask := ShiftLeft(1, b % 64);
    OneBit(b % 64, 0);
    OrWord(bits[b / 64], mask, 64);
    bits[b / 64] := Or(bits[b / 64], mask);
    forall c | 0 <= c < HISTORY_BITS
      ensures HistoryBit(bits[..], c) == (c == b || HistoryBit(was, c))
    {
      if c / 64 == b / 64 {
        OneBit(b % 64, c % 64);
        OrBit(was[c / 64], mask, c % 64);
      }
    }
  }

  method ClearHistory(bits: array<nat>)
    requires bits.Length == HISTORY_WORDS
    modifies bits
    ensures IsBitmap(bits[..]) && Unpacked(bits[..]) == Blank()
  {
    for i := 0 to bits.Length
      invariant forall k | 0 <= k < i :: bits[k] == 0
    {
      bits[i] := 0;
    }
    forall b | 0 <= b < HISTORY_BITS
      ensures !HistoryBit(bits[..], b)
    {
      HighBitsClear(0, 0, b % 64);
    }
  }

  // The value ShiftHistoryUp stores in word i.
  function ShiftedWord(bits: seq<nat>, i: nat, n: nat): nat
    requires i < |bits|
  {
    var words, rem := n / 64, n % 64;
    if i < words then 0
    else
      var v := ShiftLeft(bits[i - words], rem);
      if rem != 0 && i > words then Or(v, ShiftRight(bits[i - words - 1], 64 - rem)) else v
  }

  lemma ShiftedWordIsWord(bits: seq<nat>, i: nat, n: nat)
    requires IsBitmap(bits) && i < HISTORY_WORDS && n < HISTORY_BITS
    ensures IsWord(ShiftedWord(bits, i, n))
  {
    var words, rem := n / 64, n % 64;
    if i >= words {
      ShiftLeftBit(bits[i - words], rem, 0);
      if rem != 0 && i > words {
        ShiftRightBit(bits[i - words - 1], 64 - rem, 0);
        OrWord(ShiftLeft(bits[i - words], rem), ShiftRight(bits[i - words - 1], 64 - rem), 64);
      }
    }
  }

  lemma BitOfWord(bits: seq<nat>, w: nat, j: nat)
    requires |bits| == HISTORY_WORDS && w < HISTORY_WORDS && j < 64
    ensures HistoryBit(bits, 64 * w + j) == Bit(bits[w], j)
  {
  }

  // The carry between neighbouring words lands every bit exactly n places up.
  lemma ShiftedWordBit(bits: seq<nat>, i: nat, n: nat, j: nat)
    requires IsBitmap(bits) && i < HISTORY_WORDS && n < HISTORY_BITS && j < 64
    ensures Bit(ShiftedWord(bits, i, n), j) == (64 * i + j >= n && HistoryBit(bits, 64 * i + j - n))
  {
    hide Or, ShiftLeft, ShiftRight, Bit, IsWord, HistoryBit;
    var words, rem := n / 64, n % 64;
    if i < words {
      HighBitsClear(0, 0, j);
    } else {
      ShiftLeftBit(bits[i - words], rem, j);
      if j >= rem {
        BitOfWord(bits, i - words, j - rem);
      }
      if rem != 0 && i > words {
        CarryBit(bits, i - words, rem, j);
      }
    }
  }

  lemma CarryBit(bits: seq<nat>, w: nat, rem: nat, j: nat)
    requires IsBitmap(bits) && 0 < w < HISTORY_WORDS && 0 < rem < 64 && j < 64
    ensures Bit(Or(ShiftLeft(bits[w], rem), ShiftRight(bits[w - 1], 64 - rem)), j)
            == HistoryBit(bits, 64 * w + j - rem)
  {
    hide Or, ShiftLeft, ShiftRight, Bit, HistoryBit;
    var carry := bits[w - 1];
    ShiftLeftBit(bits[w], rem, j);
    ShiftRightBit(carry, 64 - rem, j);
    OrBit(ShiftLeft(bits[w], rem), ShiftRight(carry, 64 - rem), j);
    if j >= rem {
      HighBitsClear(carry, 64, j + 64 - rem);
      BitOfWord(bits, w, j - rem);
    } else {
      BitOfWord(bits, w - 1, j + 64 - rem);
    }
  }

  lemma ShiftedBitmap(was: seq<nat>, now: seq<nat>, n: nat)
    requires IsBitmap(was) && |now| == HISTORY_WORDS && n < HISTORY_BITS
    requires forall k | 0 <= k < HISTORY_WORDS :: now[k] == ShiftedWord(was, k, n)
    ensures IsBitmap(now) && Unpacked(now) == Older(Unpacked(was), n)
  {
    forall k | 0 <= k < HISTORY_WORDS
      ensures IsWord(now[k])
    {
      ShiftedWordIsWord(was, k, n);
    }
    forall b | 0 <= b < HISTORY_BITS
      ensures HistoryBit(now, b) == (b >= n && HistoryBit(was, b - n))
    {
      ShiftedWordBit(was, b / 64, n, b % 64);
    }
  }

  method ShiftHistoryUp(bits: array<nat>, n: nat)
    requires IsBitmap(bits[..])
    modifies bits
    ensures IsBitmap(bits[..]) && Unpacked(bits[..]) == Older(Unpacked(old(bits[..])), n)
  {
    if n >= HISTORY_BITS {
      ClearHistory(bits);
      return;
    }
    ghost var was := bits[..];
    var words, rem := n / 64, n % 64;
    var i := HISTORY_WORDS;
    while i > 0
      invariant 0 <= i <= HISTORY_WORDS
      invariant forall k | 0 <= k < i :: bits[k] == was[k]
      invariant forall k | i <= k < HISTORY_WORDS :: bits[k] == ShiftedWord(was, k, n)
    {
      i := i - 1;
      var v := 0;
      if i >= words {
        v := ShiftLeft(bits[i - words], rem);
        if rem != 0 && i > words {
          v := Or(v, ShiftRight(bits[i - words - 1], 64 - rem));
        }
      }
      bits[i] := v;
    }
    ShiftedBitmap(was, bits[..], n);
  }

  // --- Reporting ---------------------------------------------------------------------------

  // A run of arrived numbers and the run of missing ones just older.
  datatype Block = Block(acks: nat, nacks: nat)

  // How many leading entries equal `want`, never counting past what a byte holds.
  function Lead(bits: seq<bool>, want: bool, cap: nat): (n: nat)
    ensures n <= |bits| && n <= cap
    decreases |bits|
  {
    if bits == [] || cap == 0 || bits[0] != want then 0 else 1 + Lead(bits[1..], want, cap - 1)
  }

  function Repeat(n: nat, value: bool): seq<bool>
  {
    seq(n, _ => value)
  }

  lemma LeadMore(bits: seq<bool>, want: bool, cap: nat)
    requires bits != [] && cap > 0 && bits[0] == want
    ensures Lead(bits, want, cap) == 1 + Lead(bits[1..], want, cap - 1)
  {
  }

  lemma LeadDone(bits: seq<bool>, want: bool, cap: nat)
    requires bits == [] || cap == 0 || bits[0] != want
    ensures Lead(bits, want, cap) == 0
  {
  }

  lemma {:induction false} LeadIsRun(bits: seq<bool>, want: bool, cap: nat)
    ensures bits[..Lead(bits, want, cap)] == Repeat(Lead(bits, want, cap), want)
    decreases |bits|
  {
    if bits != [] && cap > 0 && bits[0] == want {
      LeadIsRun(bits[1..], want, cap - 1);
      var n := Lead(bits[1..], want, cap - 1);
      assert bits[..n + 1] == [want] + bits[1..][..n];
    }
  }

  // The whole history as blocks, however many it takes.
  function Encode(bits: seq<bool>): (blocks: seq<Block>)
    decreases |bits|
  {
    if bits == [] then []
    else
      var a := Lead(bits, true, 255);
      var n := Lead(bits[a..], false, 255);
      SomeRun(bits);
      [Block(a, n)] + Encode(bits[a + n..])
  }

  // What blocks say, newest number first.
  function Decode(blocks: seq<Block>): seq<bool>
  {
    if blocks == [] then []
    else Repeat(blocks[0].acks, true) + Repeat(blocks[0].nacks, false) + Decode(blocks[1..])
  }

  // Without the trailing blocks that report only missing packets.
  function Trim(blocks: seq<Block>): seq<Block>
  {
    if blocks == [] || blocks[|blocks| - 1].acks != 0 then blocks else Trim(blocks[..|blocks| - 1])
  }

  // The blocks of one acknowledgment: what fits of the encoding of everything inside the limit.
  function Report(h: History, maxBlocks: nat, cap: nat): seq<Block>
    requires WellFormed(h)
  {
    if !h.hasAny || maxBlocks == 0 then []
    else
      var blocks := Encode(h.arrived[..Min(h.validBits, cap)]);
      Trim(blocks[..Min(|blocks|, Min(maxBlocks, MAX_ACK_BLOCKS))])
  }

  class ZdtAckHistory {
    var highest: nat
    var bits: array<nat>
    var validBits: nat
    var hasAny: bool

    ghost predicate Valid()
      reads this, bits
    {
      IsBitmap(bits[..]) && WellFormed(Value())
    }

    ghost function Value(): History
      reads this, bits
      requires bits.Length == HISTORY_WORDS
    {
      History(hasAny, highest, validBits, Unpacked(bits[..]))
    }

    constructor ()
      ensures Valid() && fresh(bits) && Value() == History(false, 0, 0, Blank())
    {
      highest, validBits, hasAny := 0, 0, false;
      bits := new nat[HISTORY_WORDS];
      new;
      ClearHistory(bits);
    }

    method Record(packetSeq: nat)
      requires Valid() && packetSeq < PERIOD
      modifies this`highest, this`validBits, this`hasAny, bits
      ensures Valid() && Value() == Recorded(old(Value()), packetSeq)
    {
      hide Recorded, Advanced, OlderArrived, Unpacked;
      if !hasAny {
        Begin(packetSeq);
        return;
      }
      RecordedBranches(Value(), packetSeq);
      if SeqGreater(packetSeq, highest) {
        Advance(packetSeq, (packetSeq - highest) % PERIOD);
      } else if SeqLess(packetSeq, highest) {
        Late((highest - packetSeq) % PERIOD);
      }
    }

    // The branch of Record for a number older than the highest.
    method Late(back: nat)
      requires Valid() && hasAny
      modifies bits
      ensures Valid() && Value() == OlderArrived(old(Value()), back)
    {
      if back < HISTORY_BITS {
        SetHistoryBit(bits, back);
      }
    }

    // The branch of Record for the first number ever.
    method Begin(packetSeq: nat)
      requires Valid() && packetSeq < PERIOD && !hasAny
      modifies this`highest, this`validBits, this`hasAny, bits
      ensures Valid() && Value() == Recorded(old(Value()), packetSeq)
    {
      hasAny := true;
      highest := packetSeq;
      ClearHistory(bits);
      SetHistoryBit(bits, 0);
      validBits := 1;
    }

    // The branch of Record for a number newer than any before it.
    method Advance(packetSeq: nat, shift: nat)
      requires Valid() && packetSeq < PERIOD && hasAny
      modifies this`highest, this`validBits, bits
      ensures Valid() && Value() == Advanced(old(Value()), packetSeq, shift)
    {
      ShiftHistoryUp(bits, shift);
      highest := packetSeq;
      SetHistoryBit(bits, 0);
      validBits := validBits + shift;
      if validBits > HISTORY_BITS {
        validBits := HISTORY_BITS;
      }
    }

    /** Run-length encodes the history into the blocks of one header. */
    method Fill(maxBlocks: nat, reportableCap: nat) returns (ack: nat, blocks: seq<Block>)
      requires Valid()
      ensures ack == highest && blocks == Report(Value(), maxBlocks, reportableCap)
    {
      ack, blocks := highest, [];
      if !hasAny || maxBlocks == 0 {
        return;
      }
      var budget := if maxBlocks > MAX_ACK_BLOCKS then MAX_ACK_BLOCKS else maxBlocks;
      var limit := validBits;
      if limit > reportableCap {
        limit := reportableCap;
      }
      blocks := EncodeUpTo(bits[..], limit, budget);
      blocks := TrimTrailing(blocks);
    }
  }

  lemma LeadSlice(arrived: seq<bool>, lo: nat, hi: nat, want: bool, cap: nat)
    requires lo < hi <= |arrived| && arrived[lo] == want && cap > 0
    ensures Lead(arrived[lo..hi], want, cap) == 1 + Lead(arrived[lo + 1..hi], want, cap - 1)
  {
    assert arrived[lo..hi][1..] == arrived[lo + 1..hi];
    LeadMore(arrived[lo..hi], want, cap);
  }

  // Fill's inner loops: the run of arrived (or missing) numbers at b, capped at a byte.
  method RunAt(bits: seq<nat>, b: nat, limit: nat, want: bool) returns (n: nat)
    requires |bits| == HISTORY_WORDS && b <= limit <= HISTORY_BITS
    ensures n == Lead(Unpacked(bits)[b..limit], want, 255)
  {
    hide Lead, HistoryBit;
    ghost var arrived := Unpacked(bits);
    var at, room := b, 255;
    while at < limit && room > 0 && HistoryBit(bits, at) == want
      invariant b <= at <= limit && 0 <= room
      invariant Lead(arrived[b..limit], want, 255) == 255 - room + Lead(arrived[at..limit], want, room)
      decreases limit - at
    {
      LeadSlice(arrived, at, limit, want, room);
      at, room := at + 1, room - 1;
    }
    LeadDone(arrived[at..limit], want, room);
    n := 255 - room;
  }

  // Fill's outer loop.
  method EncodeUpTo(bits: seq<nat>, limit: nat, budget: nat) returns (blocks: seq<Block>)
    requires |bits| == HISTORY_WORDS && limit <= HISTORY_BITS
    ensures var all := Encode(Unpacked(bits)[..limit]); blocks == all[..Min(|all|, budget)]
  {
    hide Encode, Lead, Unpacked;
    blocks := [];
    ghost var arrived := Unpacked(bits);
    ghost var all := Encode(arrived[..limit]);
    var b := 0;
    assert arrived[0..limit] == arrived[..limit];
    while b < limit && |blocks| < budget
      invariant b <= limit && |blocks| <= budget
      invariant all == blocks + Encode(arrived[b..limit])
      decreases limit - b
    {
      var acks := RunAt(bits, b, limit, true);
      var nacks := RunAt(bits, b + acks, limit, false);
      EncodeStep(arrived, b, limit, acks, nacks);
      b := b + acks + nacks;
      Shunt(blocks, Block(acks, nacks), Encode(arrived[b..limit]));
      blocks := blocks + [Block(acks, nacks)];
    }
    EncodeNonEmpty(arrived[b..limit]);
    assert |blocks| == Min(|all|, budget);
  }

  lemma Shunt<T>(front: seq<T>, x: T, back: seq<T>)
    ensures front + ([x] + back) == front + [x] + back
  {
  }

  method TrimTrailing(all: seq<Block>) returns (blocks: seq<Block>)
    ensures blocks == Trim(all)
  {
    blocks := all;
    while |blocks| > 0 && blocks[|blocks| - 1].acks == 0
      invariant Trim(all) == Trim(blocks)
    {
      blocks := blocks[..|blocks| - 1];
    }
  }

  // A block always describes something, so the walk advances.
  lemma EncodeStep(arrived: seq<bool>, b: nat, limit: nat, acks: nat, nacks: nat)
    requires b < limit <= |arrived|
    requires acks == Lead(arrived[b..limit], true, 255)
    requires b + acks <= limit && nacks == Lead(arrived[b + acks..limit], false, 255)
    ensures acks + nacks > 0 && b + acks + nacks <= limit
    ensures Encode(arrived[b..limit]) == [Block(acks, nacks)] + Encode(arrived[b + acks + nacks..limit])
  {
    hide Encode, Lead;
    var rest := arrived[b..limit];
    assert rest[acks..] == arrived[b + acks..limit];
    EncodeUnfold(rest);
    assert rest[acks + nacks..] == arrived[b + acks + nacks..limit];
  }

  lemma EncodeUnfold(bits: seq<bool>)
    requires bits != []
    ensures var a := Lead(bits, true, 255);
            var n := Lead(bits[a..], false, 255);
            a + n > 0 && Encode(bits) == [Block(a, n)] + Encode(bits[a + n..])
  {
    hide Lead;
    SomeRun(bits);
  }

  lemma SomeRun(bits: seq<bool>)
    requires bits != []
    ensures var a := Lead(bits, true, 255); a + Lead(bits[a..], false, 255) > 0
  {
    if bits[0] {
      LeadMore(bits, true, 255);
    } else {
      LeadDone(bits, true, 255);
      assert bits[0..] == bits;
      LeadMore(bits, false, 255);
    }
  }

  lemma EncodeNonEmpty(bits: seq<bool>)
    ensures Encode(bits) == [] <==> bits == []
  {
  }

  // --- What a report means -----------------------------------------------------------------

  // Decoding the full encoding gives the history back, despite runs longer than a byte.
  lemma {:induction false} DecodeEncode(bits: seq<bool>)
    ensures Decode(Encode(bits)) == bits
    decreases |bits|
  {
    if bits != [] {
      var a := Lead(bits, true, 255);
      var n := Lead(bits[a..], false, 255);
      var rest := bits[a + n..];
      LeadIsRun(bits, true, 255);
      LeadIsRun(bits[a..], false, 255);
      assert bits[a..][..n] == bits[a..a + n];
      assert bits == bits[..a] + bits[a..a + n] + rest;
      SomeRun(bits);
      DecodeEncode(rest);
      assert Encode(bits)[1..] == Encode(rest);
    }
  }

  lemma {:induction false} DecodeConcat(x: seq<Block>, y: seq<Block>)
    ensures Decode(x + y) == Decode(x) + Decode(y)
  {
    if x == [] {
      assert x + y == y;
    } else {
      assert (x + y)[1..] == x[1..] + y;
      DecodeConcat(x[1..], y);
    }
  }

  // Trimming drops only missing packets.
  lemma {:induction false} TrimDropsOnlyMissing(blocks: seq<Block>)
    ensures Trim(blocks) <= blocks && Decode(Trim(blocks)) <= Decode(blocks)
    ensures forall k | |Decode(Trim(blocks))| <= k < |Decode(blocks)| :: !Decode(blocks)[k]
    ensures Trim(blocks) != [] ==> Trim(blocks)[|Trim(blocks)| - 1].acks > 0
    decreases |blocks|
  {
    if blocks != [] && blocks[|blocks| - 1].acks == 0 {
      var front, last := blocks[..|blocks| - 1], blocks[|blocks| - 1];
      assert blocks == front + [last];
      DecodeConcat(front, [last]);
      assert Decode([last]) == Repeat(last.nacks, false);
      TrimDropsOnlyMissing(front);
    }
  }

  lemma {:induction false} BlocksFitBytes(bits: seq<bool>)
    ensures forall k | 0 <= k < |Encode(bits)| :: Encode(bits)[k].acks <= 255 && Encode(bits)[k].nacks <= 255
    decreases |bits|
  {
    if bits != [] {
      var a := Lead(bits, true, 255);
      var n := Lead(bits[a..], false, 255);
      SomeRun(bits);
      BlocksFitBytes(bits[a + n..]);
    }
  }

  // What survives keeping only the first blocks of an encoding and trimming those.
  lemma KeptBlocks(inside: seq<bool>, kept: nat)
    requires kept <= |Encode(inside)|
    ensures var shown := Decode(Trim(Encode(inside)[..kept]));
            && shown <= inside
            && (kept == |Encode(inside)| ==> forall b | |shown| <= b < |inside| :: !inside[b])
  {
    var all := Encode(inside);
    DecodeEncode(inside);
    assert all == all[..kept] + all[kept..];
    DecodeConcat(all[..kept], all[kept..]);
    TrimDropsOnlyMissing(all[..kept]);
    if kept == |all| {
      assert all[..kept] == all;
    }
  }

  // A report is a prefix of the history, so nothing missing is ever reported as arrived; and it
  // reaches every arrived number inside the limit whenever the blocks did not run out.
  lemma ReportIsSoundAndComplete(h: History, maxBlocks: nat, cap: nat)
    requires WellFormed(h)
    ensures var shown := Decode(Report(h, maxBlocks, cap));
            var inside := h.arrived[..Min(h.validBits, cap)];
            && shown <= inside
            && (h.hasAny && |Encode(inside)| <= Min(maxBlocks, MAX_ACK_BLOCKS) ==>
                  forall b | |shown| <= b < |inside| :: !inside[b])
  {
    var inside := h.arrived[..Min(h.validBits, cap)];
    KeptBlocks(inside, Min(|Encode(inside)|, Min(maxBlocks, MAX_ACK_BLOCKS)));
  }

  // A report fits its header: at most the blocks asked for, each count in one byte.
  lemma ReportFitsHeader(h: History, maxBlocks: nat, cap: nat)
    requires WellFormed(h)
    ensures var blocks := Report(h, maxBlocks, cap);
            && |blocks| <= Min(maxBlocks, MAX_ACK_BLOCKS)
            && (forall k | 0 <= k < |blocks| :: blocks[k].acks <= 255 && blocks[k].nacks <= 255)
            && (blocks != [] ==> blocks[|blocks| - 1].acks > 0)
  {
    var inside := h.arrived[..Min(h.validBits, cap)];
    var all := Encode(inside);
    BlocksFitBytes(inside);
    TrimDropsOnlyMissing(all[..Min(|all|, Min(maxBlocks, MAX_ACK_BLOCKS))]);
  }

  // --- The sender's side -------------------------------------------------------------------

  // The wire sequence numbers at the offsets whose entry equals `want`, newest first.
  function Marked(ack: nat, shown: seq<bool>, want: bool): (r: seq<nat>)
    decreases |shown|
  {
    if shown == [] then []
    else
      var n := |shown| - 1;
      Marked(ack, shown[..n], want) + (if shown[n] == want then [OnWire(ack - n)] else [])
  }

  lemma {:induction false} MarkedOffset(ack: nat, shown: seq<bool>, want: bool, q: nat) returns (b: nat)
    requires q in Marked(ack, shown, want)
    ensures b < |shown| && shown[b] == want && q == OnWire(ack - b)
    decreases |shown|
  {
    var n := |shown| - 1;
    if q in Marked(ack, shown[..n], want) {
      b := MarkedOffset(ack, shown[..n], want, q);
    } else {
      b := n;
    }
  }

  lemma {:induction false} OffsetMarked(ack: nat, shown: seq<bool>, want: bool, b: nat)
    requires b < |shown| && shown[b] == want
    ensures OnWire(ack - b) in Marked(ack, shown, want)
    decreases |shown|
  {
    var n := |shown| - 1;
    if b < n {
      OffsetMarked(ack, shown[..n], want, b);
    }
  }

  lemma MarkedSnoc(ack: nat, shown: seq<bool>, entry: bool, want: bool)
    ensures Marked(ack, shown + [entry], want)
            == Marked(ack, shown, want) + (if entry == want then [OnWire(ack - |shown|)] else [])
  {
    assert (shown + [entry])[..|shown|] == shown;
  }

  // One run of a block, as the parser walks it.
  method WalkRun(ack: nat, offset: nat, n: nat, ghost shown: seq<bool>, want: bool) returns (marks: seq<nat>, end: nat)
    requires |shown| == offset
    ensures end == offset + n
    ensures Marked(ack, shown, want) + marks == Marked(ack, shown + Repeat(n, want), want)
    ensures Marked(ack, shown, !want) == Marked(ack, shown + Repeat(n, want), !want)
  {
    marks, end := [], offset;
    ghost var walked := shown;
    ghost var was, other := Marked(ack, shown, want), Marked(ack, shown, !want);
    for k := 0 to n
      invariant end == offset + k == |walked| && walked == shown + Repeat(k, want)
      invariant Marked(ack, walked, want) == was + marks && Marked(ack, walked, !want) == other
    {
      MarkedSnoc(ack, walked, want, want);
      MarkedSnoc(ack, walked, want, !want);
      walked := walked + [want];
      marks := marks + [OnWire(ack - end)];
      end := end + 1;
    }
  }

  // How many blocks are read, given that the first b are: up to where they cover the history.
  function Heard(blocks: seq<Block>, b: nat): (n: nat)
    requires b <= |blocks|
    ensures b <= n <= |blocks|
    decreases |blocks| - b
  {
    if b < |blocks| && |Decode(blocks[..b])| < HISTORY_BITS then Heard(blocks, b + 1) else b
  }

  /** Which of the sender's packets a header acknowledges and which it reports missing. A block
      that would start past the history is not read. */
  method ProcessAcks(ack: nat, blocks: seq<Block>) returns (acked: seq<nat>, missing: seq<nat>)
    ensures acked == Marked(ack, Decode(blocks[..Heard(blocks, 0)]), true)
    ensures missing == Marked(ack, Decode(blocks[..Heard(blocks, 0)]), false)
  {
    acked, missing := [], [];
    var offset := 0;
    var b := 0;
    while b < |blocks| && offset < HISTORY_BITS
      invariant b <= |blocks| && offset == |Decode(blocks[..b])|
      invariant acked == Marked(ack, Decode(blocks[..b]), true)
      invariant missing == Marked(ack, Decode(blocks[..b]), false)
      invariant Heard(blocks, 0) == Heard(blocks, b)
    {
      ghost var shown := Decode(blocks[..b]);
      ghost var withAcks := shown + Repeat(blocks[b].acks, true);
      assert Decode(blocks[..b + 1]) == withAcks + Repeat(blocks[b].nacks, false) by {
        assert blocks[..b + 1] == blocks[..b] + [blocks[b]];
        DecodeConcat(blocks[..b], [blocks[b]]);
        assert Decode([blocks[b]]) == Repeat(blocks[b].acks, true) + Repeat(blocks[b].nacks, false);
      }
      var marks;
      marks, offset := WalkRun(ack, offset, blocks[b].acks, shown, true);
      acked := acked + marks;
      marks, offset := WalkRun(ack, offset, blocks[b].nacks, withAcks, false);
      missing := missing + marks;
      b := b + 1;
    }
  }

  // --- Runs over true sequence numbers -----------------------------------------------------

  function Highest(numbers: seq<nat>): (m: nat)
    requires numbers != []
    ensures m in numbers && forall x | x in numbers :: x <= m
  {
    var n := |numbers| - 1;
    assert numbers == numbers[..n] + [numbers[n]];
    if n == 0 then numbers[0]
    else
      var m := Highest(numbers[..n]);
      if numbers[n] > m then numbers[n] else m
  }

  // Each number stays within half the sequence space of the highest before it.
  predicate WithinReach(numbers: seq<nat>)
  {
    forall k | 1 <= k < |numbers| :: Reaches(numbers, k)
  }

  predicate Reaches(numbers: seq<nat>, k: nat)
    requires 1 <= k < |numbers|
  {
    -0x8000 <= numbers[k] - Highest(numbers[..k]) < 0x8000
  }

  function AfterAll(numbers: seq<nat>): (h: History)
    ensures WellFormed(h) && (h.hasAny <==> numbers != [])
    decreases |numbers|
  {
    if numbers == [] then History(false, 0, 0, Blank())
    else
      var n := |numbers| - 1;
      var h := AfterAll(numbers[..n]);
      DistanceOnWire(OnWire(numbers[n]), h.highest);
      Recorded(h, OnWire(numbers[n]))
  }

  // The history as a statement about true numbers: bit b is set iff highest - b arrived, and the
  // valid part reaches back to the first number recorded.
  predicate Faithful(h: History, numbers: seq<nat>)
    requires numbers != []
  {
    var top := Highest(numbers);
    && h.highest == OnWire(top)
    && Refines(h.arrived, top, numbers)
    && numbers[0] in numbers && h.validBits == Min(HISTORY_BITS, top - numbers[0] + 1)
  }

  // The bitmap is the received set, through any order, duplication and 16-bit wraparound.
  lemma {:induction false} BitmapIsReceivedSet(numbers: seq<nat>)
    requires numbers != [] && WithinReach(numbers)
    ensures Faithful(AfterAll(numbers), numbers)
    decreases |numbers|
  {
    var n := |numbers| - 1;
    var front, x := numbers[..n], numbers[n];
    assert numbers == front + [x];
    AfterAllSnoc(front, x);
    if n == 0 {
      FirstNumber(x);
      assert front == [];
    } else {
      ReachOfFront(numbers);
      BitmapIsReceivedSet(front);
      RecordStep(AfterAll(front), front, x);
    }
  }

  lemma AfterAllSnoc(front: seq<nat>, x: nat)
    ensures AfterAll(front + [x]) == Recorded(AfterAll(front), OnWire(x))
  {
    assert (front + [x])[..|front|] == front;
  }

  lemma FirstNumber(x: nat)
    ensures Faithful(Recorded(AfterAll([]), OnWire(x)), [x])
  {
  }

  lemma HighestSnoc(front: seq<nat>, x: nat)
    requires front != []
    ensures Highest(front + [x]) == if x > Highest(front) then x else Highest(front)
  {
    assert (front + [x])[..|front|] == front;
  }

  lemma WireBack(top: nat, b: nat)
    ensures OnWire(OnWire(top) - b) == OnWire(top - b)
  {
    var q := top / PERIOD;
    assert OnWire(top) == top - PERIOD * q;
    var r := (top - b) / PERIOD;
    assert OnWire(top) - b == PERIOD * (r - q) + OnWire(top - b);
  }

  lemma ReachOfFront(numbers: seq<nat>)
    requires |numbers| > 1 && WithinReach(numbers)
    ensures WithinReach(numbers[..|numbers| - 1])
    ensures -0x8000 <= numbers[|numbers| - 1] - Highest(numbers[..|numbers| - 1]) < 0x8000
  {
    var front := numbers[..|numbers| - 1];
    assert Reaches(numbers, |numbers| - 1);
    forall k | 1 <= k < |front|
      ensures Reaches(front, k)
    {
      assert Reaches(numbers, k);
      assert numbers[k] == front[k] && numbers[..k] == front[..k];
    }
  }

  // Within half the sequence space the 16-bit difference is the true one.
  lemma WireDistance(x: nat, top: nat)
    requires -0x8000 <= x - top < 0x8000
    ensures Int16(OnWire(x) - OnWire(top)) == x - top
  {
    var p, q := x / PERIOD, top / PERIOD;
    assert OnWire(x) - OnWire(top) == x - top - PERIOD * (p - q);
    assert -2 < p - q < 2;
  }

  predicate Refines(arrived: seq<bool>, top: nat, numbers: seq<nat>)
  {
    |arrived| == HISTORY_BITS && forall b: nat | b < HISTORY_BITS :: arrived[b] <==> top - b in numbers
  }

  lemma NewerKeepsRefinement(arrived: seq<bool>, front: seq<nat>, x: nat)
    requires front != [] && Refines(arrived, Highest(front), front) && x > Highest(front)
    ensures Refines(Older(arrived, x - Highest(front))[0 := true], x, front + [x])
  {
    var top := Highest(front);
    var now := Older(arrived, x - top)[0 := true];
    forall b: nat | b < HISTORY_BITS
      ensures now[b] <==> x - b in front + [x]
    {
      if b >= x - top {
        assert arrived[b - (x - top)] <==> x - b in front;
      }
    }
  }

  lemma LateKeepsRefinement(arrived: seq<bool>, front: seq<nat>, x: nat)
    requires front != [] && Refines(arrived, Highest(front), front) && x <= Highest(front)
    ensures var back := Highest(front) - x;
            Refines(if back < HISTORY_BITS then arrived[back := true] else arrived, Highest(front), front + [x])
  {
  }

  lemma RecordStep(h: History, front: seq<nat>, x: nat)
    requires front != [] && WellFormed(h) && h.hasAny && -0x8000 <= x - Highest(front) < 0x8000
    requires Faithful(h, front)
    ensures Faithful(Recorded(h, OnWire(x)), front + [x])
  {
    var top := Highest(front);
    var h' := Recorded(h, OnWire(x));
    WireDistance(x, top);
    HighestSnoc(front, x);
    assert (front + [x])[0] == front[0];
    if x > top {
      assert h' == Advanced(h, OnWire(x), x - top);
      assert Refines(h'.arrived, x, front + [x]) by { NewerKeepsRefinement(h.arrived, front, x); }
    } else {
      var back := top - x;
      assert h'.arrived == if back < HISTORY_BITS then h.arrived[back := true] else h.arrived;
      LateKeepsRefinement(h.arrived, front, x);
    }
  }

  // --- End to end --------------------------------------------------------------------------

  // No block of an encoding is empty, so each one read moves on.
  lemma {:induction false} BlocksDescribe(bits: seq<bool>)
    ensures forall k | 0 <= k < |Encode(bits)| :: 0 < Encode(bits)[k].acks + Encode(bits)[k].nacks
    decreases |bits|
  {
    if bits != [] {
      var a := Lead(bits, true, 255);
      var n := Lead(bits[a..], false, 255);
      SomeRun(bits);
      BlocksDescribe(bits[a + n..]);
    }
  }

  lemma DecodeGrows(blocks: seq<Block>, b: nat)
    requires b < |blocks| && 0 < blocks[b].acks + blocks[b].nacks
    ensures |Decode(blocks[..b])| < |Decode(blocks)|
  {
    assert blocks == blocks[..b] + blocks[b..];
    DecodeConcat(blocks[..b], blocks[b..]);
  }

  // The sender reads every block of a report.
  lemma {:induction false} AllHeard(blocks: seq<Block>, b: nat)
    requires b <= |blocks| && |Decode(blocks)| <= HISTORY_BITS
    requires forall k | 0 <= k < |blocks| :: 0 < blocks[k].acks + blocks[k].nacks
    ensures Heard(blocks, b) == |blocks|
    decreases |blocks| - b
  {
    if b < |blocks| {
      DecodeGrows(blocks, b);
      AllHeard(blocks, b + 1);
    }
  }

  lemma ReportIsHeard(h: History, maxBlocks: nat, cap: nat)
    requires WellFormed(h)
    ensures var blocks := Report(h, maxBlocks, cap); Heard(blocks, 0) == |blocks|
  {
    var blocks := Report(h, maxBlocks, cap);
    ReportIsSoundAndComplete(h, maxBlocks, cap);
    var all := Encode(h.arrived[..Min(h.validBits, cap)]);
    BlocksDescribe(h.arrived[..Min(h.validBits, cap)]);
    TrimDropsOnlyMissing(all[..Min(|all|, Min(maxBlocks, MAX_ACK_BLOCKS))]);
    assert blocks <= all;
    AllHeard(blocks, 0);
  }

  // What ProcessAcks reads out of a report, by distance from the highest.
  function Learned(h: History, maxBlocks: nat, cap: nat): seq<bool>
    requires WellFormed(h)
  {
    var blocks := Report(h, maxBlocks, cap);
    Decode(blocks[..Heard(blocks, 0)])
  }

  // Read against the numbers that arrived: each position says whether that very number arrived, what
  // is retired arrived, what is resent did not.
  ghost predicate Truthful(h: History, numbers: seq<nat>, shown: seq<bool>)
    requires numbers != []
  {
    && |shown| <= HISTORY_BITS && h.highest == OnWire(Highest(numbers))
    && (forall b | 0 <= b < |shown| :: shown[b] <==> Highest(numbers) - b in numbers)
    && (forall q | q in Marked(h.highest, shown, true) :: Told(numbers, q, true))
    && (forall q | q in Marked(h.highest, shown, false) :: Told(numbers, q, false))
  }

  /** Whatever arrived in whatever order, and whatever the report's budget, what ProcessAcks reads out
      of a report is the truth. */
  lemma SenderLearnsOnlyTheTruth(numbers: seq<nat>, maxBlocks: nat, cap: nat)
    requires numbers != [] && WithinReach(numbers)
    ensures Truthful(AfterAll(numbers), numbers, Learned(AfterAll(numbers), maxBlocks, cap))
  {
    BitmapIsReceivedSet(numbers);
    hide Truthful, AfterAll, Learned, Faithful, WithinReach;
    LearnedIsHistory(AfterAll(numbers), maxBlocks, cap);
    TruthOf(AfterAll(numbers), numbers, Learned(AfterAll(numbers), maxBlocks, cap));
  }

  lemma TruthOf(h: History, numbers: seq<nat>, shown: seq<bool>)
    requires WellFormed(h) && h.hasAny && numbers != [] && Faithful(h, numbers)
    requires shown <= h.arrived && |shown| <= h.validBits
    ensures Truthful(h, numbers, shown)
  {
    hide Marked, OnWire, Told;
    forall q | q in Marked(h.highest, shown, true)
      ensures Told(numbers, q, true)
    {
      var x := AckedArrived(h, numbers, shown, q);
      TellsOf(numbers, q, x);
    }
    forall q | q in Marked(h.highest, shown, false)
      ensures Told(numbers, q, false)
    {
      var x := NackedMissing(h, numbers, shown, q);
      TellsOf(numbers, q, x);
    }
  }

  lemma TellsOf(numbers: seq<nat>, q: nat, x: nat)
    requires numbers != [] && Highest(numbers) - HISTORY_BITS < x <= Highest(numbers) && q == OnWire(x)
    ensures Told(numbers, q, x in numbers)
  {
  }

  lemma LearnedIsHistory(h: History, maxBlocks: nat, cap: nat)
    requires WellFormed(h)
    ensures var shown := Learned(h, maxBlocks, cap); shown <= h.arrived && |shown| <= h.validBits
  {
    ReportIsHeard(h, maxBlocks, cap);
    ReportIsSoundAndComplete(h, maxBlocks, cap);
    hide Report, Decode, Heard;
    var blocks := Report(h, maxBlocks, cap);
    assert blocks[..|blocks|] == blocks;
  }

  // q stands for a number at most a history behind the highest which did, or did not, arrive. No two
  // numbers that close share a wire form.
  predicate Told(numbers: seq<nat>, q: nat, arrived: bool)
    requires numbers != []
  {
    exists x: nat :: Highest(numbers) - HISTORY_BITS < x <= Highest(numbers) && q == OnWire(x) && ((x in numbers) == arrived)
  }

  lemma AckedArrived(h: History, numbers: seq<nat>, shown: seq<bool>, q: nat) returns (x: nat)
    requires numbers != [] && Faithful(h, numbers) && shown <= h.arrived && q in Marked(h.highest, shown, true)
    ensures Highest(numbers) - HISTORY_BITS < x <= Highest(numbers) && x in numbers && q == OnWire(x)
  {
    var b := MarkedOffset(h.highest, shown, true, q);
    WireBack(Highest(numbers), b);
    assert h.arrived[b];
    x := Highest(numbers) - b;
  }

  lemma NackedMissing(h: History, numbers: seq<nat>, shown: seq<bool>, q: nat) returns (x: nat)
    requires numbers != [] && Faithful(h, numbers) && |h.arrived| > 0 && h.arrived[0]
    requires shown <= h.arrived && |shown| <= h.validBits && q in Marked(h.highest, shown, false)
    ensures q == OnWire(x) && x !in numbers && numbers[0] < x < Highest(numbers)
    ensures Highest(numbers) - HISTORY_BITS < x
  {
    var b := MarkedOffset(h.highest, shown, false, q);
    WireBack(Highest(numbers), b);
    assert !h.arrived[b] && 0 < b;
    x := Highest(numbers) - b;
  }
}
