/**
 The ring's position arithmetic: how many slots it allocates, which slot a position names,
 and why comparing two machine words tells a free slot from a full ring.
 */
module RingPositions {

  // A size_t holds 64 bits; all word arithmetic below is modulo WORD.
  const WORD: nat := 0x1_0000_0000_0000_0000
  const HALF: nat := 0x8000_0000_0000_0000
  // The largest distance still read as "ahead": max(size_t) >> 1.
  const BEHIND: nat := HALF - 1

  predicate PowerOfTwo(n: nat)
  {
    n == 1 || (n > 1 && n % 2 == 0 && PowerOfTwo(n / 2))
  }

  // What Push() concludes from one look at a slot.
  datatype Verdict = Claim | Full | Retry

  // The conclusion on unbounded positions: the slot is free for `pos`, still holds the
  // previous lap, or was already taken by a faster producer.
  function PositionVerdict(seqno: int, pos: int): Verdict
  {
    if seqno == pos then Claim else if seqno < pos then Full else Retry
  }

  // The conclusion the code draws from the wrapped words alone.
  function WordVerdict(seqno: nat, pos: nat): Verdict
    requires seqno < WORD && pos < WORD
  {
    var distance := (seqno - pos) % WORD;
    if distance == 0 then Claim else if distance > BEHIND then Full else Retry
  }

  // Exactly when the word test may be trusted; and what that comes to for positions less than a
  // whole word apart.
  lemma WordVerdictExact(seqno: nat, pos: nat)
    ensures WordVerdict(seqno % WORD, pos % WORD) == PositionVerdict(seqno, pos)
            <==> || seqno == pos
                 || (seqno < pos && (seqno - pos) % WORD >= HALF)
                 || (seqno > pos && 0 < (seqno - pos) % WORD < HALF)
    ensures seqno < pos + WORD && pos < seqno + WORD ==>
              (WordVerdict(seqno % WORD, pos % WORD) == PositionVerdict(seqno, pos)
               <==> pos <= seqno + HALF && seqno < pos + HALF)
  {
    WrappedDifference(seqno, pos);
  }

  // For a slot at most half a word behind.
  lemma NearVerdict(seqno: nat, pos: nat)
    requires pos <= seqno + HALF
    ensures WordVerdict(seqno % WORD, pos % WORD) == PositionVerdict(seqno, pos)
            <==> seqno <= pos || 0 < (seqno - pos) % WORD < HALF
  {
    WordVerdictExact(seqno, pos);
    hide WordVerdict, PositionVerdict;
    if seqno < pos {
      WrapsUp(pos - seqno);
    }
  }

  lemma WrapsUp(d: nat)
    requires 0 < d < WORD
    ensures (0 - d) % WORD == WORD - d
  {
  }

  lemma WrappedDifference(a: nat, b: nat)
    ensures (a % WORD - b % WORD) % WORD == (a - b) % WORD
  {
    var qa, qb := a / WORD, b / WORD;
    assert a - b == WORD * (qa - qb) + (a % WORD - b % WORD);
  }

  lemma {:induction false} MulStep(n: int, a: int, b: int)
    requires 0 < n && a < b
    ensures n * a + n <= n * b
    decreases b - a
  {
    assert n * (b - 1) == n * b - n;
    if a + 1 < b {
      MulStep(n, a, b - 1);
    }
  }

  lemma UniqueDivision(n: int, q: int, r: int, q': int, r': int)
    requires 0 <= r < n && 0 <= r' < n && n * q + r == n * q' + r'
    ensures q == q' && r == r'
  {
    if q < q' { MulStep(n, q, q'); }
    if q' < q { MulStep(n, q', q); }
  }

  lemma ModUnique(x: nat, n: nat, q: nat, r: nat)
    requires r < n && x == n * q + r
    ensures x % n == r
  {
    UniqueDivision(n, q, r, x / n, x % n);
  }

  lemma SmallRemainder(x: nat, n: nat)
    requires x < n
    ensures x % n == x
  {
    ModUnique(x, n, 0, x);
  }

  // The slot a position names, lap by lap; `pos & mask_` once positions are words (WordSlot).
  function Slot(pos: nat, n: nat): (k: nat)
    requires 0 < n
    ensures k < n
  {
    if pos < n then pos else Slot(pos - n, n)
  }

  // Two positions less than a lap apart never share a slot.
  lemma {:induction false} SlotsDiffer(p: nat, q: nat, n: nat)
    requires p < q < p + n
    ensures Slot(p, n) != Slot(q, n)
  {
    if n <= p {
      SlotsDiffer(p - n, q - n, n);
    }
  }

  lemma {:induction false} SlotIsRemainder(p: nat, n: nat)
    requires 0 < n
    ensures Slot(p, n) == p % n
  {
    if n <= p {
      SlotIsRemainder(p - n, n);
      ModUnique(p, n, (p - n) / n + 1, (p - n) % n);
    }
  }

  lemma {:induction false} PowerOfTwoDivides(n: nat, m: nat)
    requires PowerOfTwo(n) && PowerOfTwo(m) && n <= m
    ensures m % n == 0
  {
    if n > 1 {
      PowerOfTwoDivides(n / 2, m / 2);
      var k := (m / 2) / (n / 2);
      assert m / 2 == (n / 2) * k;
      assert m == n * k;
      ModUnique(m, n, k, 0);
    }
  }

  // Wrapping a position to a word does not change its slot.
  lemma WordSlot(p: nat, n: nat)
    requires PowerOfTwo(n) && n <= HALF
    ensures (p % WORD) % n == Slot(p, n)
  {
    HalfIsPowerOfTwo();
    PowerOfTwoDivides(n, HALF);
    SlotOfWord(p, n, HALF / n);
    SlotIsRemainder(p, n);
  }

  lemma SlotOfWord(p: nat, n: nat, k: nat)
    requires 0 < n && HALF == n * k
    ensures (p % WORD) % n == p % n
  {
    var q, r := p / WORD, p % WORD;
    var a, b := r / n, r % n;
    assert r == n * a + b;
    assert WORD * q == n * (2 * k * q) by {
      assert 2 * (n * k) * q == n * (2 * k * q);
    }
    assert p == n * (2 * k * q + a) + b by {
      assert n * (2 * k * q + a) == n * (2 * k * q) + n * a;
    }
    ModUnique(p, n, 2 * k * q + a, b);
  }

  lemma HalfIsPowerOfTwo()
    ensures PowerOfTwo(HALF)
  {
    assert PowerOfTwo(1);
    hide PowerOfTwo;
    Doubled(1);
    Doubled(0x100);
    Doubled(0x1_0000);
    Doubled(0x100_0000);
    Doubled(0x1_0000_0000);
    Doubled(0x100_0000_0000);
    Doubled(0x1_0000_0000_0000);
    Doubled(0x100_0000_0000_0000);
  }

  lemma Doubled(n: nat)
    requires PowerOfTwo(n)
    ensures PowerOfTwo(n * 0x80) && PowerOfTwo(n * 0x100)
  {
    hide PowerOfTwo;
    Twice(n);
    Twice(n * 2);
    Twice(n * 4);
    Twice(n * 8);
    Twice(n * 0x10);
    Twice(n * 0x20);
    Twice(n * 0x40);
    Twice(n * 0x80);
  }

  lemma Twice(n: nat)
    requires PowerOfTwo(n)
    ensures PowerOfTwo(n * 2)
  {
  }

  /** The slot count: the smallest power of two, at least two, that holds `value`, and never
      more than half of what a size_t counts. */
  method RoundUpPowerOfTwo(value: nat) returns (slots: nat)
    requires value < WORD
    ensures PowerOfTwo(slots) && 2 <= slots <= HALF
    ensures value <= HALF ==> value <= slots
    ensures slots == 2 || slots / 2 < value
  {
    HalfIsPowerOfTwo();
    slots := 2;
    while slots < value && slots < HALF
      invariant PowerOfTwo(slots) && 2 <= slots <= HALF
      invariant slots == 2 || slots / 2 < value
      decreases HALF - slots
    {
      PowerOfTwoDivides(slots, HALF);
      assert HALF == slots * (HALF / slots);
      assert HALF / slots >= 2;
      slots := 2 * slots;
    }
  }
}
