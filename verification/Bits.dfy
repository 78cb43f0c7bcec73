/**
 uint64_t as the number it is: what a shift, an or and a bit test do to a 64-bit word.
 */
module Bits {

  function Pow2(n: nat): (p: nat)
    ensures p > 0
  {
    if n == 0 then 1 else 2 * Pow2(n - 1)
  }

  predicate IsWord(w: nat)
  {
    w < Pow2(64)
  }

  // (w >> k) & 1
  predicate Bit(w: nat, k: nat)
    decreases k
  {
    if k == 0 then w % 2 == 1 else Bit(w / 2, k - 1)
  }

  // w << 1 with the top bit falling off.
  function Double(w: nat): nat
  {
    (2 * w) % Pow2(64)
  }

  // w << s
  function ShiftLeft(w: nat, s: nat): nat
    decreases s
  {
    if s == 0 then w else ShiftLeft(Double(w), s - 1)
  }

  // w >> s
  function ShiftRight(w: nat, s: nat): nat
    decreases s
  {
    if s == 0 then w else ShiftRight(w / 2, s - 1)
  }

  function Or(a: nat, b: nat): nat
    decreases a + b
  {
    if a + b == 0 then 0
    else 2 * Or(a / 2, b / 2) + (if a % 2 == 1 || b % 2 == 1 then 1 else 0)
  }

  lemma {:induction false} HighBitsClear(w: nat, n: nat, k: nat)
    requires w < Pow2(n) && n <= k
    ensures !Bit(w, k)
    decreases k
  {
    if n > 0 {
      HighBitsClear(w / 2, n - 1, k - 1);
    } else if k > 0 {
      HighBitsClear(0, 0, k - 1);
    }
  }

  lemma {:induction false} TopBitOff(w: nat, n: nat, j: nat)
    requires Pow2(n) <= w && j < n
    ensures Bit(w - Pow2(n), j) == Bit(w, j)
    decreases j
  {
    if j > 0 {
      TopBitOff(w / 2, n - 1, j - 1);
    }
  }

  lemma OneWrap(x: nat, m: nat)
    requires x < 2 * m
    ensures x % m == if x < m then x else x - m
  {
    if m <= x {
      assert (x - m) % m == x - m;
      assert x / m == 1;
    }
  }

  // Doubling within n + 1 bits.
  lemma DoubledBit(w: nat, n: nat, j: nat)
    requires w < 2 * Pow2(n) && j <= n
    ensures (2 * w) % (2 * Pow2(n)) < 2 * Pow2(n)
    ensures Bit((2 * w) % (2 * Pow2(n)), j) == (j > 0 && Bit(w, j - 1))
  {
    hide Pow2;
    OneWrap(2 * w, 2 * Pow2(n));
    var x := if w < Pow2(n) then w else w - Pow2(n);
    assert (2 * w) % (2 * Pow2(n)) == 2 * x;
    assert (2 * x) / 2 == x && (2 * x) % 2 == 0;
    if j > 0 && Pow2(n) <= w {
      TopBitOff(w, n, j - 1);
    }
  }

  lemma DoubleBit(w: nat, j: nat)
    requires IsWord(w) && j < 64
    ensures IsWord(Double(w)) && Bit(Double(w), j) == (j > 0 && Bit(w, j - 1))
  {
    assert Pow2(64) == 2 * Pow2(63);
    hide Pow2, Bit;
    DoubledBit(w, 63, j);
  }

  lemma {:induction false} ShiftLeftBit(w: nat, s: nat, j: nat)
    requires IsWord(w) && j < 64
    ensures IsWord(ShiftLeft(w, s)) && Bit(ShiftLeft(w, s), j) == (j >= s && Bit(w, j - s))
    decreases s
  {
    if s > 0 {
      DoubleBit(w, if j >= s then j - s + 1 else 0);
      ShiftLeftBit(Double(w), s - 1, j);
    }
  }

  lemma {:induction false} ShiftRightBit(w: nat, s: nat, j: nat)
    ensures ShiftRight(w, s) <= w && Bit(ShiftRight(w, s), j) == Bit(w, j + s)
    decreases s
  {
    if s > 0 {
      ShiftRightBit(w / 2, s - 1, j);
    }
  }

  lemma OrHalves(a: nat, b: nat)
    ensures Or(a, b) / 2 == Or(a / 2, b / 2) && (Or(a, b) % 2 == 1 <==> a % 2 == 1 || b % 2 == 1)
  {
    var rest := Or(a / 2, b / 2);
    assert Or(a, b) == 2 * rest || Or(a, b) == 2 * rest + 1;
  }

  lemma {:induction false} OrBit(a: nat, b: nat, j: nat)
    ensures Bit(Or(a, b), j) == (Bit(a, j) || Bit(b, j))
    decreases j
  {
    hide Or;
    OrHalves(a, b);
    if j > 0 {
      OrBit(a / 2, b / 2, j - 1);
    }
  }

  lemma {:induction false} OrWord(a: nat, b: nat, n: nat)
    requires a < Pow2(n) && b < Pow2(n)
    ensures Or(a, b) < Pow2(n)
    decreases n
  {
    if n > 0 && a + b > 0 {
      OrWord(a / 2, b / 2, n - 1);
    }
  }

  // The mask `1 << k`.
  lemma OneBit(k: nat, j: nat)
    requires k < 64 && j < 64
    ensures IsWord(ShiftLeft(1, k)) && Bit(ShiftLeft(1, k), j) == (j == k)
  {
    ShiftLeftBit(1, k, j);
    if j > k { HighBitsClear(0, 0, j - k - 1); }
  }
}
