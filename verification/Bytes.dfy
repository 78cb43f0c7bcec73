/**
 Byte strings, and fixed-width numbers laid out in them in either byte order.
 */
module Bytes {

  type byte = b: int | 0 <= b < 256

  function Min(a: nat, b: nat): nat { if a < b then a else b }

  // 256 ^ k
  function Range(k: nat): (r: nat)
    ensures r > 0
  {
    if k == 0 then 1 else 256 * Range(k - 1)
  }

  // n >> (8 * j)
  function Shifted(n: nat, j: nat): nat
    decreases j
  {
    if j == 0 then n else Shifted(n / 256, j - 1)
  }

  // The low k bytes of n, least significant first.
  function Little(n: nat, k: nat): (s: seq<byte>)
    ensures |s| == k
    decreases k
  {
    if k == 0 then [] else [n % 256] + Little(n / 256, k - 1)
  }

  function FromLittle(s: seq<byte>): (n: nat)
    ensures n < Range(|s|)
  {
    if s == [] then 0 else s[0] + 256 * FromLittle(s[1..])
  }

  // The low k bytes of n, most significant first.
  function Big(n: nat, k: nat): (s: seq<byte>)
    ensures |s| == k
    decreases k
  {
    if k == 0 then [] else Big(n / 256, k - 1) + [n % 256]
  }

  function FromBig(s: seq<byte>): (n: nat)
    ensures n < Range(|s|)
  {
    if s == [] then 0 else 256 * FromBig(s[..|s| - 1]) + s[|s| - 1]
  }

  lemma {:induction false} LittleRoundTrip(n: nat, k: nat)
    requires n < Range(k)
    ensures FromLittle(Little(n, k)) == n
    decreases k
  {
    if k > 0 {
      LittleRoundTrip(n / 256, k - 1);
      assert Little(n, k)[1..] == Little(n / 256, k - 1);
    }
  }

  lemma {:induction false} BigRoundTrip(n: nat, k: nat)
    requires n < Range(k)
    ensures FromBig(Big(n, k)) == n
    decreases k
  {
    if k > 0 {
      BigRoundTrip(n / 256, k - 1);
      assert Big(n, k)[..k - 1] == Big(n / 256, k - 1);
    }
  }

  lemma {:induction false} LittleAt(n: nat, k: nat, i: nat)
    requires i < k
    ensures Little(n, k)[i] == Shifted(n, i) % 256
    decreases i
  {
    if i > 0 {
      LittleAt(n / 256, k - 1, i - 1);
    }
  }

  // Shifting one byte more is dividing once more.
  lemma {:induction false} ShiftedMore(n: nat, j: nat)
    ensures Shifted(n, j + 1) == Shifted(n, j) / 256
    decreases j
  {
    if j > 0 {
      ShiftedMore(n / 256, j - 1);
    }
  }

  lemma {:induction false} BigAt(n: nat, k: nat, i: nat)
    requires i < k
    ensures Big(n, k)[i] == Shifted(n, k - 1 - i) % 256
    decreases k
  {
    if i < k - 1 {
      BigAt(n / 256, k - 1, i);
    }
  }

  // --- Slices ------------------------------------------------------------------------------

  lemma SlicesJoin<T>(s: seq<T>, i: nat, j: nat, k: nat)
    requires i <= j <= k <= |s|
    ensures s[i..k] == s[i..j] + s[j..k]
  {
  }

  lemma SliceOfPrefix<T>(s: seq<T>, n: nat, i: nat, j: nat)
    requires i <= j <= n <= |s|
    ensures s[..n][i..j] == s[i..j]
  {
  }

  lemma PrefixOfSlice<T>(s: seq<T>, i: nat, j: nat, k: nat)
    requires i <= j <= k <= |s|
    ensures s[i..k][..j - i] == s[i..j]
  {
  }

  lemma SliceOfSlice<T>(s: seq<T>, i: nat, k: nat, a: nat, b: nat)
    requires i <= k <= |s| && a <= b <= k - i
    ensures s[i..k][a..b] == s[i + a..i + b] && s[i..k][b..] == s[i + b..k]
  {
    var t := s[i..k];
    assert forall j | 0 <= j < |t| :: t[j] == s[i + j];
  }

  // s with x written over its middle.
  lemma Spliced<T>(s: seq<T>, x: seq<T>, at: nat, t: seq<T>)
    requires at + |x| <= |s| && t == s[..at] + x + s[at + |x|..]
    ensures |t| == |s| && t[..at] == s[..at] && t[at..at + |x|] == x && t[at + |x|..] == s[at + |x|..]
  {
  }

  // s with one element put in front of a slice of it.
  lemma SliceWithFront<T>(s: seq<T>, i: nat, j: nat, v: T)
    requires i < j <= |s|
    ensures s[i := v][i..j] == [v] + s[i + 1..j]
  {
  }
}
