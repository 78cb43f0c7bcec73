/**
 Anti-replay, as in section 3.4.3 of RFC 4303: the highest counter seen and a bitmap of the 64
 below it.
 */
module ReplayWindows {
  import opened Bits

  const WIDTH: nat := 64

  datatype Window = Window(seenAny: bool, highest: nat, bits: nat)

  const FRESH: Window := Window(false, 0, 0)

  // The counters a window may still judge: above the highest, or at most WIDTH below it and not
  // among those already taken.
  ghost predicate MayAccept(seen: set<nat>, highest: nat, counter: nat)
  {
    seen == {} || counter > highest || (highest - WIDTH <= counter && counter !in seen)
  }

  // Window w stands for the set of counters taken so far.
  ghost predicate Tracks(w: Window, seen: set<nat>)
  {
    && IsWord(w.bits)
    && (w.seenAny <==> seen != {})
    && (w.seenAny ==>
          && w.highest in seen
          && (forall c | c in seen :: c <= w.highest)
          && (forall k: nat | k < WIDTH :: BitRight(w, seen, k)))
  }

  // Bit k speaks for the counter k + 1 below the highest.
  ghost predicate BitRight(w: Window, seen: set<nat>, k: nat)
  {
    Bit(w.bits, k) <==> k + 1 <= w.highest && w.highest - k - 1 in seen
  }

  // Accept's bitmap when the highest moves up by `shift`.
  function ShiftedBits(bits: nat, shift: nat): nat
    requires shift > 0
  {
    if shift > WIDTH then 0
    else if shift == WIDTH then ShiftLeft(1, WIDTH - 1)
    else Or(ShiftLeft(bits, shift), ShiftLeft(1, shift - 1))
  }

  lemma ShiftedBit(bits: nat, shift: nat, k: nat)
    requires IsWord(bits) && shift > 0 && k < WIDTH
    ensures IsWord(ShiftedBits(bits, shift))
    ensures Bit(ShiftedBits(bits, shift), k) <==> k + 1 == shift || (k >= shift && Bit(bits, k - shift))
  {
    if shift > WIDTH {
      HighBitsClear(0, 0, k);
    } else {
      OneBit(shift - 1, k);
      if shift < WIDTH {
        ShiftLeftBit(bits, shift, k);
        OrBit(ShiftLeft(bits, shift), ShiftLeft(1, shift - 1), k);
        OrWord(ShiftLeft(bits, shift), ShiftLeft(1, shift - 1), 64);
      }
    }
  }

  datatype Verdict = Verdict(window: Window, ok: bool)

  function Accepted(w: Window, counter: nat): Verdict
  {
    if !w.seenAny then Verdict(Window(true, counter, 0), true)
    else if counter > w.highest then
      Verdict(Window(true, counter, ShiftedBits(w.bits, counter - w.highest)), true)
    else
      var back := w.highest - counter;
      if back == 0 || back > WIDTH || Bit(w.bits, back - 1) then Verdict(w, false)
      else Verdict(w.(bits := Or(w.bits, ShiftLeft(1, back - 1))), true)
  }

  class ReplayWindow {
    var highest: nat
    var window: nat
    var seenAny: bool
    ghost var seen: set<nat>  // the counters accepted so far

    ghost predicate Valid()
      reads this
    {
      Tracks(Value(), seen)
    }

    ghost function Value(): Window
      reads this
    {
      Window(seenAny, highest, window)
    }

    constructor ()
      ensures Valid() && Value() == FRESH && seen == {}
    {
      highest, window, seenAny, seen := 0, 0, false, {};
      new;
      assert Pow2(64) > 0;
    }

    /** True exactly for a counter the window may still judge and has not accepted before; which is
        then accepted. */
    method Accept(counter: nat) returns (ok: bool)
      requires Valid()
      modifies this
      ensures Valid() && seen == (if ok then old(seen) + {counter} else old(seen))
      ensures ok <==> MayAccept(old(seen), old(highest), counter)
      ensures Verdict(Value(), ok) == Accepted(old(Value()), counter)
    {
      AcceptsExactly(Value(), seen, counter);
      seen := if Accepted(Value(), counter).ok then seen + {counter} else seen;
      hide Tracks, MayAccept;
      if !seenAny {
        seenAny, highest, window := true, counter, 0;
        return true;
      }
      if counter > highest {
        var shift := counter - highest;
        if shift > WIDTH {
          window := 0;
        } else if shift == WIDTH {
          window := ShiftLeft(1, WIDTH - 1);
        } else {
          window := Or(ShiftLeft(window, shift), ShiftLeft(1, shift - 1));
        }
        highest := counter;
        return true;
      }
      var back := highest - counter;
      if back == 0 || back > WIDTH {
        return false;
      }
      if Bit(window, back - 1) {
        return false;
      }
      window := Or(window, ShiftLeft(1, back - 1));
      return true;
    }
  }

  lemma MovedUp(w: Window, seen: set<nat>, counter: nat)
    requires Tracks(w, seen) && w.seenAny && counter > w.highest
    ensures Tracks(Accepted(w, counter).window, seen + {counter})
  {
    var shift := counter - w.highest;
    var next := Accepted(w, counter).window;
    assert counter in seen + {counter};
    forall k: nat | k < WIDTH
      ensures BitRight(next, seen + {counter}, k)
    {
      ShiftedBit(w.bits, shift, k);
      if k >= shift {
        assert BitRight(w, seen, k - shift);
      }
    }
    ShiftedBit(w.bits, shift, 0);
  }

  lemma FilledIn(w: Window, seen: set<nat>, counter: nat)
    requires Tracks(w, seen) && w.seenAny && 0 < w.highest - counter <= WIDTH
    ensures Bit(w.bits, w.highest - counter - 1) <==> counter in seen
    ensures Tracks(w.(bits := Or(w.bits, ShiftLeft(1, w.highest - counter - 1))), seen + {counter})
  {
    var back := w.highest - counter;
    var mask := ShiftLeft(1, back - 1);
    var next := w.(bits := Or(w.bits, mask));
    assert BitRight(w, seen, back - 1);
    assert counter in seen + {counter};
    forall k: nat | k < WIDTH
      ensures BitRight(next, seen + {counter}, k)
    {
      OneBit(back - 1, k);
      OrBit(w.bits, mask, k);
      assert BitRight(w, seen, k);
    }
    OneBit(back - 1, 0);
    OrWord(w.bits, mask, 64);
  }

  // A counter is accepted exactly when the window may still judge it and it is new, and the window
  // goes on standing for what was accepted.
  lemma AcceptsExactly(w: Window, seen: set<nat>, counter: nat)
    requires Tracks(w, seen)
    ensures Accepted(w, counter).ok <==> MayAccept(seen, w.highest, counter)
    ensures Tracks(Accepted(w, counter).window, if Accepted(w, counter).ok then seen + {counter} else seen)
  {
    if w.seenAny {
      if counter > w.highest {
        MovedUp(w, seen, counter);
      } else if 0 < w.highest - counter <= WIDTH {
        FilledIn(w, seen, counter);
      }
    } else {
      var next := Accepted(w, counter).window;
      assert seen + {counter} == {counter};
      forall k: nat | k < WIDTH
        ensures BitRight(next, {counter}, k)
      {
        HighBitsClear(0, 0, k);
      }
    }
  }

  // Nothing is taken twice.
  lemma NeverTwice(w: Window, seen: set<nat>, counter: nat)
    requires Tracks(w, seen) && counter in seen
    ensures !Accepted(w, counter).ok
  {
    AcceptsExactly(w, seen, counter);
  }
}
