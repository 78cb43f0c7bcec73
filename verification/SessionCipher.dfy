/**
 The encryption envelope of a session that knows its keys: per-stream send counters, nonces made of
 salt, stream and counter as in section 8.2.1 of NIST SP 800-38D, and a replay window per stream.
 AES-GCM is a pair of functions given from outside.
 */
module SessionCipher {
  import Bits
  import opened Bytes
  import opened Options
  import opened ReplayWindows

  const COUNTER_LEN: nat := 7
  const TAG_LEN: nat := 16
  const MAX_COUNTER: nat := 0xFF_FFFF_FFFF_FFFF
  const MODE_PLAINTEXT: byte := 0
  const MODE_AES_GCM: byte := 2
  const MAX_MESSAGE: nat := 0x7FFF_FFFF

  type Bin = seq<byte>

  // Key, nonce, associated data and text; sealed text carries its tag. Either call may fail.
  datatype Aead = Aead(seal: (Bin, Bin, Bin, Bin) -> Option<Bin>, open: (Bin, Bin, Bin, Bin) -> Option<Bin>)

  ghost predicate Lawful(a: Aead)
  {
    forall key, nonce, aad, plain :: a.seal(key, nonce, aad, plain).Some? ==>
      var sealed := a.seal(key, nonce, aad, plain).value;
      |sealed| == |plain| + TAG_LEN && a.open(key, nonce, aad, sealed) == Some(plain)
  }

  function Nonce(salt: Bin, stream: byte, counter: nat): Bin
  {
    salt + [stream] + Big(counter, COUNTER_LEN)
  }

  function GcmEnvelope(stream: byte, counter: nat, sealed: Bin): Bin
  {
    [MODE_AES_GCM] + ([stream] + Big(counter, COUNTER_LEN)) + sealed
  }

  // std::vector::resize up to one past `last`, when it is shorter.
  function Padded<T>(s: seq<T>, last: nat, x: T): (r: seq<T>)
    ensures last < |r| && s <= r
  {
    if last < |s| then s else s + seq(last + 1 - |s|, _ => x)
  }

  datatype Tx = Tx(enabled: bool, key: Bin, salt: Bin, counters: seq<nat>)
  datatype Rx = Rx(filled: bool, key: Bin, salt: Bin, windows: seq<Window>)

  datatype Out = Out(wire: Option<Bin>, tx: Tx)
  datatype In = In(plain: Option<Bin>, rx: Rx)

  function Sealed(a: Aead, tx: Tx, m: Bin, stream: byte): Out
  {
    if |m| > MAX_MESSAGE then Out(None, tx)
    else if !tx.enabled then Out(Some([MODE_PLAINTEXT] + m), tx)
    else
      var counters := Padded(tx.counters, stream, 0);
      var counter := counters[stream];
      if counter == MAX_COUNTER then Out(None, tx.(counters := counters))
      else
        var next := tx.(counters := counters[stream := counter + 1]);
        match a.seal(tx.key, Nonce(tx.salt, stream, counter), [MODE_AES_GCM], m)
        case None => Out(None, next)
        case Some(sealed) => Out(Some(GcmEnvelope(stream, counter, sealed)), next)
  }

  function Opened(a: Aead, rx: Rx, bytes: Bin): In
  {
    var mode := if bytes == [] then 0 else bytes[0];
    var rest := if bytes == [] then [] else bytes[1..];
    if mode == MODE_PLAINTEXT then In(if rx.filled then None else Some(rest), rx)
    else if mode != MODE_AES_GCM || !rx.filled || |rest| < 1 + COUNTER_LEN + TAG_LEN then In(None, rx)
    else
      var stream, counter := rest[0], FromBig(rest[1..1 + COUNTER_LEN]);
      match a.open(rx.key, Nonce(rx.salt, stream, counter), [MODE_AES_GCM], rest[1 + COUNTER_LEN..])
      case None => In(None, rx)
      case Some(plain) =>
        var windows := Padded(rx.windows, stream, FRESH);
        var v := Accepted(windows[stream], counter);
        In(if v.ok then Some(plain) else None, rx.(windows := windows[stream := v.window]))
  }

  // What opening makes of an encrypted message, by its parts.
  lemma OpenedParts(a: Aead, rx: Rx, rest: Bin)
    requires rx.filled && |rest| >= 1 + COUNTER_LEN + TAG_LEN
    ensures var stream, counter := rest[0], FromBig(rest[1..1 + COUNTER_LEN]);
            var plain := a.open(rx.key, Nonce(rx.salt, stream, counter), [MODE_AES_GCM], rest[1 + COUNTER_LEN..]);
            var windows := Padded(rx.windows, stream, FRESH);
            var v := Accepted(windows[stream], counter);
            Opened(a, rx, [MODE_AES_GCM] + rest)
            == if plain.None? then In(None, rx)
               else In(if v.ok then plain else None, rx.(windows := windows[stream := v.window]))
  {
    hide Accepted, Nonce, FromBig;
    assert ([MODE_AES_GCM] + rest)[1..] == rest;
  }

  // --- Nonces never repeat -----------------------------------------------------------------

  lemma CountersDiffer(m: nat, n: nat)
    requires m <= MAX_COUNTER && n <= MAX_COUNTER && m != n
    ensures Big(m, COUNTER_LEN) != Big(n, COUNTER_LEN)
  {
    assert Range(7) == MAX_COUNTER + 1;
    BigRoundTrip(m, COUNTER_LEN);
    BigRoundTrip(n, COUNTER_LEN);
  }

  lemma NoncesDiffer(salt: Bin, s: byte, m: nat, t: byte, n: nat)
    requires m <= MAX_COUNTER && n <= MAX_COUNTER && (s, m) != (t, n)
    ensures Nonce(salt, s, m) != Nonce(salt, t, n)
  {
    var a, b := Nonce(salt, s, m), Nonce(salt, t, n);
    assert a[|salt|] == s && b[|salt|] == t;
    assert a[|salt| + 1..] == Big(m, COUNTER_LEN) && b[|salt| + 1..] == Big(n, COUNTER_LEN);
    if m != n {
      CountersDiffer(m, n);
    }
  }

  // One message as it went out.
  datatype Message = Message(stream: byte, counter: nat, plain: Bin, wire: Bin)

  datatype Ask = Ask(stream: byte, plain: Bin)

  function CounterOf(tx: Tx, stream: byte): nat
  {
    if stream < |tx.counters| then tx.counters[stream] else 0
  }

  // The messages a run of HandleOut calls puts on the wire of an encrypted session, in order, and
  // every nonce it hands to the cipher, whether or not the cipher then fails.
  function SentBy(a: Aead, tx: Tx, asks: seq<Ask>): seq<Message>
    decreases |asks|
  {
    if asks == [] then []
    else
      var ask := asks[0];
      var out := Sealed(a, tx, ask.plain, ask.stream);
      (if out.wire.Some? then [Message(ask.stream, CounterOf(tx, ask.stream), ask.plain, out.wire.value)] else [])
      + SentBy(a, out.tx, asks[1..])
  }

  function NoncesOf(a: Aead, tx: Tx, asks: seq<Ask>): seq<Bin>
    decreases |asks|
  {
    if asks == [] then []
    else
      var ask := asks[0];
      var out := Sealed(a, tx, ask.plain, ask.stream);
      (if UsesNonce(tx, ask) then [Nonce(tx.salt, ask.stream, CounterOf(tx, ask.stream))] else [])
      + NoncesOf(a, out.tx, asks[1..])
  }

  predicate UsesNonce(tx: Tx, ask: Ask)
  {
    tx.enabled && |ask.plain| <= MAX_MESSAGE && CounterOf(tx, ask.stream) != MAX_COUNTER
  }

  ghost predicate TxOk(tx: Tx)
  {
    forall s | 0 <= s < |tx.counters| :: tx.counters[s] <= MAX_COUNTER
  }

  // A call gives its stream's counter to the cipher and to the wire, moves it on, and leaves the other streams' alone.
  lemma SealStep(a: Aead, tx: Tx, ask: Ask)
    requires TxOk(tx)
    ensures var out := Sealed(a, tx, ask.plain, ask.stream);
            && TxOk(out.tx) && out.tx.enabled == tx.enabled && out.tx.key == tx.key && out.tx.salt == tx.salt
            && (forall s: byte :: CounterOf(out.tx, s)
                                  == CounterOf(tx, s) + if s == ask.stream && UsesNonce(tx, ask) then 1 else 0)
            && (tx.enabled && !UsesNonce(tx, ask) ==> out.wire.None?)
            && (UsesNonce(tx, ask) ==>
                  var counter := CounterOf(tx, ask.stream);
                  var sealed := a.seal(tx.key, Nonce(tx.salt, ask.stream, counter), [MODE_AES_GCM], ask.plain);
                  out.wire == if sealed.None? then None else Some(GcmEnvelope(ask.stream, counter, sealed.value)))
  {
  }

  // The nonce was used for a counter at least as high as the stream's now.
  ghost predicate Ahead(tx: Tx, nonce: Bin)
  {
    exists s: byte, n: nat :: CounterOf(tx, s) <= n < MAX_COUNTER && nonce == Nonce(tx.salt, s, n)
  }

  lemma {:induction false} NoncesAhead(a: Aead, tx: Tx, asks: seq<Ask>)
    requires TxOk(tx)
    ensures forall k | 0 <= k < |NoncesOf(a, tx, asks)| :: Ahead(tx, NoncesOf(a, tx, asks)[k])
    decreases |asks|
  {
    if asks != [] {
      hide Sealed;
      var out := Sealed(a, tx, asks[0].plain, asks[0].stream);
      SealStep(a, tx, asks[0]);
      NoncesAhead(a, out.tx, asks[1..]);
      var later := NoncesOf(a, out.tx, asks[1..]);
      forall k | 0 <= k < |later|
        ensures Ahead(tx, later[k])
      {
        assert Ahead(out.tx, later[k]);
        var s: byte, n: nat :| CounterOf(out.tx, s) <= n < MAX_COUNTER && later[k] == Nonce(out.tx.salt, s, n);
      }
    }
  }

  /** No two calls of any run, on any streams, encrypt under the same nonce. */
  lemma {:induction false} NoncesNeverRepeat(a: Aead, tx: Tx, asks: seq<Ask>)
    requires TxOk(tx)
    ensures forall i, j | 0 <= i < j < |NoncesOf(a, tx, asks)| :: NoncesOf(a, tx, asks)[i] != NoncesOf(a, tx, asks)[j]
    decreases |asks|
  {
    if asks != [] {
      hide Sealed;
      var out := Sealed(a, tx, asks[0].plain, asks[0].stream);
      SealStep(a, tx, asks[0]);
      NoncesNeverRepeat(a, out.tx, asks[1..]);
      if UsesNonce(tx, asks[0]) {
        var later := NoncesOf(a, out.tx, asks[1..]);
        var s0, n0 := asks[0].stream, CounterOf(tx, asks[0].stream);
        NoncesAhead(a, out.tx, asks[1..]);
        forall k | 0 <= k < |later|
          ensures later[k] != Nonce(tx.salt, s0, n0)
        {
          assert Ahead(out.tx, later[k]);
          var s: byte, n: nat :| CounterOf(out.tx, s) <= n < MAX_COUNTER && later[k] == Nonce(out.tx.salt, s, n);
          NoncesDiffer(tx.salt, s0, n0, s, n);
        }
      }
    }
  }

  // --- Each message is accepted at most once -----------------------------------------------

  // The counters taken on one stream so far.
  ghost function OnStream(taken: set<(byte, nat)>, stream: byte): set<nat>
  {
    set p | p in taken && p.0 == stream :: p.1
  }

  function WindowOf(rx: Rx, stream: byte): Window
  {
    if stream < |rx.windows| then rx.windows[stream] else FRESH
  }

  ghost predicate StreamOk(rx: Rx, taken: set<(byte, nat)>, stream: byte)
  {
    Tracks(WindowOf(rx, stream), OnStream(taken, stream))
  }

  ghost predicate RxOk(rx: Rx, taken: set<(byte, nat)>)
  {
    forall s: byte :: StreamOk(rx, taken, s)
  }

  // A genuine message: the wire form of what some sender sealed under the receiver's key.
  ghost predicate Genuine(a: Aead, rx: Rx, m: Message)
  {
    && rx.filled && m.counter <= MAX_COUNTER
    && exists sealed :: SealedAs(a, rx, m, sealed)
  }

  ghost predicate SealedAs(a: Aead, rx: Rx, m: Message, sealed: Bin)
  {
    && a.seal(rx.key, Nonce(rx.salt, m.stream, m.counter), [MODE_AES_GCM], m.plain) == Some(sealed)
    && m.wire == GcmEnvelope(m.stream, m.counter, sealed)
  }

  // Opening a genuine message comes down to the replay window.
  lemma OpensGenuine(a: Aead, rx: Rx, m: Message)
    requires Lawful(a) && Genuine(a, rx, m)
    ensures var r := Opened(a, rx, m.wire);
            var v := Accepted(WindowOf(rx, m.stream), m.counter);
            && r.plain == (if v.ok then Some(m.plain) else None)
            && r.rx == rx.(windows := Padded(rx.windows, m.stream, FRESH)[m.stream := v.window])
  {
    var sealed :| SealedAs(a, rx, m, sealed);
    var rest := m.wire[1..];
    EnvelopeParts(m.stream, m.counter, sealed);
    assert Range(7) == MAX_COUNTER + 1;
    BigRoundTrip(m.counter, COUNTER_LEN);
    hide Accepted, Nonce, Big, FromBig;
  }

  lemma EnvelopeParts(stream: byte, counter: nat, sealed: Bin)
    ensures var w := GcmEnvelope(stream, counter, sealed);
            && |w| == 2 + COUNTER_LEN + |sealed| && w[0] == MODE_AES_GCM && w[1..][0] == stream
            && w[1..][1..1 + COUNTER_LEN] == Big(counter, COUNTER_LEN) && w[1..][1 + COUNTER_LEN..] == sealed
  {
  }

  lemma OnStreamAdded(taken: set<(byte, nat)>, stream: byte, counter: nat, s: byte)
    ensures OnStream(taken + {(stream, counter)}, s)
            == if s == stream then OnStream(taken, s) + {counter} else OnStream(taken, s)
  {
    var now := taken + {(stream, counter)};
    var expected := if s == stream then OnStream(taken, s) + {counter} else OnStream(taken, s);
    forall c: nat | c in expected
      ensures c in OnStream(now, s)
    {
      assert (s, c) in now;
    }
  }

  lemma WindowAfter(rx: Rx, stream: byte, w: Window, s: byte)
    ensures WindowOf(rx.(windows := Padded(rx.windows, stream, FRESH)[stream := w]), s)
            == if s == stream then w else WindowOf(rx, s)
  {
  }

  // Judging a counter keeps every window standing for the counters taken on its stream.
  lemma JudgedOk(rx: Rx, taken: set<(byte, nat)>, stream: byte, counter: nat)
    requires RxOk(rx, taken)
    ensures var v := Accepted(WindowOf(rx, stream), counter);
            && (v.ok <==> MayAccept(OnStream(taken, stream), WindowOf(rx, stream).highest, counter))
            && ((stream, counter) in taken ==> !v.ok)
            && RxOk(rx.(windows := Padded(rx.windows, stream, FRESH)[stream := v.window]),
                    if v.ok then taken + {(stream, counter)} else taken)
  {
    hide Accepted, Tracks, MayAccept;
    var w := WindowOf(rx, stream);
    var v := Accepted(w, counter);
    var seen := OnStream(taken, stream);
    assert StreamOk(rx, taken, stream);
    AcceptsExactly(w, seen, counter);
    if (stream, counter) in taken {
      NeverTwice(w, seen, counter);
    }
    var next := rx.(windows := Padded(rx.windows, stream, FRESH)[stream := v.window]);
    var now := if v.ok then taken + {(stream, counter)} else taken;
    forall s: byte
      ensures StreamOk(next, now, s)
    {
      assert StreamOk(rx, taken, s);
      WindowAfter(rx, stream, v.window, s);
      OnStreamAdded(taken, stream, counter, s);
    }
  }

  /** A genuine message is accepted exactly when its counter is above every one taken on its
      stream, or at most 64 below the highest of them and not yet taken. */
  lemma AcceptedExactly(a: Aead, rx: Rx, taken: set<(byte, nat)>, m: Message)
    requires Lawful(a) && Genuine(a, rx, m) && RxOk(rx, taken)
    ensures var r := Opened(a, rx, m.wire);
            && (r.plain == Some(m.plain) || r.plain == None)
            && (r.plain.Some? <==> MayAccept(OnStream(taken, m.stream), WindowOf(rx, m.stream).highest, m.counter))
            && ((m.stream, m.counter) in taken ==> r.plain.None?)
            && RxOk(r.rx, if r.plain.Some? then taken + {(m.stream, m.counter)} else taken)
  {
    hide Opened, Accepted, Lawful, MayAccept, Genuine, RxOk;
    OpensGenuine(a, rx, m);
    JudgedOk(rx, taken, m.stream, m.counter);
  }

  // --- Any bytes whatever ------------------------------------------------------------------

  // The stream and counter an encrypted message carries.
  function MarkOf(w: Bin): (byte, nat)
  {
    if |w| < 2 + COUNTER_LEN then (0, 0) else (w[1..][0], FromBig(w[1..][1..1 + COUNTER_LEN]))
  }

  // With keys in place, opening anything leaves the receiver as it was or judges its mark.
  lemma OpensByMark(a: Aead, rx: Rx, w: Bin)
    requires rx.filled
    ensures var r := Opened(a, rx, w);
            var (stream, counter) := MarkOf(w);
            var v := Accepted(WindowOf(rx, stream), counter);
            || r == In(None, rx)
            || (&& r.rx == rx.(windows := Padded(rx.windows, stream, FRESH)[stream := v.window])
                && (r.plain.Some? <==> v.ok))
  {
    hide Accepted, Nonce, FromBig;
  }

  lemma OpensOnce(a: Aead, rx: Rx, taken: set<(byte, nat)>, w: Bin)
    requires rx.filled && RxOk(rx, taken)
    ensures var r := Opened(a, rx, w);
            && r.rx.filled
            && (r.plain.Some? ==> MarkOf(w) !in taken)
            && RxOk(r.rx, if r.plain.Some? then taken + {MarkOf(w)} else taken)
  {
    hide Opened, Accepted, RxOk, MarkOf, MayAccept;
    OpensByMark(a, rx, w);
    var (stream, counter) := MarkOf(w);
    JudgedOk(rx, taken, stream, counter);
  }

  // What the receiver makes of what the network hands over, in that order.
  function Results(a: Aead, rx: Rx, wires: seq<Bin>): (r: seq<Option<Bin>>)
    ensures |r| == |wires|
    decreases |wires|
  {
    if wires == [] then []
    else
      var first := Opened(a, rx, wires[0]);
      [first.plain] + Results(a, first.rx, wires[1..])
  }

  // What was accepted carries marks that are new, and no two the same.
  ghost predicate NewMarks(r: seq<Option<Bin>>, wires: seq<Bin>, taken: set<(byte, nat)>)
    requires |r| == |wires|
  {
    && (forall i | 0 <= i < |wires| && r[i].Some? :: MarkOf(wires[i]) !in taken)
    && (forall i, j | 0 <= i < j < |wires| && r[i].Some? && r[j].Some? :: MarkOf(wires[i]) != MarkOf(wires[j]))
  }

  lemma NewMarksCons(first: Option<Bin>, w: Bin, r: seq<Option<Bin>>, wires: seq<Bin>, taken: set<(byte, nat)>)
    requires |r| == |wires| && NewMarks(r, wires, if first.Some? then taken + {MarkOf(w)} else taken)
    requires first.Some? ==> MarkOf(w) !in taken
    ensures NewMarks([first] + r, [w] + wires, taken)
  {
    hide MarkOf;
    var rs, ws := [first] + r, [w] + wires;
    forall i | 0 <= i < |ws| && rs[i].Some?
      ensures MarkOf(ws[i]) !in taken
    {
      assert i > 0 ==> ws[i] == wires[i - 1] && rs[i] == r[i - 1];
    }
    forall i, j | 0 <= i < j < |ws| && rs[i].Some? && rs[j].Some?
      ensures MarkOf(ws[i]) != MarkOf(ws[j])
    {
      assert ws[j] == wires[j - 1] && rs[j] == r[j - 1];
      assert i > 0 ==> ws[i] == wires[i - 1] && rs[i] == r[i - 1];
    }
  }

  /** Whatever bytes arrive, and whatever the cipher makes of them, no two messages accepted carry the
      same stream and counter. */
  lemma {:induction false} NoMarkTwice(a: Aead, rx: Rx, taken: set<(byte, nat)>, wires: seq<Bin>)
    requires rx.filled && RxOk(rx, taken)
    ensures NewMarks(Results(a, rx, wires), wires, taken)
    decreases |wires|
  {
    if wires != [] {
      hide Opened, RxOk, NewMarks, MarkOf;
      var w := wires[0];
      OpensOnce(a, rx, taken, w);
      var first := Opened(a, rx, w);
      NoMarkTwice(a, first.rx, if first.plain.Some? then taken + {MarkOf(w)} else taken, wires[1..]);
      NewMarksCons(first.plain, w, Results(a, first.rx, wires[1..]), wires[1..], taken);
      assert wires == [w] + wires[1..];
    } else {
      assert Results(a, rx, wires) == [];
    }
  }

  // --- What was sent -----------------------------------------------------------------------

  function Wires(ms: seq<Message>): (ws: seq<Bin>)
    ensures |ws| == |ms| && forall i | 0 <= i < |ms| :: ws[i] == ms[i].wire
  {
    seq(|ms|, i requires 0 <= i < |ms| => ms[i].wire)
  }

  lemma ResultsOfSent(a: Aead, rx: Rx, m: Message, rest: seq<Message>)
    ensures var first := Opened(a, rx, m.wire);
            Results(a, rx, Wires([m] + rest)) == [first.plain] + Results(a, first.rx, Wires(rest))
  {
    hide Opened;
    assert Wires([m] + rest)[1..] == Wires(rest);
  }

  lemma {:induction false} OnlySentComesOut(a: Aead, rx: Rx, arriving: seq<Message>)
    requires Lawful(a) && forall m | m in arriving :: Genuine(a, rx, m)
    ensures forall i | 0 <= i < |arriving| ::
              var r := Results(a, rx, Wires(arriving))[i]; r.Some? ==> r == Some(arriving[i].plain)
    decreases |arriving|
  {
    if arriving != [] {
      hide Opened, Lawful, Accepted;
      var m, rest := arriving[0], arriving[1..];
      OpensGenuine(a, rx, m);
      var first := Opened(a, rx, m.wire);
      forall n | n in rest
        ensures Genuine(a, first.rx, n)
      {
        SameKeysGenuine(a, rx, first.rx, n);
      }
      hide Genuine, Results;
      OnlySentComesOut(a, first.rx, rest);
      ResultsOfSent(a, rx, m, rest);
      assert arriving == [m] + rest;
    }
  }

  lemma SameKeysGenuine(a: Aead, rx: Rx, later: Rx, m: Message)
    requires Genuine(a, rx, m) && later.filled == rx.filled && later.key == rx.key && later.salt == rx.salt
    ensures Genuine(a, later, m)
  {
    var sealed :| SealedAs(a, rx, m, sealed);
    assert SealedAs(a, later, m, sealed);
  }

  lemma {:induction false} SentAreGenuine(a: Aead, tx: Tx, rx: Rx, asks: seq<Ask>)
    requires TxOk(tx) && tx.enabled && rx.filled && tx.key == rx.key && tx.salt == rx.salt
    ensures forall m | m in SentBy(a, tx, asks) :: Genuine(a, rx, m)
    decreases |asks|
  {
    if asks != [] {
      hide Sealed;
      var ask := asks[0];
      SealStep(a, tx, ask);
      var out := Sealed(a, tx, ask.plain, ask.stream);
      SentAreGenuine(a, out.tx, rx, asks[1..]);
      if out.wire.Some? {
        var m := Message(ask.stream, CounterOf(tx, ask.stream), ask.plain, out.wire.value);
        assert SealedAs(a, rx, m, a.seal(rx.key, Nonce(rx.salt, m.stream, m.counter), [MODE_AES_GCM], m.plain).value);
      }
    }
  }

  /** Whatever was sent on whichever streams, and however the network repeats, reorders or loses it:
      nothing but what was sent comes out, and no message comes out twice. */
  lemma DeliveredAtMostOnce(a: Aead, tx: Tx, rx: Rx, asks: seq<Ask>, picks: seq<nat>)
    requires Lawful(a) && TxOk(tx) && tx.enabled && rx.filled && tx.key == rx.key && tx.salt == rx.salt
    requires rx.windows == []
    requires forall i | 0 <= i < |picks| :: picks[i] < |SentBy(a, tx, asks)|
    ensures var sent := SentBy(a, tx, asks);
            var r := Results(a, rx, Wires(Picked(sent, picks)));
            && (forall i | 0 <= i < |picks| :: r[i].Some? ==> r[i] == Some(sent[picks[i]].plain))
            && (forall i, j | 0 <= i < j < |picks| && picks[i] == picks[j] :: r[i].None? || r[j].None?)
  {
    var sent := SentBy(a, tx, asks);
    SentAreGenuine(a, tx, rx, asks);
    hide SentBy, Results, Lawful, Genuine, MarkOf;
    var arriving := Picked(sent, picks);
    OnlySentComesOut(a, rx, arriving);
    FreshOk(rx);
    NoMarkTwice(a, rx, {}, Wires(arriving));
  }

  lemma FreshOk(rx: Rx)
    requires rx.windows == []
    ensures RxOk(rx, {})
  {
    forall s: byte
      ensures StreamOk(rx, {}, s)
    {
      assert OnStream({}, s) == {};
      assert Bits.Pow2(64) > 0;
    }
  }

  function Picked(sent: seq<Message>, picks: seq<nat>): (arriving: seq<Message>)
    requires forall i | 0 <= i < |picks| :: picks[i] < |sent|
    ensures |arriving| == |picks| && forall i | 0 <= i < |picks| :: arriving[i] == sent[picks[i]]
  {
    seq(|picks|, i requires 0 <= i < |picks| => sent[picks[i]])
  }

  // The receiver has seen nothing the sender has yet to send.
  ghost predicate Behind(tx: Tx, rx: Rx)
  {
    && tx.enabled && rx.filled && tx.key == rx.key && tx.salt == rx.salt && TxOk(tx)
    && forall s: byte :: WindowOf(rx, s).seenAny ==> WindowOf(rx, s).highest < CounterOf(tx, s)
  }

  lemma StaysBehind(a: Aead, tx: Tx, rx: Rx, ask: Ask)
    requires Lawful(a) && Behind(tx, rx)
    ensures var out := Sealed(a, tx, ask.plain, ask.stream);
            && (out.wire.None? ==> Behind(out.tx, rx))
            && (out.wire.Some? ==>
                  var r := Opened(a, rx, out.wire.value);
                  r.plain == Some(ask.plain) && Behind(out.tx, r.rx))
  {
    hide Sealed, Opened, Lawful;
    SealStep(a, tx, ask);
    var out := Sealed(a, tx, ask.plain, ask.stream);
    if out.wire.Some? {
      var m := Message(ask.stream, CounterOf(tx, ask.stream), ask.plain, out.wire.value);
      assert SealedAs(a, rx, m, a.seal(rx.key, Nonce(rx.salt, m.stream, m.counter), [MODE_AES_GCM], m.plain).value);
      OpensGenuine(a, rx, m);
      var v := Accepted(WindowOf(rx, m.stream), m.counter);
      forall s: byte {
        WindowAfter(rx, m.stream, v.window, s);
      }
    }
  }

  /** On a channel that keeps order, every message that went out comes out. */
  lemma {:induction false} InOrderAllDelivered(a: Aead, tx: Tx, rx: Rx, asks: seq<Ask>)
    requires Lawful(a) && Behind(tx, rx)
    ensures var sent := SentBy(a, tx, asks);
            forall i | 0 <= i < |sent| :: Results(a, rx, Wires(sent))[i] == Some(sent[i].plain)
    decreases |asks|
  {
    if asks != [] {
      hide Sealed, Opened, Lawful, Behind, Results;
      var ask := asks[0];
      var out := Sealed(a, tx, ask.plain, ask.stream);
      StaysBehind(a, tx, rx, ask);
      if out.wire.None? {
        InOrderAllDelivered(a, out.tx, rx, asks[1..]);
        assert SentBy(a, tx, asks) == SentBy(a, out.tx, asks[1..]);
      } else {
        var m := Message(ask.stream, CounterOf(tx, ask.stream), ask.plain, out.wire.value);
        var rest := SentBy(a, out.tx, asks[1..]);
        InOrderAllDelivered(a, out.tx, Opened(a, rx, m.wire).rx, asks[1..]);
        ResultsOfSent(a, rx, m, rest);
        assert SentBy(a, tx, asks) == [m] + rest;
      }
    }
  }
}
