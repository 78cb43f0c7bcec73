/**
 A session over TCP: packets through the codec, compression, encryption and framing on one side, and
 back through them on the other.
 */
module Sessions {
  import opened Buffers
  import opened Bytes
  import opened Codecs
  import Handshake
  import opened Options
  import opened Pipelines
  import opened SessionCipher
  import opened TcpFraming

  // A packet to be sent, the stream it goes on, and the compression in force at that moment.
  datatype Post<+P> = Post(packet: P, stream: byte, kind: byte, threshold: nat)

  // A packet that was handed to the transport, and as what.
  datatype Sending<+P> = Sending(packet: P, wire: Bin)

  ghost predicate AllRoundTrip<P>(c: Codec<P>, posts: seq<Post<P>>)
  {
    forall k | 0 <= k < |posts| :: RoundTrips(c, posts[k].packet)
  }

  ghost function EncodedPost<P>(c: Codec<P>, z: Zstd, a: Aead, tx: Tx, post: Post<P>): Out
    requires RoundTrips(c, post.packet)
  {
    SignificantFits(c.idOf(post.packet), 8);
    Encoded(c, z, post.kind, post.threshold, a, tx, post.packet, post.stream)
  }

  // A run of EncodeAndSend: what does not encode, or is too large for a frame, goes nowhere.
  ghost function SentOf<P>(c: Codec<P>, z: Zstd, a: Aead, tx: Tx, posts: seq<Post<P>>): seq<Sending<P>>
    requires AllRoundTrip(c, posts)
    decreases |posts|
  {
    if posts == [] then []
    else
      var out := EncodedPost(c, z, a, tx, posts[0]);
      (if out.wire.Some? && Sendable(Data(out.wire.value)) then [Sending(posts[0].packet, out.wire.value)] else [])
      + SentOf(c, z, a, out.tx, posts[1..])
  }

  function PacketsOf<P>(sent: seq<Sending<P>>): (packets: seq<P>)
    ensures |packets| == |sent| && forall k | 0 <= k < |sent| :: packets[k] == sent[k].packet
  {
    seq(|sent|, k requires 0 <= k < |sent| => sent[k].packet)
  }

  function WiresOf<P>(sent: seq<Sending<P>>): (wires: seq<Bin>)
    ensures |wires| == |sent| && forall k | 0 <= k < |sent| :: wires[k] == sent[k].wire
  {
    seq(|sent|, k requires 0 <= k < |sent| => sent[k].wire)
  }

  function FramesFor(wires: seq<Bin>): (frames: seq<Frame>)
    ensures |frames| == |wires| && forall k | 0 <= k < |wires| :: frames[k] == Data(wires[k])
  {
    seq(|wires|, k requires 0 <= k < |wires| => Data(wires[k]))
  }

  datatype Receiver<+P> = Receiver(rx: Rx, handled: seq<P>, invalid: nat, closed: bool)

  // One message in Process: what does not decode is passed over; too many invalid frames in all, if
  // there is a limit, close the session.
  function Taken<P>(c: Codec<P>, z: Zstd, a: Aead, limit: nat, r: Receiver<P>, message: Bin): Receiver<P>
  {
    if r.closed then r
    else
      var d := Decoded(z, a, r.rx, message);
      if d.plain.None? then r.(rx := d.rx)
      else
        var got := DecodeFrom(c, d.plain.value, 0, NO_LIMIT, NoError);
        var invalid := r.invalid + got.invalid;
        Receiver(d.rx, r.handled + got.handled, invalid, got.invalid > 0 && limit != 0 && invalid >= limit)
  }

  function AllTaken<P>(c: Codec<P>, z: Zstd, a: Aead, limit: nat, r: Receiver<P>, messages: seq<Bin>): Receiver<P>
    decreases |messages|
  {
    if messages == [] then r else AllTaken(c, z, a, limit, Taken(c, z, a, limit, r, messages[0]), messages[1..])
  }

  /** A session is closed for what it received exactly when there is a limit and the undecodable frames in
      all have reached it. */
  lemma {:induction false} ClosedAtTheLimit<P>(c: Codec<P>, z: Zstd, a: Aead, limit: nat, r: Receiver<P>, messages: seq<Bin>)
    requires r.closed <==> limit != 0 && r.invalid >= limit
    ensures var s := AllTaken(c, z, a, limit, r, messages);
            s.closed <==> limit != 0 && s.invalid >= limit
    decreases |messages|
  {
    if messages != [] {
      hide Decoded, DecodeFrom;
      ClosedAtTheLimit(c, z, a, limit, Taken(c, z, a, limit, r, messages[0]), messages[1..]);
    }
  }

  // --- One packet --------------------------------------------------------------------------

  // Both ends in the clear, or both encrypting under the same keys with the receiver not ahead.
  ghost predicate InStep(tx: Tx, rx: Rx)
  {
    Behind(tx, rx) || (!tx.enabled && !rx.filled)
  }

  lemma MessageArrives(a: Aead, tx: Tx, rx: Rx, m: Bin, stream: byte)
    requires Lawful(a) && InStep(tx, rx)
    ensures var out := Sealed(a, tx, m, stream);
            && InStep(out.tx, rx)
            && (out.wire.Some? ==>
                  var r := Opened(a, rx, out.wire.value); r.plain == Some(m) && InStep(out.tx, r.rx))
  {
    if tx.enabled {
      hide Sealed, Opened, Lawful;
      StaysBehind(a, tx, rx, Ask(stream, m));
      SealStep(a, tx, Ask(stream, m));
    } else {
      assert ([MODE_PLAINTEXT] + m)[1..] == m;
    }
  }

  lemma PacketArrives<P>(c: Codec<P>, z: Zstd, a: Aead, limit: nat, tx: Tx, r: Receiver<P>, post: Post<P>)
    requires ZstdLawful(z) && Lawful(a) && RoundTrips(c, post.packet) && InStep(tx, r.rx) && !r.closed
    ensures var out := EncodedPost(c, z, a, tx, post);
            && InStep(out.tx, r.rx)
            && (out.wire.Some? ==>
                  var s := Taken(c, z, a, limit, r, out.wire.value);
                  && InStep(out.tx, s.rx) && s.handled == r.handled + [post.packet]
                  && s.invalid == r.invalid && !s.closed)
  {
    hide Sealed, Opened, Lawful, ZstdLawful, Compressed, Decompressed, FrameOf, DecodeFrom, RoundTrips, InStep;
    FrameDecodes(c, post.packet);
    var frame := FrameOf(c.idOf(post.packet), BodyOf(c, post.packet));
    var kind := if |frame| < post.threshold then COMPRESSION_NONE else post.kind;
    if Compressed(z, kind, frame).Some? {
      DecompressesCompressed(z, kind, frame);
      MessageArrives(a, tx, r.rx, Compressed(z, kind, frame).value, post.stream);
    }
  }

  // --- Every packet ------------------------------------------------------------------------

  // The receiver took exactly these packets, and nothing counted against the session.
  ghost predicate TookExactly<P>(r: Receiver<P>, s: Receiver<P>, packets: seq<P>)
  {
    s.handled == r.handled + packets && s.invalid == r.invalid && !s.closed
  }

  lemma {:induction false} MessagesArrive<P>(c: Codec<P>, z: Zstd, a: Aead, limit: nat, tx: Tx, r: Receiver<P>,
                                             posts: seq<Post<P>>, n: nat)
    requires ZstdLawful(z) && Lawful(a) && AllRoundTrip(c, posts) && InStep(tx, r.rx) && !r.closed
    requires n <= |SentOf(c, z, a, tx, posts)|
    ensures var sent := SentOf(c, z, a, tx, posts)[..n];
            TookExactly(r, AllTaken(c, z, a, limit, r, WiresOf(sent)), PacketsOf(sent))
    decreases |posts|
  {
    hide ZstdLawful, Lawful, RoundTrips, InStep, EncodedPost, Sendable, Taken;
    var all := SentOf(c, z, a, tx, posts);
    if n == 0 {
      assert WiresOf(all[..0]) == [] && PacketsOf(all[..0]) == [];
    } else {
      var post := posts[0];
      PacketArrives(c, z, a, limit, tx, r, post);
      var out := EncodedPost(c, z, a, tx, post);
      var rest := SentOf(c, z, a, out.tx, posts[1..]);
      if out.wire.Some? && Sendable(Data(out.wire.value)) {
        var s := Taken(c, z, a, limit, r, out.wire.value);
        MessagesArrive(c, z, a, limit, out.tx, s, posts[1..], n - 1);
        var first := Sending(post.packet, out.wire.value);
        assert all[..n] == [first] + rest[..n - 1];
        TookOneMore(c, z, a, limit, r, first, rest[..n - 1]);
      } else {
        assert all == rest;
        MessagesArrive(c, z, a, limit, out.tx, r, posts[1..], n);
      }
    }
  }

  lemma SentCons<P>(first: Sending<P>, rest: seq<Sending<P>>)
    ensures WiresOf([first] + rest) == [first.wire] + WiresOf(rest)
    ensures PacketsOf([first] + rest) == [first.packet] + PacketsOf(rest)
  {
  }

  lemma AllTakenCons<P>(c: Codec<P>, z: Zstd, a: Aead, limit: nat, r: Receiver<P>, first: Bin, rest: seq<Bin>)
    ensures AllTaken(c, z, a, limit, r, [first] + rest) == AllTaken(c, z, a, limit, Taken(c, z, a, limit, r, first), rest)
  {
    hide Taken;
    assert ([first] + rest)[1..] == rest;
  }

  lemma TookOneMore<P>(c: Codec<P>, z: Zstd, a: Aead, limit: nat, r: Receiver<P>, first: Sending<P>, rest: seq<Sending<P>>)
    requires var s := Taken(c, z, a, limit, r, first.wire);
             && s.handled == r.handled + [first.packet] && s.invalid == r.invalid
             && TookExactly(s, AllTaken(c, z, a, limit, s, WiresOf(rest)), PacketsOf(rest))
    ensures var all := [first] + rest;
            TookExactly(r, AllTaken(c, z, a, limit, r, WiresOf(all)), PacketsOf(all))
  {
    hide Taken, AllTaken, WiresOf, PacketsOf;
    SentCons(first, rest);
    AllTakenCons(c, z, a, limit, r, first.wire, WiresOf(rest));
    assert r.handled + [first.packet] + PacketsOf(rest) == r.handled + ([first.packet] + PacketsOf(rest));
  }

  lemma {:induction false} DataOfAll(wires: seq<Bin>)
    ensures DataOf(FramesFor(wires)) == wires
    decreases |wires|
  {
    if wires != [] {
      DataOfAll(wires[1..]);
      assert FramesFor(wires)[1..] == FramesFor(wires[1..]);
    }
  }

  lemma {:induction false} SentAreSendable<P>(c: Codec<P>, z: Zstd, a: Aead, tx: Tx, posts: seq<Post<P>>)
    requires AllRoundTrip(c, posts)
    ensures forall k | 0 <= k < |SentOf(c, z, a, tx, posts)| :: Sendable(Data(SentOf(c, z, a, tx, posts)[k].wire))
    decreases |posts|
  {
    hide RoundTrips, EncodedPost, Sendable;
    if posts != [] {
      SentAreSendable(c, z, a, EncodedPost(c, z, a, tx, posts[0]).tx, posts[1..]);
    }
  }

  lemma {:induction false} DataOfPart(frames: seq<Frame>, k: nat)
    requires k <= |frames|
    ensures DataOf(frames[..k]) <= DataOf(frames)
  {
    if k > 0 {
      DataOfPart(frames[1..], k - 1);
      assert frames[..k][1..] == frames[1..][..k - 1];
    }
  }

  // What the transport hands up is a prefix of what it was given.
  lemma WiresArrive(frames: seq<Frame>, wires: seq<Bin>, out: Port, offers: seq<nat>, port: Port)
    requires out.wire == [] && (forall f | f in frames :: Sendable(f)) && DataOf(frames) == wires
    ensures var went := SendAll(out, frames);
            var conn := Run(Conn([], went.port.wire, [], port), offers);
            && |conn.unread| <= CAPACITY && |conn.delivered| <= |wires|
            && conn.delivered == wires[..|conn.delivered|]
            && (went.ok && Step(conn, 1).future == conn.future && Step(conn, 1).delivered == conn.delivered ==>
                  conn.delivered == wires)
  {
    hide SendAll, Run, Step, Sendable, NextOf, Stream, DataOf, WellFramed;
    var k, tail := SendAllLeaves(out, frames);
    var stream := SendAll(out, frames).port.wire;
    assert stream == Stream(frames[..k]) + tail;
    var _ := EverySegmentation(frames[..k], tail, offers, port);
    DataOfPart(frames, k);
    assert k == |frames| ==> frames[..k] == frames;
    var delivered := Run(Conn([], stream, [], port), offers).delivered;
    assert delivered <= wires;
  }

  // The frames a sender of these packets puts on the connection: theirs, in order, and any control
  // frames between them.
  ghost predicate CarriedBy<P>(sent: seq<Sending<P>>, frames: seq<Frame>)
  {
    (forall f | f in frames :: Sendable(f)) && DataOf(frames) == WiresOf(sent)
  }

  lemma OwnFramesCarry<P>(c: Codec<P>, z: Zstd, a: Aead, tx: Tx, posts: seq<Post<P>>)
    requires AllRoundTrip(c, posts)
    ensures var sent := SentOf(c, z, a, tx, posts); CarriedBy(sent, FramesFor(WiresOf(sent)))
  {
    hide SentOf, Sendable;
    SentAreSendable(c, z, a, tx, posts);
    DataOfAll(WiresOf(SentOf(c, z, a, tx, posts)));
  }

  // Of the packets that went to the transport the other side has handed on a prefix, in order, each
  // once, and found nothing invalid; and all of them once every send went through and a call with
  // bytes on offer changes nothing.
  ghost predicate HandsOnInOrder<P>(c: Codec<P>, z: Zstd, a: Aead, limit: nat, rx: Rx, sent: seq<Sending<P>>,
                                    went: Push, offers: seq<nat>, port: Port)
  {
    var conn := Run(Conn([], went.port.wire, [], port), offers);
    var r := AllTaken(c, z, a, limit, Receiver(rx, [], 0, false), conn.delivered);
    && |conn.unread| <= CAPACITY && |conn.delivered| <= |sent|
    && r.handled == PacketsOf(sent)[..|conn.delivered|] && r.invalid == 0 && !r.closed
    && (went.ok && Step(conn, 1).future == conn.future && Step(conn, 1).delivered == conn.delivered ==>
          r.handled == PacketsOf(sent))
  }

  /** The layers together. Whatever packets are sent on whichever streams and under whatever compression,
      encrypted or in the clear, with whatever control frames between them, whatever the socket takes up
      to the first send that fails, and however the stream is cut up on its way: the other side hands
      them on in order. */
  lemma PacketsArrive<P>(c: Codec<P>, z: Zstd, a: Aead, limit: nat, tx: Tx, rx: Rx, posts: seq<Post<P>>,
                         frames: seq<Frame>, out: Port, offers: seq<nat>, port: Port)
    requires ZstdLawful(z) && Lawful(a) && AllRoundTrip(c, posts) && InStep(tx, rx) && out.wire == []
    requires CarriedBy(SentOf(c, z, a, tx, posts), frames)
    ensures HandsOnInOrder(c, z, a, limit, rx, SentOf(c, z, a, tx, posts), SendAll(out, frames), offers, port)
  {
    hide ZstdLawful, Lawful, InStep, RoundTrips, SentOf, AllTaken, SendAll, Run, Step, Sendable;
    var sent := SentOf(c, z, a, tx, posts);
    WiresArrive(frames, WiresOf(sent), out, offers, port);
    var n := |Run(Conn([], SendAll(out, frames).port.wire, [], port), offers).delivered|;
    MessagesArrive(c, z, a, limit, tx, Receiver(rx, [], 0, false), posts, n);
    assert WiresOf(sent[..n]) == WiresOf(sent)[..n];
    assert [] + PacketsOf(sent[..n]) == PacketsOf(sent)[..n];
  }

  // --- After the handshake -----------------------------------------------------------------

  // How one expansion of the secret yields a direction's key and salt.
  datatype Material = Material(key: nat -> Bin, salt: nat -> Bin)

  // A party's two halves of the cipher as it switches encryption on, before its first message.
  function TxOf(m: Material, p: Handshake.Party): Tx
  {
    Tx(p.enableEncryption, m.key(p.txKey), m.salt(p.txKey), [])
  }

  function RxOf(m: Material, p: Handshake.Party): Rx
  {
    Rx(p.keyFilled, m.key(p.rxKey), m.salt(p.rxKey), [])
  }

  lemma StartsInStep(tx: Tx, rx: Rx)
    requires tx.counters == [] && rx.windows == [] && tx.enabled == rx.filled
    requires tx.enabled ==> tx.key == rx.key && tx.salt == rx.salt
    ensures InStep(tx, rx)
  {
  }

  /** When a handshake has made both ready, whatever else happened in it, each one's sending half is in
      step with the other's receiving half. */
  lemma HandshakeLeavesInStep(s: Handshake.Setup, run: seq<Handshake.Action>, m: Material)
    requires Handshake.Lawful(s.crypto) && Handshake.IsRun(s.crypto, Handshake.Initial(s), run)
    ensures var w := Handshake.End(s.crypto, Handshake.Initial(s), run);
            w.i.ready && w.a.ready ==> InStep(TxOf(m, w.i), RxOf(m, w.a)) && InStep(TxOf(m, w.a), RxOf(m, w.i))
  {
    hide InStep, Handshake.IsRun, Handshake.End, Handshake.Lawful;
    Handshake.Agreement(s, run);
    var w := Handshake.End(s.crypto, Handshake.Initial(s), run);
    if w.i.ready && w.a.ready {
      StartsInStep(TxOf(m, w.i), RxOf(m, w.a));
      StartsInStep(TxOf(m, w.a), RxOf(m, w.i));
    }
  }

  /** From the handshake to the packets: two parties that became ready, the ready message being the first
      either one sealed, hand each other's packets on in order. */
  lemma SessionDelivers<P>(s: Handshake.Setup, run: seq<Handshake.Action>, m: Material, fromInitiator: bool,
                           ready: Bin, stream: byte, c: Codec<P>, z: Zstd, a: Aead, limit: nat,
                           posts: seq<Post<P>>, frames: seq<Frame>, out: Port, offers: seq<nat>, port: Port)
    requires Handshake.Lawful(s.crypto) && Handshake.IsRun(s.crypto, Handshake.Initial(s), run)
    requires var w := Handshake.End(s.crypto, Handshake.Initial(s), run); w.i.ready && w.a.ready
    requires ZstdLawful(z) && Lawful(a) && AllRoundTrip(c, posts) && out.wire == []
    requires var w := Handshake.End(s.crypto, Handshake.Initial(s), run);
             var hello := Sealed(a, TxOf(m, if fromInitiator then w.i else w.a), ready, stream);
             hello.wire.Some? && CarriedBy(SentOf(c, z, a, hello.tx, posts), frames)
    ensures var w := Handshake.End(s.crypto, Handshake.Initial(s), run);
            var hello := Sealed(a, TxOf(m, if fromInitiator then w.i else w.a), ready, stream);
            var heard := Opened(a, RxOf(m, if fromInitiator then w.a else w.i), hello.wire.value);
            && heard.plain == Some(ready)
            && HandsOnInOrder(c, z, a, limit, heard.rx, SentOf(c, z, a, hello.tx, posts), SendAll(out, frames), offers, port)
  {
    hide InStep, Handshake.IsRun, Handshake.End, Handshake.Lawful, Sealed, Opened, Lawful, ZstdLawful, SentOf,
         HandsOnInOrder, SendAll, RoundTrips, CarriedBy, AllRoundTrip;
    HandshakeLeavesInStep(s, run, m);
    var w := Handshake.End(s.crypto, Handshake.Initial(s), run);
    var tx := TxOf(m, if fromInitiator then w.i else w.a);
    var rx := RxOf(m, if fromInitiator then w.a else w.i);
    MessageArrives(a, tx, rx, ready, stream);
    var hello := Sealed(a, tx, ready, stream);
    var heard := Opened(a, rx, hello.wire.value);
    PacketsArrive(c, z, a, limit, hello.tx, heard.rx, posts, frames, out, offers, port);
  }

  // --- That this speaks of something -------------------------------------------------------

  /** Every condition of PacketsArrive can be met at once, encrypted and compressed, by a packet that
      does go to the transport. */
  lemma SomethingIsSent(p: Bin, stream: byte, key: Bin, salt: Bin)
    requires |p| <= 4000
    ensures var c, z, a := RawCodec(), PlainZstd(), PlainAead();
            var tx, rx := Tx(true, key, salt, []), Rx(true, key, salt, []);
            var posts := [Post(p, stream, COMPRESSION_ZSTANDARD, 0)];
            && ZstdLawful(z) && Lawful(a) && AllRoundTrip(c, posts) && InStep(tx, rx)
            && PacketsOf(SentOf(c, z, a, tx, posts)) == [p]
  {
    var c, z, a := RawCodec(), PlainZstd(), PlainAead();
    var tx, rx := Tx(true, key, salt, []), Rx(true, key, salt, []);
    var post := Post(p, stream, COMPRESSION_ZSTANDARD, 0);
    LawsCanBeMet();
    RawRoundTrips(p);
    StartsInStep(tx, rx);
    assert AllRoundTrip(c, [post]);
    SmallPacketFits(p, stream, tx);
    hide EncodedPost, RoundTrips, Lawful, ZstdLawful, InStep, Sendable;
    var out := EncodedPost(c, z, a, tx, post);
    var posts: seq<Post<Bin>> := [post];
    assert posts[1..] == [];
    assert SentOf(c, z, a, out.tx, posts[1..]) == [];
    assert SentOf(c, z, a, tx, posts) == [Sending(p, out.wire.value)];
  }

  lemma SmallPacketFits(p: Bin, stream: byte, tx: Tx)
    requires |p| <= 4000 && tx.enabled && tx.counters == [] && RoundTrips(RawCodec(), p)
    ensures var out := EncodedPost(RawCodec(), PlainZstd(), PlainAead(), tx, Post(p, stream, COMPRESSION_ZSTANDARD, 0));
            out.wire.Some? && Sendable(Data(out.wire.value))
  {
    hide RoundTrips, Nonce;
    assert Significant(0) == 0 && Significant(1) == 1;
    var frame := FrameOf(1, p);
    assert |frame| == 6 + |p|;
    var packed := Compressed(PlainZstd(), COMPRESSION_ZSTANDARD, frame);
    assert packed == Some([COMPRESSION_ZSTANDARD] + ([7] + frame));
    var out := Sealed(PlainAead(), tx, packed.value, stream);
    assert out.wire == Some(GcmEnvelope(stream, 0, packed.value + ZeroTag()));
    assert |out.wire.value| == |p| + 8 + TAG_LEN + 2 + COUNTER_LEN;
  }
}
