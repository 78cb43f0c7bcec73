/**
 The send pipeline and its inverse: serialize, compress, encrypt on the way out, decrypt and
 decompress on the way in. Each stage prepends its byte in the headroom the stage before left, or
 builds a fresh buffer when there is none. zstd is a pair of functions given from outside, present
 only in builds that have it.
 */
module Pipelines {
  import opened Buffers
  import opened Bytes
  import opened Codecs
  import opened Options
  import opened ReplayWindows
  import opened SessionCipher

  const COMPRESSION_NONE: byte := 0
  const COMPRESSION_ZSTANDARD: byte := 1
  const SEND_HEADROOM: nat := 4
  const MAX_MEMORY: nat := NO_LIMIT - 32  // no body is larger than what a size_t can address

  datatype Zstd = Zstd(available: bool, compress: Bin -> Option<Bin>, decompress: Bin -> Option<Bin>)

  ghost predicate ZstdLawful(z: Zstd)
  {
    forall m :: z.compress(m).Some? ==> z.decompress(z.compress(m).value) == Some(m)
  }

  // What the libraries return fits in memory.
  ghost predicate ZstdFits(z: Zstd)
  {
    && (forall m :: z.compress(m).Some? ==> |z.compress(m).value| + 4 <= NO_LIMIT)
    && (forall m :: z.decompress(m).Some? ==> |z.decompress(m).value| <= NO_LIMIT)
  }

  ghost predicate AeadFits(a: Aead)
  {
    forall k, n, d, c :: a.open(k, n, d, c).Some? ==> |a.open(k, n, d, c).value| <= NO_LIMIT
  }

  // Stand-ins for the two libraries: one byte in front of the text, and a tag of zeros behind it.
  function PlainZstd(): Zstd
  {
    Zstd(true, (m: Bin) => if |m| + 5 <= NO_LIMIT then Some([7] + m) else None,
         (m: Bin) => if 0 < |m| <= NO_LIMIT then Some(m[1..]) else None)
  }

  function ZeroTag(): Bin
  {
    seq(TAG_LEN, _ => 0)
  }

  function PlainAead(): Aead
  {
    Aead((key: Bin, nonce: Bin, aad: Bin, plain: Bin) => if |plain| <= NO_LIMIT then Some(plain + ZeroTag()) else None,
         (key: Bin, nonce: Bin, aad: Bin, sealed: Bin) =>
           if TAG_LEN <= |sealed| <= NO_LIMIT + TAG_LEN && sealed[|sealed| - TAG_LEN..] == ZeroTag()
           then Some(sealed[..|sealed| - TAG_LEN]) else None)
  }

  /** What is asked of the libraries can be met, all of it at once. */
  lemma LawsCanBeMet()
    ensures ZstdLawful(PlainZstd()) && ZstdFits(PlainZstd())
    ensures Lawful(PlainAead()) && AeadFits(PlainAead())
  {
    var z, a := PlainZstd(), PlainAead();
    forall m: Bin | z.compress(m).Some?
      ensures z.decompress(z.compress(m).value) == Some(m)
    {
      assert ([7] + m)[1..] == m;
    }
    forall key, nonce, aad, plain | a.seal(key, nonce, aad, plain).Some?
      ensures a.open(key, nonce, aad, a.seal(key, nonce, aad, plain).value) == Some(plain)
    {
      var sealed := plain + ZeroTag();
      assert sealed[..|plain|] == plain && sealed[|plain|..] == ZeroTag();
    }
  }

  function Compressed(z: Zstd, kind: byte, m: Bin): Option<Bin>
  {
    if kind == COMPRESSION_NONE || (kind == COMPRESSION_ZSTANDARD && !z.available) then Some([COMPRESSION_NONE] + m)
    else if kind == COMPRESSION_ZSTANDARD then
      match z.compress(m)
      case None => None
      case Some(c) => Some([COMPRESSION_ZSTANDARD] + c)
    else None
  }

  function Decompressed(z: Zstd, bytes: Bin): Option<Bin>
  {
    var kind := if bytes == [] then 0 else bytes[0];
    var rest := if bytes == [] then [] else bytes[1..];
    if kind == COMPRESSION_NONE then Some(rest)
    else if kind == COMPRESSION_ZSTANDARD && z.available then z.decompress(rest)
    else None
  }

  // --- Buffers -----------------------------------------------------------------------------

  // A buffer a stage may work on: what it holds is what it lets be read.
  ghost predicate Plain(b: Buffer)
    reads b
  {
    b.Valid() && b.readCursor <= b.writeCursor <= b.readLimit == NO_LIMIT
  }

  /** The tag byte in front of the message: in place when there is headroom, else in a copy that
      has some for the stages to come. Same bytes either way. */
  method Tagged(buffer: Buffer, tag: byte, headroom: nat) returns (out: Buffer)
    requires Plain(buffer) && headroom + 1 + |buffer.Readable()| <= NO_LIMIT
    modifies buffer`readCursor, buffer.data
    ensures Plain(out) && out.data != null && out.Readable() == [tag] + old(buffer.Readable())
    ensures out == buffer || fresh(out)
    ensures out == buffer ==> out.data == old(buffer.data)
    ensures fresh(out) ==> fresh(out.data)
  {
    var done := buffer.PrependInt8(tag);
    if done {
      return buffer;
    }
    var message: Bin := [];
    if buffer.data != null {
      message := buffer.data[buffer.readCursor..buffer.writeCursor];
    }
    assert message == buffer.Readable();
    out := Fresh(headroom, [tag], message);
  }

  // A fresh buffer: headroom, a first part and a second.
  method Fresh(headroom: nat, a: Bin, b: Bin) returns (out: Buffer)
    requires headroom + |a| + |b| <= NO_LIMIT
    ensures fresh(out) && Plain(out) && out.data != null && fresh(out.data)
    ensures out.Readable() == out.Message() == a + b && out.readCursor == headroom && !out.big
    ensures out.writeCursor == headroom + |a| + |b|
  {
    out := new Buffer(false);
    out.ReserveHeadroom(headroom);
    out.Reserve(headroom + |a| + |b|, true);
    out.Write(a);
    assert out.Message() == a;
    out.Write(b);
  }

  /** HandleOutWithType. */
  method CompressOut(z: Zstd, kind: byte, buffer: Buffer) returns (out: Buffer?)
    requires Plain(buffer) && |buffer.Readable()| + 4 <= NO_LIMIT
    requires ZstdFits(z)
    modifies buffer`readCursor, buffer.data
    ensures var c := Compressed(z, kind, old(buffer.Readable()));
            && (out == null <==> c.None?)
            && (out != null ==> Plain(out) && out.data != null && out.Readable() == c.value)
    ensures out != null ==> out == buffer || (fresh(out) && fresh(out.data))
    ensures out == buffer ==> out.data == old(buffer.data)
  {
    if kind == COMPRESSION_NONE || (kind == COMPRESSION_ZSTANDARD && !z.available) {
      out := Tagged(buffer, COMPRESSION_NONE, 3);
    } else if kind == COMPRESSION_ZSTANDARD {
      var message: Bin := [];
      if buffer.data != null {
        message := buffer.data[buffer.readCursor..buffer.writeCursor];
      }
      assert message == buffer.Readable();
      var packed := z.compress(message);
      if packed.None? {
        return null;
      }
      var copy := Fresh(4, packed.value, []);
      var done := copy.PrependInt8(COMPRESSION_ZSTANDARD);
      if !done {
        return null;
      }
      assert copy.Readable() == [COMPRESSION_ZSTANDARD] + packed.value;
      out := copy;
    } else {
      out := null;
    }
  }

  /** HandleInDynamic. */
  method DecompressIn(z: Zstd, buffer: Buffer) returns (out: Buffer?)
    requires Plain(buffer) && buffer.data != null
    requires ZstdFits(z)
    modifies buffer`readCursor, buffer`lastError
    ensures var c := Decompressed(z, old(buffer.Readable()));
            && (out == null <==> c.None?)
            && (out != null ==> Plain(out) && out.data != null && out.Readable() == c.value)
    ensures out != null ==> out == buffer || fresh(out)
  {
    ghost var bytes := buffer.Readable();
    var kind := ReadByte(buffer);
    if kind == COMPRESSION_NONE {
      return buffer;
    }
    if kind == COMPRESSION_ZSTANDARD && z.available {
      var unpacked := z.decompress(buffer.data[buffer.readCursor..buffer.writeCursor]);
      if unpacked.None? {
        return null;
      }
      out := Fresh(0, unpacked.value, []);
      return;
    }
    return null;
  }

  // ReadInt<uint8_t>, which reads zero from an empty buffer and flags it.
  method ReadByte(buffer: Buffer) returns (b: byte)
    requires Plain(buffer) && buffer.data != null
    modifies buffer`readCursor, buffer`lastError
    ensures Plain(buffer)
    ensures old(buffer.Readable()) == [] ==> b == 0 && buffer.Readable() == []
    ensures old(buffer.Readable()) != [] ==> b == old(buffer.Readable())[0] && buffer.Readable() == old(buffer.Readable())[1..]
    ensures buffer.readCursor <= buffer.writeCursor
  {
    ghost var bytes := buffer.Readable();
    ghost var at := buffer.readCursor;
    if buffer.ReadableBytes() == 0 {
      var _ := buffer.ReadNumber(1);
      return 0;
    }
    assert buffer.Written()[at..at + 1] == [bytes[0]];
    var value := buffer.ReadNumber(1);
    assert FromLittle([bytes[0]]) == bytes[0] == FromBig([bytes[0]]);
    return value;
  }

  // --- The encryption layer, past its handshake --------------------------------------------

  method WriteCounter(counter: nat) returns (out: Bin)
    ensures out == Big(counter, COUNTER_LEN)
  {
    out := [];
    for i := 0 to COUNTER_LEN
      invariant out == Big(counter, COUNTER_LEN)[..i]
    {
      BigAt(counter, COUNTER_LEN, i);
      out := out + [Shifted(counter, COUNTER_LEN - 1 - i) % 256];
    }
  }

  method ReadCounter(s: Bin) returns (counter: nat)
    requires |s| == COUNTER_LEN
    ensures counter == FromBig(s)
  {
    counter := 0;
    for i := 0 to COUNTER_LEN
      invariant counter == FromBig(s[..i])
    {
      assert s[..i + 1][..i] == s[..i];
      counter := counter * 256 + s[i];
    }
    assert s[..COUNTER_LEN] == s;
  }

  class EncryptionLayer {
    const aead: Aead
    var enableEncryption: bool
    var keyFilled: bool
    var txKey: Bin
    var rxKey: Bin
    var txSalt: Bin
    var rxSalt: Bin
    var txCounters: seq<nat>
    var rxReplay: seq<ReplayWindow>

    ghost predicate Valid()
      reads this, rxReplay
    {
      && (forall i, j | 0 <= i < j < |rxReplay| :: rxReplay[i] != rxReplay[j])
      && (forall i | 0 <= i < |rxReplay| :: rxReplay[i].Valid())
    }

    ghost function Tx(): Tx
      reads this
    {
      SessionCipher.Tx.Tx(enableEncryption, txKey, txSalt, txCounters)
    }

    ghost function Rx(): Rx
      reads this, rxReplay
    {
      SessionCipher.Rx.Rx(keyFilled, rxKey, rxSalt, Windows())
    }

    ghost function Windows(): (w: seq<Window>)
      reads this, rxReplay
      ensures |w| == |rxReplay| && forall i | 0 <= i < |w| :: w[i] == rxReplay[i].Value()
    {
      seq(|rxReplay|, i requires 0 <= i < |rxReplay| reads this, rxReplay => rxReplay[i].Value())
    }

    constructor (aead: Aead)
      ensures Valid() && this.aead == aead && Tx().counters == [] && Rx().windows == [] && !enableEncryption && !keyFilled
    {
      this.aead := aead;
      enableEncryption, keyFilled := false, false;
      txKey, rxKey, txSalt, rxSalt := [], [], [0, 0, 0, 0], [0, 0, 0, 0];
      txCounters, rxReplay := [], [];
    }

    /** The stream's replay window, made on demand. */
    method RxWindow(stream: byte) returns (w: ReplayWindow)
      requires Valid()
      modifies this`rxReplay
      ensures Valid() && old(rxReplay) <= rxReplay && stream < |rxReplay| && w == rxReplay[stream]
      ensures forall i | |old(rxReplay)| <= i < |rxReplay| :: fresh(rxReplay[i])
      ensures Windows() == Padded(old(Windows()), stream, FRESH)
    {
      hide ReplayWindow.Valid, ReplayWindow.Value;
      while |rxReplay| <= stream
        invariant Valid() && old(rxReplay) <= rxReplay
        invariant |rxReplay| <= stream + 1 || rxReplay == old(rxReplay)
        invariant forall i | |old(rxReplay)| <= i < |rxReplay| :: fresh(rxReplay[i]) && rxReplay[i].Value() == FRESH
      {
        var next := new ReplayWindow();
        rxReplay := rxReplay + [next];
      }
      w := rxReplay[stream];
    }

    /** Encrypts one message, or marks it as plaintext, in a buffer ready for the transport. */
    method HandleOut(buffer: Buffer, stream: byte) returns (out: Buffer?)
      requires Lawful(aead) && Plain(buffer)
      modifies this`txCounters, buffer`readCursor, buffer.data
      ensures var r := Sealed(aead, old(Tx()), old(buffer.Readable()), stream);
              && Tx() == r.tx && (out == null <==> r.wire.None?)
              && (out != null ==> Plain(out) && out.data != null && out.Readable() == r.wire.value)
    {
      hide Lawful, GcmEnvelope, Nonce, Padded;
      if buffer.ReadableBytes() > MAX_MESSAGE {
        return null;
      }
      if !enableEncryption {
        out := Tagged(buffer, MODE_PLAINTEXT, 2);
        return;
      }
      var message: Bin := [];
      if buffer.data != null {
        message := buffer.data[buffer.readCursor..buffer.writeCursor];
      }
      assert message == buffer.Readable();
      out := SealGcm(message, stream);
    }

    // One message sealed under the stream's next counter.
    method SealGcm(message: Bin, stream: byte) returns (out: Buffer?)
      requires Lawful(aead) && enableEncryption && |message| <= MAX_MESSAGE
      modifies this`txCounters
      ensures var r := Sealed(aead, old(Tx()), message, stream);
              && Tx() == r.tx && (out == null <==> r.wire.None?)
              && (out != null ==> fresh(out) && Plain(out) && out.data != null && out.Readable() == r.wire.value)
    {
      hide Nonce, GcmEnvelope;
      if stream >= |txCounters| {
        txCounters := Padded(txCounters, stream, 0);
      }
      var counter := txCounters[stream];
      if counter == MAX_COUNTER {
        return null;
      }
      txCounters := txCounters[stream := counter + 1];
      var sealed := aead.seal(txKey, Nonce(txSalt, stream, counter), [MODE_AES_GCM], message);
      if sealed.None? {
        return null;
      }
      out := Enveloped(stream, counter, sealed.value);
    }

    // The wire layout: mode, room for stream and counter, the sealed text, and the header filled in
    // last.
    method Enveloped(stream: byte, counter: nat, sealed: Bin) returns (out: Buffer)
      requires |sealed| <= MAX_MESSAGE + TAG_LEN
      ensures fresh(out) && Plain(out) && out.data != null && out.Readable() == GcmEnvelope(stream, counter, sealed)
    {
      var blank: Bin := seq(1 + COUNTER_LEN, _ => 0);
      out := Fresh(2, [MODE_AES_GCM] + blank, sealed);
      ghost var draft := out.data[..];
      var headerPos, end := 3, out.writeCursor;
      var digits := WriteCounter(counter);
      out.writeCursor := headerPos;
      out.Write([stream] + digits);
      out.writeCursor := end;
      Backfilled(draft, out.data[..], 2, end, [MODE_AES_GCM], blank, [stream] + digits, sealed);
    }

    /** Decrypts one message. Only a message whose tag verified moves a replay window. */
    method HandleDecrypt(buffer: Buffer) returns (out: Buffer?)
      requires Valid() && Plain(buffer) && buffer.data != null
      requires AeadFits(aead)
      modifies this`rxReplay, rxReplay, buffer`readCursor, buffer`lastError
      ensures Valid()
      ensures var r := Opened(aead, old(Rx()), old(buffer.Readable()));
              && Rx() == r.rx && (out == null <==> r.plain.None?)
              && (out != null ==> Plain(out) && out.data != null && out.Readable() == r.plain.value)
      ensures out != null ==> out == buffer || fresh(out)
    {
      hide Accepted, Nonce, FromBig, Padded, AeadFits, EncryptionLayer.Valid, EncryptionLayer.Windows;
      var mode := ReadByte(buffer);
      if mode == MODE_PLAINTEXT {
        if keyFilled {
          return null;
        }
        return buffer;
      }
      if mode != MODE_AES_GCM || !keyFilled || buffer.ReadableBytes() < 1 + COUNTER_LEN + TAG_LEN {
        return null;
      }
      out := OpenGcm(buffer);
    }

    // The message past its mode byte: header, sealed text, tag.
    method OpenGcm(buffer: Buffer) returns (out: Buffer?)
      requires Valid() && Plain(buffer) && buffer.data != null && AeadFits(aead)
      requires keyFilled && |buffer.Readable()| >= 1 + COUNTER_LEN + TAG_LEN
      modifies this`rxReplay, rxReplay, buffer`readCursor
      ensures Valid()
      ensures var r := Opened(aead, old(Rx()), [MODE_AES_GCM] + old(buffer.Readable()));
              && Rx() == r.rx && (out == null <==> r.plain.None?)
              && (out != null ==> fresh(out) && Plain(out) && out.data != null && out.Readable() == r.plain.value)
    {
      hide Opened, Accepted, Nonce, FromBig, AeadFits, EncryptionLayer.Valid, EncryptionLayer.Windows;
      ghost var rest := buffer.Readable();
      OpenedParts(aead, Rx(), rest);
      var text := buffer.data[buffer.readCursor..buffer.writeCursor];
      assert text == rest;
      var stream, digits, sealed := text[0], text[1..1 + COUNTER_LEN], text[1 + COUNTER_LEN..];
      var counter := ReadCounter(digits);
      var plain := aead.open(rxKey, Nonce(rxSalt, stream, counter), [MODE_AES_GCM], sealed);
      buffer.readCursor := buffer.writeCursor;
      if plain.None? {
        return null;
      }
      assert |plain.value| <= NO_LIMIT by { OpenFits(aead, rxKey, Nonce(rxSalt, stream, counter), [MODE_AES_GCM], sealed); }
      out := Admit(stream, counter, plain.value);
    }

    // A verified message in a buffer of its own, if its counter is new.
    method Admit(stream: byte, counter: nat, plain: Bin) returns (out: Buffer?)
      requires Valid() && |plain| <= NO_LIMIT
      modifies this`rxReplay, rxReplay
      ensures Valid()
      ensures var windows := Padded(old(Windows()), stream, FRESH);
              var v := Accepted(windows[stream], counter);
              && Windows() == windows[stream := v.window] && (out != null <==> v.ok)
              && (out != null ==> fresh(out) && Plain(out) && out.data != null && out.Readable() == plain)
    {
      hide Accepted, EncryptionLayer.Valid, EncryptionLayer.Windows;
      var ok := Judge(stream, counter);
      if !ok {
        return null;
      }
      out := Fresh(0, plain, []);
    }

    // Whether a verified message's counter is new on its stream.
    method Judge(stream: byte, counter: nat) returns (ok: bool)
      requires Valid()
      modifies this`rxReplay, rxReplay
      ensures Valid()
      ensures var windows := Padded(old(Windows()), stream, FRESH);
              var v := Accepted(windows[stream], counter);
              ok == v.ok && Windows() == windows[stream := v.window]
    {
      hide Accepted;
      var window := RxWindow(stream);
      ghost var windows := Windows();
      ok := window.Accept(counter);
      assert Windows() == windows[stream := window.Value()];
    }
  }

  lemma OpenFits(a: Aead, k: Bin, n: Bin, d: Bin, c: Bin)
    requires AeadFits(a) && a.open(k, n, d, c).Some?
    ensures |a.open(k, n, d, c).value| <= NO_LIMIT
  {
  }

  // --- The pipeline ------------------------------------------------------------------------

  // Packet to wire bytes, and the cipher state after it.
  function Encoded<P>(c: Codec<P>, z: Zstd, kind: byte, threshold: nat, a: Aead, tx: Tx, p: P, stream: byte): Out
    requires Significant(c.idOf(p)) < 256
  {
    if c.idOf(p) !in c.ids || c.write(p).Nothing? then Out(None, tx)
    else
      var frame := FrameOf(c.idOf(p), BodyOf(c, p));
      match Compressed(z, if |frame| < threshold then COMPRESSION_NONE else kind, frame)
      case None => Out(None, tx)
      case Some(m) => Sealed(a, tx, m, stream)
  }

  function Decoded(z: Zstd, a: Aead, rx: Rx, wire: Bin): In
  {
    var text := Opened(a, rx, wire);
    if text.plain.None? then text else In(Decompressed(z, text.plain.value), text.rx)
  }

  class MessagePipeline<!P> {
    const encryption: EncryptionLayer
    const codec: Codec<P>
    const zstd: Zstd
    var outCompression: byte
    var compressionThreshold: nat

    constructor (encryption: EncryptionLayer, codec: Codec<P>, zstd: Zstd)
      ensures this.encryption == encryption && this.codec == codec && this.zstd == zstd
      ensures outCompression == COMPRESSION_NONE && compressionThreshold == 128
    {
      this.encryption, this.codec, this.zstd := encryption, codec, zstd;
      outCompression, compressionThreshold := COMPRESSION_NONE, 128;
    }

    method Encode(p: P, stream: byte) returns (out: Buffer?)
      requires codec.idOf(p) < Range(8) && |BodyOf(codec, p)| <= MAX_MEMORY
      requires Lawful(encryption.aead) && ZstdFits(zstd)
      modifies encryption`txCounters
      ensures Significant(codec.idOf(p)) < 256
      ensures var r := Encoded(codec, zstd, outCompression, compressionThreshold, encryption.aead,
                               old(encryption.Tx()), p, stream);
              && encryption.Tx() == r.tx && (out == null <==> r.wire.None?)
              && (out != null ==> Plain(out) && out.data != null && out.Readable() == r.wire.value)
    {
      hide Compressed, Sealed, Lawful, ZstdFits, FrameOf, Range, Significant;
      var serialized := Serialize(codec, p, SEND_HEADROOM);
      if serialized == null {
        return null;
      }
      FrameFits(codec, p);
      assert serialized.Readable() == serialized.Message();
      var kind := outCompression;
      if serialized.ReadableBytes() < compressionThreshold {
        kind := COMPRESSION_NONE;
      }
      var packed := CompressOut(zstd, kind, serialized);
      if packed == null {
        return null;
      }
      out := encryption.HandleOut(packed, stream);
    }

    method Decode(buffer: Buffer) returns (out: Buffer?)
      requires encryption.Valid() && Plain(buffer) && buffer.data != null
      requires AeadFits(encryption.aead) && ZstdFits(zstd)
      modifies encryption`rxReplay, encryption.rxReplay, buffer`readCursor, buffer`lastError
      ensures encryption.Valid()
      ensures var r := Decoded(zstd, encryption.aead, old(encryption.Rx()), old(buffer.Readable()));
              && encryption.Rx() == r.rx && (out == null <==> r.plain.None?)
              && (out != null ==> Plain(out) && out.Readable() == r.plain.value)
    {
      hide Opened, Decompressed, AeadFits, ZstdFits;
      var clear := encryption.HandleDecrypt(buffer);
      if clear == null {
        return null;
      }
      out := DecompressIn(zstd, clear);
    }
  }

  lemma FrameFits<P>(c: Codec<P>, p: P)
    requires c.idOf(p) < Range(8) && |BodyOf(c, p)| <= MAX_MEMORY
    ensures Significant(c.idOf(p)) < 256 && 0 < |FrameOf(c.idOf(p), BodyOf(c, p))| < NO_LIMIT - 8
  {
    SignificantFits(c.idOf(p), 8);
  }

  lemma DecompressesCompressed(z: Zstd, kind: byte, m: Bin)
    requires ZstdLawful(z) && Compressed(z, kind, m).Some?
    ensures Decompressed(z, Compressed(z, kind, m).value) == Some(m)
  {
    var bytes := Compressed(z, kind, m).value;
    assert bytes[1..] == if bytes[0] == COMPRESSION_NONE then m else z.compress(m).value;
  }

  /** Decode undoes Encode: for every packet, threshold, compression and encryption setting, what
      comes out of a receiver with the mirrored keys is the serialized frame, provided its replay
      window has not yet passed the message's counter. */
  lemma DecodeUndoesEncode<P>(c: Codec<P>, z: Zstd, kind: byte, threshold: nat, a: Aead, tx: Tx, rx: Rx, p: P, stream: byte)
    requires ZstdLawful(z) && Lawful(a) && TxOk(tx) && c.idOf(p) < Range(8)
    requires tx.enabled == rx.filled && tx.key == rx.key && tx.salt == rx.salt
    ensures Significant(c.idOf(p)) < 256
    ensures var out := Encoded(c, z, kind, threshold, a, tx, p, stream);
            out.wire.Some? && (tx.enabled ==> Accepted(WindowOf(rx, stream), CounterOf(tx, stream)).ok) ==>
              Decoded(z, a, rx, out.wire.value).plain == Some(FrameOf(c.idOf(p), BodyOf(c, p)))
  {
    SignificantFits(c.idOf(p), 8);
    var out := Encoded(c, z, kind, threshold, a, tx, p, stream);
    if out.wire.Some? && (tx.enabled ==> Accepted(WindowOf(rx, stream), CounterOf(tx, stream)).ok) {
      hide Sealed, Opened, Lawful, Compressed, Decompressed, Accepted, FrameOf, Range, Significant;
      var frame := FrameOf(c.idOf(p), BodyOf(c, p));
      var chosen := if |frame| < threshold then COMPRESSION_NONE else kind;
      DecompressesCompressed(z, chosen, frame);
      OpensSealed(a, tx, rx, Compressed(z, chosen, frame).value, stream);
    }
  }

  // The envelope alone, and what a message sent in the clear looks like.
  lemma OpensSealed(a: Aead, tx: Tx, rx: Rx, m: Bin, stream: byte)
    requires Lawful(a) && TxOk(tx)
    requires tx.enabled == rx.filled && tx.key == rx.key && tx.salt == rx.salt
    requires tx.enabled ==> Accepted(WindowOf(rx, stream), CounterOf(tx, stream)).ok
    ensures var out := Sealed(a, tx, m, stream);
            out.wire.Some? ==> Opened(a, rx, out.wire.value).plain == Some(m)
  {
    var out := Sealed(a, tx, m, stream);
    if out.wire.Some? {
      if tx.enabled {
        SealStep(a, tx, Ask(stream, m));
        hide Sealed, Opened, Lawful, Accepted;
        var counter := CounterOf(tx, stream);
        var sent := Message(stream, counter, m, out.wire.value);
        assert SealedAs(a, rx, sent, a.seal(rx.key, Nonce(rx.salt, stream, counter), [MODE_AES_GCM], m).value);
        OpensGenuine(a, rx, sent);
      } else {
        assert ([MODE_PLAINTEXT] + m)[1..] == m;
      }
    }
  }

  /** Which type byte a packet travels under: none below the threshold, at it and above the one set, unless
      that is zstd and there is none. The receiver finds it in front of what it decrypts, and behind it the
      frame itself or what zstd made of it. */
  lemma CompressedByLength<P>(c: Codec<P>, z: Zstd, kind: byte, threshold: nat, a: Aead, tx: Tx, rx: Rx, p: P, stream: byte)
    requires Lawful(a) && TxOk(tx) && c.idOf(p) < Range(8)
    requires tx.enabled == rx.filled && tx.key == rx.key && tx.salt == rx.salt
    requires tx.enabled ==> Accepted(WindowOf(rx, stream), CounterOf(tx, stream)).ok
    ensures Significant(c.idOf(p)) < 256
    ensures var out := Encoded(c, z, kind, threshold, a, tx, p, stream);
            var frame := FrameOf(c.idOf(p), BodyOf(c, p));
            out.wire.Some? ==>
              var got := Opened(a, rx, out.wire.value).plain;
              && got.Some? && got.value != []
              && (|frame| < threshold || kind == 0 || (kind == 1 && !z.available) ==> got.value == [0] + frame)
              && (|frame| >= threshold && kind == 1 && z.available ==>
                    z.compress(frame).Some? && got.value == [1] + z.compress(frame).value)
              && (|frame| >= threshold ==> kind == 0 || kind == 1)
  {
    SignificantFits(c.idOf(p), 8);
    var out := Encoded(c, z, kind, threshold, a, tx, p, stream);
    hide Sealed, Opened, Lawful, Accepted, FrameOf, Range, Significant;
    if out.wire.Some? {
      var frame := FrameOf(c.idOf(p), BodyOf(c, p));
      var m := Compressed(z, if |frame| < threshold then COMPRESSION_NONE else kind, frame);
      OpensSealed(a, tx, rx, m.value, stream);
    }
  }

  /** End to end: the receiver's codec hands on exactly the packet that was sent. */
  lemma PacketSurvives<P>(c: Codec<P>, z: Zstd, kind: byte, threshold: nat, a: Aead, tx: Tx, rx: Rx, p: P, stream: byte)
    requires ZstdLawful(z) && Lawful(a) && TxOk(tx) && RoundTrips(c, p)
    requires tx.enabled == rx.filled && tx.key == rx.key && tx.salt == rx.salt
    ensures Significant(c.idOf(p)) < 256
    ensures var out := Encoded(c, z, kind, threshold, a, tx, p, stream);
            out.wire.Some? && (tx.enabled ==> Accepted(WindowOf(rx, stream), CounterOf(tx, stream)).ok) ==>
              var payload := Decoded(z, a, rx, out.wire.value).plain;
              && payload.Some?
              && var got := DecodeFrom(c, payload.value, 0, NO_LIMIT, NoError);
                 got.handled == [p] && got.invalid == 0 && !got.lost
  {
    DecodeUndoesEncode(c, z, kind, threshold, a, tx, rx, p, stream);
    hide Encoded, Decoded, FrameOf, Lawful, ZstdLawful, Accepted, DecodeFrom, RoundTrips;
    FrameDecodes(c, p);
  }

  lemma FrameDecodes<P>(c: Codec<P>, p: P)
    requires RoundTrips(c, p)
    ensures Significant(c.idOf(p)) < 256
    ensures var got := DecodeFrom(c, FrameOf(c.idOf(p), BodyOf(c, p)), 0, NO_LIMIT, NoError);
            got.handled == [p] && got.invalid == 0 && !got.lost
  {
    FrameFits(c, p);
    hide FrameOf, DecodeFrom, Range, Significant;
    assert [p][1..] == [];
    assert Frames(c, [p]) == FrameOf(c.idOf(p), BodyOf(c, p)) + Frames(c, []);
    assert [] + Frames(c, [p]) == FrameOf(c.idOf(p), BodyOf(c, p));
    DecodesWhatWasEncoded(c, [p], []);
  }
}
