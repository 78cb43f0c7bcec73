/**
 The session handshake: two parties on two first-in-first-out channels, each running the encryption
 layer's handlers. Key exchange and key derivation are functions given from outside; any send may
 fail, any computation may fail and any party may close at any time.
 */
module Handshake {
  import opened Bytes
  import opened Options

  datatype Label = ClientToServer | ServerToClient

  // Private keys, public keys, secrets and key material are numbers here.
  datatype Crypto = Crypto(pub: nat -> nat, shared: (nat, nat) -> nat, derive: (nat, Label) -> nat)

  ghost predicate Lawful(c: Crypto)
  {
    forall x, y :: c.shared(x, c.pub(y)) == c.shared(y, c.pub(x))
  }

  // A stand-in for the exchange.
  function Sums(): Crypto
  {
    Crypto((x: nat) => x + 1, (x: nat, y: nat) => x + y,
           (secret: nat, way: Label) => if way.ClientToServer? then 2 * secret else 2 * secret + 1)
  }

  /** What is asked of the exchange can be met, with a key of its own for either direction. */
  lemma ExchangeCanBeLawful()
    ensures Lawful(Sums())
    ensures forall secret :: Sums().derive(secret, ClientToServer) != Sums().derive(secret, ServerToClient)
  {
  }

  datatype Packet =
    | Handshake(key: Option<nat>, encryption: bool, compression: byte)
    | Ready(magic: bool)  // whether it carries the expected magic
    | App(payload: nat)

  // What is on the wire: sealed under a key, or in the clear.
  datatype Wire = Wire(sealedUnder: Option<nat>, packet: Packet)

  datatype Handler = Handshaking | Absent | Application

  datatype Party = Party(
    initiator: bool,
    alive: bool,
    private: nat,
    wantEncryption: bool,
    peerKey: Option<nat>,
    sentHandshake: bool,
    sentReady: bool,
    enableEncryption: bool,
    negotiated: bool,
    keyFilled: bool,
    txKey: nat,
    rxKey: nat,
    negotiatedCompression: byte,
    outCompression: byte,
    ready: bool,
    handler: Handler)

  // The party after a handler ran, and what it handed to the transport.
  datatype Effect = Effect(party: Party, sent: seq<Wire>)

  function Fresh(initiator: bool, private: nat, want: bool, compression: byte): Party
  {
    Party(initiator, true, private, want, None, false, false, false, false, false, 0, 0,
          if initiator then 0 else compression, 0, false, Handshaking)
  }

  function Envelope(p: Party, packet: Packet): Wire
  {
    Wire(if p.enableEncryption then Some(p.txKey) else None, packet)
  }

  function SendingHandshake(c: Crypto, p: Party): Effect
  {
    var key := if p.initiator || p.wantEncryption then Some(c.pub(p.private)) else None;
    Effect(p.(sentHandshake := true),
           [Envelope(p, Handshake(key, p.wantEncryption, p.negotiatedCompression))])
  }

  function SendingReady(p: Party): Effect
  {
    var q := p.(enableEncryption := p.keyFilled, sentReady := true);
    Effect(q, [Envelope(q, Ready(true))])
  }

  function Answering(c: Crypto, p: Party): Effect
  {
    if !p.sentHandshake then SendingHandshake(c, p)
    else if !p.sentReady then SendingReady(p)
    else Effect(p, [])
  }

  function Keyed(c: Crypto, p: Party, key: nat): Party
  {
    var secret := c.shared(p.private, key);
    p.(peerKey := Some(key), keyFilled := true, negotiated := true,
       txKey := c.derive(secret, if p.initiator then ClientToServer else ServerToClient),
       rxKey := c.derive(secret, if p.initiator then ServerToClient else ClientToServer))
  }

  // fault: computing the secret or deriving from it fails.
  function OnHandshake(c: Crypto, p: Party, m: Packet, fault: bool): Effect
    requires m.Handshake?
  {
    if p.peerKey.Some? || p.keyFilled then Effect(p.(alive := false), [])
    else if p.initiator then
      var q := p.(negotiatedCompression := m.compression);
      if !m.encryption then
        var s := q.(negotiated := true);
        if !s.sentReady then SendingReady(s) else Effect(s, [])
      else if m.key.None? then Effect(q.(alive := false), [])
      else if fault then Effect(q.(peerKey := m.key, alive := false), [])
      else Answering(c, Keyed(c, q, m.key.value))
    else if !p.wantEncryption then Answering(c, p.(negotiated := true))
    else if m.key.None? then Effect(p.(alive := false), [])
    else if fault then Effect(p.(peerKey := m.key, alive := false), [])
    else Answering(c, Keyed(c, p, m.key.value))
  }

  function OnReady(p: Party, magic: bool): Effect
  {
    if !p.negotiated || !magic then Effect(p.(alive := false), [])
    else
      var e := if p.sentReady then Effect(p, []) else SendingReady(p);
      var q := e.party.(handler := Absent);
      Effect(if !q.alive then q
             else q.(ready := true,
                     outCompression := if q.negotiatedCompression != 0 then q.negotiatedCompression
                                       else q.outCompression),
             e.sent)
  }

  // HandleDecrypt's gate: in the clear only before keys exist, sealed only under the right one.
  predicate Passes(p: Party, w: Wire)
  {
    match w.sealedUnder
    case None => !p.keyFilled
    case Some(key) => p.keyFilled && key == p.rxKey
  }

  function Handled(c: Crypto, p: Party, m: Packet, fault: bool): Effect
  {
    if !p.handler.Handshaking? then Effect(p, [])
    else
      match m
      case Handshake(_, _, _) => OnHandshake(c, p, m, fault)
      case Ready(magic) => OnReady(p, magic)
      case App(_) => Effect(p, [])
  }

  // --- What one party keeps, whoever it talks to -------------------------------------------

  // The keys a party of that role shares with the owner of a public key.
  ghost predicate KeyedWith(c: Crypto, p: Party, key: nat)
  {
    var secret := c.shared(p.private, key);
    && p.txKey == c.derive(secret, if p.initiator then ClientToServer else ServerToClient)
    && p.rxKey == c.derive(secret, if p.initiator then ServerToClient else ClientToServer)
  }

  // A party and everything it has sent: at most its handshake, in the clear, and then its ready
  // message, sealed exactly if it encrypts from there on; and it encrypts only under keys it shares
  // with the owner of the key it was offered.
  ghost predicate Sound(c: Crypto, p: Party, sent: seq<Wire>)
  {
    && |sent| == (if p.sentHandshake then 1 else 0) + (if p.sentReady then 1 else 0)
    && (p.sentReady || p.initiator || p.negotiated ==> p.sentHandshake)
    && (p.sentReady ==> p.negotiated && sent[1] == Wire(if p.enableEncryption then Some(p.txKey) else None, Ready(true)))
    && (p.sentHandshake ==> sent[0].sealedUnder.None? && OffersKey(c, p, sent[0].packet))
    && (p.enableEncryption ==> p.sentReady && p.keyFilled)
    && (p.keyFilled ==> p.negotiated && p.peerKey.Some? && KeyedWith(c, p, p.peerKey.value))
    && (p.ready ==> p.sentReady && !p.handler.Handshaking?)
  }

  ghost predicate OffersKey(c: Crypto, p: Party, m: Packet)
  {
    && m.Handshake? && m.encryption == p.wantEncryption
    && m.key == if p.initiator || p.wantEncryption then Some(c.pub(p.private)) else None
  }

  // Settling on the clear, or on keys, and answering.
  lemma ClearKeepsSound(c: Crypto, p: Party, sent: seq<Wire>)
    requires Sound(c, p, sent)
    ensures var e := Answering(c, p.(negotiated := true)); Sound(c, e.party, sent + e.sent)
  {
    assert sent + [] == sent;
  }

  lemma KeysKeepSound(c: Crypto, p: Party, sent: seq<Wire>, key: nat)
    requires Sound(c, p, sent) && !p.keyFilled
    ensures var e := Answering(c, Keyed(c, p, key)); Sound(c, e.party, sent + e.sent)
  {
    assert sent + [] == sent;
  }

  /** Whatever packet arrives, honest or not, and whatever fails, a party's conversation stays sound. */
  lemma HandledKeepsSound(c: Crypto, p: Party, sent: seq<Wire>, m: Packet, fault: bool)
    requires Sound(c, p, sent)
    ensures var e := Handled(c, p, m, fault); Sound(c, e.party, sent + e.sent)
  {
    if p.handler.Handshaking? {
      match m
      case Handshake(_, _, _) => HandshakeKeepsSound(c, p, sent, m, fault);
      case Ready(magic) => ReadyKeepsSound(c, p, sent, magic);
      case App(_) => assert sent + [] == sent;
    } else {
      assert sent + [] == sent;
    }
  }

  lemma ReadyKeepsSound(c: Crypto, p: Party, sent: seq<Wire>, magic: bool)
    requires Sound(c, p, sent)
    ensures var e := OnReady(p, magic); Sound(c, e.party, sent + e.sent)
  {
    assert sent + [] == sent;
  }

  lemma HandshakeKeepsSound(c: Crypto, p: Party, sent: seq<Wire>, m: Packet, fault: bool)
    requires Sound(c, p, sent) && m.Handshake?
    ensures var e := OnHandshake(c, p, m, fault); Sound(c, e.party, sent + e.sent)
  {
    assert sent + [] == sent;
    if p.peerKey.Some? || p.keyFilled {
    } else if p.initiator {
      var q := p.(negotiatedCompression := m.compression);
      ClearKeepsSound(c, q, sent);
      if m.key.Some? {
        KeysKeepSound(c, q, sent, m.key.value);
      }
    } else {
      ClearKeepsSound(c, p, sent);
      if m.key.Some? {
        KeysKeepSound(c, p, sent, m.key.value);
      }
    }
    hide Answering, Keyed, KeyedWith;
  }

  // --- Whose policy decides, whoever it talks to -------------------------------------------

  // What the packets a party handled have said: that the session is to be encrypted; that the other
  // side is ready.
  datatype Heard = Heard(asked: bool, confirmed: bool)

  function Hearing(h: Heard, m: Packet): Heard
  {
    match m
    case Handshake(_, encryption, _) => h.(asked := h.asked || encryption)
    case Ready(magic) => h.(confirmed := h.confirmed || magic)
    case App(_) => h
  }

  // An acceptor encrypts exactly if it wants to, and then seals everything after its handshake. An
  // initiator, until it gives up, has keys exactly if it was asked to encrypt. Neither is ready before
  // the other side said it is.
  ghost predicate Policy(p: Party, sent: seq<Wire>, h: Heard)
  {
    && (!p.initiator && p.negotiated ==> p.keyFilled == p.wantEncryption)
    && (!p.initiator && p.keyFilled ==> p.wantEncryption)
    && (!p.initiator && p.sentReady ==> p.enableEncryption == p.wantEncryption)
    && (!p.initiator && p.wantEncryption ==> forall k | 1 <= k < |sent| :: sent[k].sealedUnder == Some(p.txKey))
    && (p.initiator && p.keyFilled ==> h.asked)
    && (p.initiator && p.alive ==> p.keyFilled == h.asked)
    && (p.ready ==> h.confirmed)
  }

  // The mode a handshake settles on: the acceptor's own policy, the initiator's instructions.
  predicate ToEncrypt(p: Party, m: Packet)
    requires m.Handshake?
  {
    if p.initiator then m.encryption else p.wantEncryption
  }

  // Asked to encrypt and given no key, or unable to use it, a party says nothing and gives up; one that
  // has taken a key already gives up at any other handshake.
  ghost predicate GivesUp(p: Party, m: Packet, fault: bool)
    requires m.Handshake?
  {
    p.peerKey.Some? || p.keyFilled || (ToEncrypt(p, m) && (m.key.None? || fault))
  }

  // What a handshake does to the policy and to the party.
  ghost predicate Decides(c: Crypto, p: Party, sent: seq<Wire>, h: Heard, m: Packet, fault: bool)
    requires m.Handshake?
  {
    var e := OnHandshake(c, p, m, fault);
    && Policy(e.party, sent + e.sent, Hearing(h, m))
    && (if GivesUp(p, m, fault)
        then !e.party.alive && e.sent == [] && e.party.keyFilled == p.keyFilled && e.party.negotiated == p.negotiated
        else e.party.negotiated && e.party.keyFilled == ToEncrypt(p, m) && e.party.alive == p.alive)
  }

  lemma InitiatorKeepsPolicy(c: Crypto, p: Party, sent: seq<Wire>, h: Heard, m: Packet, fault: bool)
    requires Sound(c, p, sent) && Policy(p, sent, h) && m.Handshake? && p.initiator
    ensures Decides(c, p, sent, h, m, fault)
  {
    hide KeyedWith, OffersKey;
    assert sent + [] == sent;
  }

  lemma AcceptorKeepsPolicy(c: Crypto, p: Party, sent: seq<Wire>, h: Heard, m: Packet, fault: bool)
    requires Sound(c, p, sent) && Policy(p, sent, h) && m.Handshake? && !p.initiator
    ensures Decides(c, p, sent, h, m, fault)
  {
    hide KeyedWith, OffersKey;
    assert sent + [] == sent;
  }

  lemma HandshakeKeepsPolicy(c: Crypto, p: Party, sent: seq<Wire>, h: Heard, m: Packet, fault: bool)
    requires Sound(c, p, sent) && Policy(p, sent, h) && m.Handshake?
    ensures Decides(c, p, sent, h, m, fault)
  {
    hide Sound, Policy, Decides;
    if p.initiator {
      InitiatorKeepsPolicy(c, p, sent, h, m, fault);
    } else {
      AcceptorKeepsPolicy(c, p, sent, h, m, fault);
    }
  }

  lemma ReadyKeepsPolicy(c: Crypto, p: Party, sent: seq<Wire>, h: Heard, magic: bool)
    requires Sound(c, p, sent) && Policy(p, sent, h)
    ensures var e := OnReady(p, magic);
            && Policy(e.party, sent + e.sent, Hearing(h, Ready(magic)))
            && (!p.negotiated || !magic ==> !e.party.alive && e.sent == [] && e.party.ready == p.ready)
  {
    hide KeyedWith, OffersKey;
    assert sent + [] == sent;
  }

  // A party, everything it sent and what it heard.
  datatype Talk = Talk(p: Party, sent: seq<Wire>, heard: Heard)

  function Opening(c: Crypto, initiator: bool, private: nat, want: bool, compression: byte): Talk
  {
    var start := Fresh(initiator, private, want, compression);
    var e := if initiator then SendingHandshake(c, start) else Effect(start, []);
    Talk(e.party, e.sent, Heard(false, false))
  }

  function Continuing(c: Crypto, t: Talk, w: Wire, fault: bool): Talk
  {
    if !Passes(t.p, w) || !t.p.handler.Handshaking? then t
    else
      var e := Handled(c, t.p, w.packet, fault);
      Talk(e.party, t.sent + e.sent, Hearing(t.heard, w.packet))
  }

  // After any messages whatever, each with whether computing on it fails.
  function AfterAll(c: Crypto, t: Talk, ms: seq<(Wire, bool)>): Talk
    decreases |ms|
  {
    if ms == [] then t else AfterAll(c, Continuing(c, t, ms[0].0, ms[0].1), ms[1..])
  }

  lemma ContinuingKeeps(c: Crypto, t: Talk, w: Wire, fault: bool)
    requires Sound(c, t.p, t.sent) && Policy(t.p, t.sent, t.heard)
    ensures var u := Continuing(c, t, w, fault); Sound(c, u.p, u.sent) && Policy(u.p, u.sent, u.heard)
    ensures var u := Continuing(c, t, w, fault);
            u.p.initiator == t.p.initiator && u.p.wantEncryption == t.p.wantEncryption
  {
    if Passes(t.p, w) && t.p.handler.Handshaking? {
      HandledKeepsSound(c, t.p, t.sent, w.packet, fault);
      hide Sound, Policy;
      match w.packet
      case Handshake(_, _, _) => HandshakeKeepsPolicy(c, t.p, t.sent, t.heard, w.packet, fault);
      case Ready(magic) => ReadyKeepsPolicy(c, t.p, t.sent, t.heard, magic);
      case App(_) => assert t.sent + [] == t.sent;
    }
  }

  lemma {:induction false} TalkKeeps(c: Crypto, t: Talk, ms: seq<(Wire, bool)>)
    requires Sound(c, t.p, t.sent) && Policy(t.p, t.sent, t.heard)
    ensures var u := AfterAll(c, t, ms); Sound(c, u.p, u.sent) && Policy(u.p, u.sent, u.heard)
    ensures var u := AfterAll(c, t, ms);
            u.p.initiator == t.p.initiator && u.p.wantEncryption == t.p.wantEncryption
    decreases |ms|
  {
    if ms != [] {
      hide Sound, Policy, Continuing;
      ContinuingKeeps(c, t, ms[0].0, ms[0].1);
      TalkKeeps(c, Continuing(c, t, ms[0].0, ms[0].1), ms[1..]);
    }
  }

  /** Whatever messages come, honest or not, and whatever fails: an acceptor that wants encryption and has
      settled on a mode has keys, when ready it encrypts, and after its handshake it never sends anything
      in the clear; one that does not want it never encrypts. */
  lemma AcceptorPolicyHolds(c: Crypto, private: nat, want: bool, compression: byte, ms: seq<(Wire, bool)>)
    ensures var t := AfterAll(c, Opening(c, false, private, want, compression), ms);
            && (t.p.negotiated ==> t.p.keyFilled == want)
            && (t.p.ready ==> t.p.enableEncryption == want && t.heard.confirmed)
            && (want ==> forall k | 1 <= k < |t.sent| :: t.sent[k].sealedUnder == Some(t.p.txKey))
            && (!want ==> forall k | 0 <= k < |t.sent| :: t.sent[k].sealedUnder.None?)
  {
    TalkKeeps(c, Opening(c, false, private, want, compression), ms);
    hide AfterAll;
  }

  /** And an initiator that has not given up has keys exactly if some handshake it handled asked for
      encryption. */
  lemma InitiatorFollows(c: Crypto, private: nat, want: bool, compression: byte, ms: seq<(Wire, bool)>)
    ensures var t := AfterAll(c, Opening(c, true, private, want, compression), ms);
            && (t.p.alive ==> t.p.keyFilled == t.heard.asked)
            && (t.p.enableEncryption ==> t.heard.asked)
            && (t.p.ready ==> t.heard.confirmed)
  {
    TalkKeeps(c, Opening(c, true, private, want, compression), ms);
    hide AfterAll;
  }

  /** Two parties of opposite roles that took each other's public keys hold each other's keys. */
  lemma KeysMirror(c: Crypto, i: Party, a: Party)
    requires Lawful(c) && i.initiator && !a.initiator
    requires KeyedWith(c, i, c.pub(a.private)) && KeyedWith(c, a, c.pub(i.private))
    ensures i.txKey == a.rxKey && i.rxKey == a.txKey
  {
    assert c.shared(i.private, c.pub(a.private)) == c.shared(a.private, c.pub(i.private));
  }

  // --- The handlers as the layer runs them -------------------------------------------------

  // The encryption layer up to the moment it is ready, with the session fields it sets.
  class KeyExchange {
    const crypto: Crypto
    var p: Party
    var sent: seq<Wire>  // everything handed to the transport
    ghost var heard: Heard

    ghost predicate Valid()
      reads this
    {
      Sound(crypto, p, sent) && Policy(p, sent, heard)
    }

    constructor (crypto: Crypto, initiator: bool, private: nat, want: bool, compression: byte)
      ensures Valid() && this.crypto == crypto && heard == Heard(false, false)
      ensures var start := Fresh(initiator, private, want, compression);
              Effect(p, sent) == if initiator then SendingHandshake(crypto, start) else Effect(start, [])
    {
      this.crypto := crypto;
      p, sent, heard := Fresh(initiator, private, want, compression), [], Heard(false, false);
      new;
      if initiator {
        SendHandshake();
      }
    }

    method SendHandshake()
      modifies this`p, this`sent
      ensures var e := SendingHandshake(crypto, old(p)); p == e.party && sent == old(sent) + e.sent
    {
      var key := None;
      if p.initiator || p.wantEncryption {
        key := Some(crypto.pub(p.private));
      }
      sent := sent + [Envelope(p, Handshake(key, p.wantEncryption, p.negotiatedCompression))];
      p := p.(sentHandshake := true);
    }

    method SendReady()
      modifies this`p, this`sent
      ensures var e := SendingReady(old(p)); p == e.party && sent == old(sent) + e.sent
    {
      p := p.(enableEncryption := p.keyFilled);
      sent := sent + [Envelope(p, Ready(true))];
      p := p.(sentReady := true);
    }

    // The next message due once the mode is settled.
    method Answer()
      modifies this`p, this`sent
      ensures var e := Answering(crypto, old(p)); p == e.party && sent == old(sent) + e.sent
    {
      if !p.sentHandshake {
        SendHandshake();
      } else if !p.sentReady {
        SendReady();
      }
    }

    method DeriveKeys(key: nat)
      modifies this`p
      ensures p == Keyed(crypto, old(p), key)
    {
      p := p.(peerKey := Some(key));
      var secret := crypto.shared(p.private, key);
      var txLabel := if p.initiator then ClientToServer else ServerToClient;
      var rxLabel := if p.initiator then ServerToClient else ClientToServer;
      p := p.(txKey := crypto.derive(secret, txLabel), rxKey := crypto.derive(secret, rxLabel));
      p := p.(keyFilled := true, negotiated := true);
    }

    method OnHandshakePacket(m: Packet, fault: bool)
      requires Valid() && m.Handshake?
      modifies this`p, this`sent, this`heard
      ensures Valid() && heard == Hearing(old(heard), m)
      ensures if GivesUp(old(p), m, fault) then !p.alive && sent == old(sent) && p.keyFilled == old(p).keyFilled
              else p.negotiated && p.keyFilled == ToEncrypt(old(p), m)
      ensures var e := OnHandshake(crypto, old(p), m, fault); p == e.party && sent == old(sent) + e.sent
    {
      HandshakeKeepsSound(crypto, p, sent, m, fault);
      HandshakeKeepsPolicy(crypto, p, sent, heard, m, fault);
      hide SendingReady, Answering, Keyed, Sound, Policy;
      heard := Hearing(heard, m);
      if p.peerKey.Some? || p.keyFilled {
        p := p.(alive := false);
        return;
      }
      if p.initiator {
        p := p.(negotiatedCompression := m.compression);
        if !m.encryption {
          p := p.(negotiated := true);
          if !p.sentReady {
            SendReady();
          }
          return;
        }
      } else {
        if !p.wantEncryption {
          p := p.(negotiated := true);
          Answer();
          return;
        }
      }
      if m.key.None? {
        p := p.(alive := false);
        return;
      }
      if fault {
        p := p.(peerKey := m.key, alive := false);
        return;
      }
      DeriveKeys(m.key.value);
      Answer();
    }

    method OnAcknowledgePacket(magic: bool)
      requires Valid()
      modifies this`p, this`sent, this`heard
      ensures Valid() && heard == Hearing(old(heard), Ready(magic))
      ensures !old(p).negotiated || !magic ==> !p.alive && sent == old(sent) && p.ready == old(p).ready
      ensures var e := OnReady(old(p), magic); p == e.party && sent == old(sent) + e.sent
    {
      ReadyKeepsSound(crypto, p, sent, magic);
      ReadyKeepsPolicy(crypto, p, sent, heard, magic);
      hide Sound, Policy;
      heard := Hearing(heard, Ready(magic));
      if !p.negotiated {
        p := p.(alive := false);
        return;
      }
      if !magic {
        p := p.(alive := false);
        return;
      }
      if !p.sentReady {
        SendReady();
      }
      p := p.(handler := Absent);
      if p.alive {
        if p.negotiatedCompression != 0 {
          p := p.(outCompression := p.negotiatedCompression);
        }
        p := p.(ready := true);
      }
    }

    /** One message off the transport: turned away by the mode and key checks, or handled. */
    method Receive(w: Wire, fault: bool) returns (passed: bool)
      requires Valid()
      modifies this`p, this`sent, this`heard
      ensures Valid() && passed == Passes(old(p), w)
      ensures Talk(p, sent, heard) == Continuing(crypto, Talk(old(p), old(sent), old(heard)), w, fault)
      ensures (if old(p).keyFilled then w.sealedUnder != Some(old(p).rxKey) else w.sealedUnder.Some?) ==>
                !passed && p == old(p) && sent == old(sent)
      ensures var e := if passed then Handled(crypto, old(p), w.packet, fault) else Effect(old(p), []);
              p == e.party && sent == old(sent) + e.sent
    {
      hide Sound, Policy, OnHandshake, OnReady;
      passed := Passes(p, w);
      if !passed || !p.handler.Handshaking? {
        return;
      }
      match w.packet
      case Handshake(_, _, _) => OnHandshakePacket(w.packet, fault);
      case Ready(magic) => OnAcknowledgePacket(magic);
      case App(_) =>
    }
  }

  // --- Two parties -------------------------------------------------------------------------

  datatype Side = Initiator | Acceptor

  datatype World = World(i: Party, a: Party, toA: seq<Wire>, toI: seq<Wire>, dropped: nat)

  // delivered: whether the transport takes what the step sends.
  datatype Action =
    | Open(delivered: bool)
    | Receive(side: Side, delivered: bool, fault: bool)
    | Install(side: Side)
    | Send(side: Side, payload: nat, delivered: bool)
    | Close(side: Side)

  function Me(w: World, side: Side): Party
  {
    if side.Initiator? then w.i else w.a
  }

  function Inbox(w: World, side: Side): seq<Wire>
  {
    if side.Initiator? then w.toI else w.toA
  }

  // The side becomes p, having taken its first message if it did, and having sent something.
  function Updated(w: World, side: Side, p: Party, inbox: seq<Wire>, sent: seq<Wire>): World
  {
    if side.Initiator? then w.(i := p, toI := inbox, toA := w.toA + sent)
    else w.(a := p, toA := inbox, toI := w.toI + sent)
  }

  predicate Enabled(w: World, action: Action)
  {
    match action
    case Open(_) => w.i.alive && !w.i.sentHandshake
    case Receive(side, _, _) => Me(w, side).alive && !Me(w, side).handler.Absent? && Inbox(w, side) != []
    case Install(side) => Me(w, side).ready
    case Send(side, _, _) => Me(w, side).alive && Me(w, side).ready
    case Close(_) => true
  }

  function Apply(c: Crypto, w: World, action: Action): World
    requires Enabled(w, action)
  {
    match action
    case Open(delivered) =>
      var e := SendingHandshake(c, w.i);
      Updated(w, Initiator, e.party, w.toI, if delivered then e.sent else [])
    case Receive(side, delivered, fault) =>
      var p, inbox := Me(w, side), Inbox(w, side);
      if !Passes(p, inbox[0]) then Updated(w, side, p, inbox[1..], []).(dropped := w.dropped + 1)
      else
        var e := Handled(c, p, inbox[0].packet, fault);
        Updated(w, side, e.party, inbox[1..], if delivered then e.sent else [])
    case Install(side) =>
      Updated(w, side, Me(w, side).(handler := Application), Inbox(w, side), [])
    case Send(side, payload, delivered) =>
      Updated(w, side, Me(w, side), Inbox(w, side), if delivered then [Envelope(Me(w, side), App(payload))] else [])
    case Close(side) =>
      Updated(w, side, Me(w, side).(alive := false), Inbox(w, side), [])
  }

  // What the two were configured with.
  datatype Setup = Setup(crypto: Crypto, keyI: nat, keyA: nat, wantI: bool, wantA: bool, compression: byte)

  function Initial(s: Setup): World
  {
    World(Fresh(true, s.keyI, s.wantI, 0), Fresh(false, s.keyA, s.wantA, s.compression), [], [], 0)
  }

  // --- The invariant -----------------------------------------------------------------------

  function C2S(s: Setup): nat { s.crypto.derive(s.crypto.shared(s.keyA, s.crypto.pub(s.keyI)), ClientToServer) }
  function S2C(s: Setup): nat { s.crypto.derive(s.crypto.shared(s.keyA, s.crypto.pub(s.keyI)), ServerToClient) }

  function OfferI(s: Setup): Wire
  {
    Wire(None, Handshake(Some(s.crypto.pub(s.keyI)), s.wantI, 0))
  }

  function OfferA(s: Setup): Wire
  {
    Wire(None, Handshake(if s.wantA then Some(s.crypto.pub(s.keyA)) else None, s.wantA, s.compression))
  }

  // Who the two are does not change.
  ghost predicate Same(s: Setup, w: World)
  {
    && w.i.initiator && !w.a.initiator && w.i.private == s.keyI && w.a.private == s.keyA
    && w.i.wantEncryption == s.wantI && w.a.wantEncryption == s.wantA
    && w.a.negotiatedCompression == s.compression && w.dropped == 0
  }

  // Before a party has agreed to anything. Once closed it may have gone part of the way.
  ghost predicate Blank(p: Party)
  {
    && !p.negotiated && !p.sentReady && !p.enableEncryption && !p.ready && !p.keyFilled && p.outCompression == 0
    && (p.alive ==> p.peerKey.None? && p.handler.Handshaking?)
  }

  // After it has: encrypting exactly when the acceptor wanted to, under the keys of its role.
  ghost predicate Agreed(s: Setup, p: Party)
  {
    && p.negotiated && p.sentHandshake && p.negotiatedCompression == s.compression
    && p.keyFilled == s.wantA
    && (s.wantA ==> p.txKey == (if p.initiator then C2S(s) else S2C(s))
                    && p.rxKey == (if p.initiator then S2C(s) else C2S(s)))
    && p.enableEncryption == (p.sentReady && s.wantA)
    && (p.ready ==> p.sentReady && p.outCompression == s.compression)
    && p.outCompression in {0, s.compression}
    && (!p.sentReady ==> p.handler.Handshaking?)
  }

  // Later traffic in one direction.
  ghost predicate Settled(s: Setup, w: Wire, way: Label)
  {
    && !w.packet.Handshake? && w.packet != Ready(false)
    && w.sealedUnder == if !s.wantA then None else Some(if way.ClientToServer? then C2S(s) else S2C(s))
  }

  ghost predicate AllSettled(s: Setup, ws: seq<Wire>, way: Label)
  {
    forall k | 0 <= k < |ws| :: Settled(s, ws[k], way)
  }

  ghost predicate Inv(s: Setup, w: World)
  {
    && Same(s, w)
    && (
       || (// the acceptor has not answered
           && Blank(w.i) && Blank(w.a) && !w.a.sentHandshake && w.toI == []
           && (w.toA == [] || (w.toA == [OfferI(s)] && w.i.sentHandshake))
           && (!w.i.sentHandshake ==> w.toA == [] && w.i.negotiatedCompression == 0))
       || (// the initiator has not read the answer
           && Blank(w.i) && w.i.sentHandshake && Agreed(s, w.a) && !w.a.sentReady && w.toA == []
           && (w.toI == [] || w.toI == [OfferA(s)]))
       || (// both have agreed
           && Agreed(s, w.i) && Agreed(s, w.a) && w.i.sentReady
           && AllSettled(s, w.toA, ClientToServer) && AllSettled(s, w.toI, ServerToClient)
           && (!w.a.sentReady ==> w.toI == [])))
  }

  lemma InitialInv(s: Setup)
    ensures Inv(s, Initial(s))
  {
  }

  lemma OpenKeepsInv(s: Setup, w: World, delivered: bool)
    requires Inv(s, w) && Enabled(w, Open(delivered))
    ensures Inv(s, Apply(s.crypto, w, Open(delivered)))
  {
  }

  // The acceptor takes the initiator's offer.
  lemma OfferTaken(s: Setup, w: World, delivered: bool, fault: bool)
    requires Inv(s, w) && Enabled(w, Receive(Acceptor, delivered, fault)) && !w.a.negotiated
    ensures Inv(s, Apply(s.crypto, w, Receive(Acceptor, delivered, fault)))
  {
    assert w.toA == [OfferI(s)];
  }

  // The initiator takes the acceptor's decision.
  lemma DecisionTaken(s: Setup, w: World, delivered: bool, fault: bool)
    requires Lawful(s.crypto) && Inv(s, w) && Enabled(w, Receive(Initiator, delivered, fault)) && !w.i.negotiated
    ensures Inv(s, Apply(s.crypto, w, Receive(Initiator, delivered, fault)))
  {
    assert w.toI == [OfferA(s)];
    assert s.crypto.shared(s.keyI, s.crypto.pub(s.keyA)) == s.crypto.shared(s.keyA, s.crypto.pub(s.keyI));
  }

  // Either side takes later traffic.
  lemma LaterTaken(s: Setup, w: World, side: Side, delivered: bool, fault: bool)
    requires Inv(s, w) && Enabled(w, Receive(side, delivered, fault)) && w.i.negotiated
    ensures Inv(s, Apply(s.crypto, w, Receive(side, delivered, fault)))
  {
    if side.Initiator? {
      LaterTakenByInitiator(s, w, delivered, fault);
    } else {
      LaterTakenByAcceptor(s, w, delivered, fault);
    }
  }

  lemma LaterTakenByInitiator(s: Setup, w: World, delivered: bool, fault: bool)
    requires Inv(s, w) && Enabled(w, Receive(Initiator, delivered, fault)) && w.i.negotiated
    ensures Inv(s, Apply(s.crypto, w, Receive(Initiator, delivered, fault)))
  {
    hide OfferI, OfferA, C2S, S2C;
    assert Settled(s, w.toI[0], ServerToClient);
  }

  lemma LaterTakenByAcceptor(s: Setup, w: World, delivered: bool, fault: bool)
    requires Inv(s, w) && Enabled(w, Receive(Acceptor, delivered, fault)) && w.i.negotiated
    ensures Inv(s, Apply(s.crypto, w, Receive(Acceptor, delivered, fault)))
  {
    hide OfferI, OfferA, C2S, S2C;
    assert Settled(s, w.toA[0], ClientToServer);
  }

  lemma StepKeepsInv(s: Setup, w: World, action: Action)
    requires Lawful(s.crypto) && Inv(s, w) && Enabled(w, action)
    ensures Inv(s, Apply(s.crypto, w, action))
  {
    match action
    case Open(delivered) => OpenKeepsInv(s, w, delivered);
    case Receive(side, delivered, fault) =>
      if w.i.negotiated {
        LaterTaken(s, w, side, delivered, fault);
      } else if side.Initiator? {
        DecisionTaken(s, w, delivered, fault);
      } else {
        OfferTaken(s, w, delivered, fault);
      }
    case _ => OwnStepKeepsInv(s, w, action);
  }

  lemma OwnStepKeepsInv(s: Setup, w: World, action: Action)
    requires Inv(s, w) && Enabled(w, action) && !action.Open? && !action.Receive?
    ensures Inv(s, Apply(s.crypto, w, action))
  {
    match action
    case Install(side) => InstallKeepsInv(s, w, side);
    case Send(side, payload, delivered) => SendKeepsInv(s, w, side, payload, delivered);
    case Close(side) => CloseKeepsInv(s, w, side);
  }

  lemma InstallKeepsInv(s: Setup, w: World, side: Side)
    requires Inv(s, w) && Enabled(w, Install(side))
    ensures Inv(s, Apply(s.crypto, w, Install(side)))
  {
    hide OfferI, OfferA, C2S, S2C;
  }

  lemma SendKeepsInv(s: Setup, w: World, side: Side, payload: nat, delivered: bool)
    requires Inv(s, w) && Enabled(w, Send(side, payload, delivered))
    ensures Inv(s, Apply(s.crypto, w, Send(side, payload, delivered)))
  {
    hide OfferI, OfferA, C2S, S2C;
  }

  lemma CloseKeepsInv(s: Setup, w: World, side: Side)
    requires Inv(s, w) && Enabled(w, Close(side))
    ensures Inv(s, Apply(s.crypto, w, Close(side)))
  {
    hide OfferI, OfferA, C2S, S2C;
  }

  // --- Every run ---------------------------------------------------------------------------

  ghost predicate IsRun(c: Crypto, w: World, run: seq<Action>)
    decreases |run|
  {
    run != [] ==> Enabled(w, run[0]) && IsRun(c, Apply(c, w, run[0]), run[1..])
  }

  ghost function End(c: Crypto, w: World, run: seq<Action>): World
    requires IsRun(c, w, run)
    decreases |run|
  {
    if run == [] then w else End(c, Apply(c, w, run[0]), run[1..])
  }

  lemma {:induction false} RunKeepsInv(s: Setup, w: World, run: seq<Action>)
    requires Lawful(s.crypto) && Inv(s, w) && IsRun(s.crypto, w, run)
    ensures Inv(s, End(s.crypto, w, run))
    decreases |run|
  {
    if run != [] {
      hide Inv, Apply, Enabled;
      StepKeepsInv(s, w, run[0]);
      RunKeepsInv(s, Apply(s.crypto, w, run[0]), run[1..]);
    }
  }

  /** Whatever is lost and whoever closes, in every run: when both are ready they encrypt exactly if
      the acceptor wanted to, compress as the acceptor decided and hold each other's keys; and no
      message either of them sent was ever turned away by the other's mode or key check. */
  lemma Agreement(s: Setup, run: seq<Action>)
    requires Lawful(s.crypto) && IsRun(s.crypto, Initial(s), run)
    ensures var w := End(s.crypto, Initial(s), run);
            && w.dropped == 0
            && (w.i.ready && w.a.ready ==>
                  && w.i.enableEncryption == w.a.enableEncryption == s.wantA
                  && w.i.keyFilled == w.a.keyFilled == s.wantA
                  && w.i.outCompression == w.a.outCompression == s.compression
                  && (s.wantA ==> w.i.txKey == w.a.rxKey && w.i.rxKey == w.a.txKey))
  {
    InitialInv(s);
    RunKeepsInv(s, Initial(s), run);
  }

  // What a party sends once ready, the other can read at once, even before it is ready itself.
  lemma ReadyIsUnderstood(s: Setup, run: seq<Action>, side: Side, payload: nat)
    requires Lawful(s.crypto) && IsRun(s.crypto, Initial(s), run)
    ensures var w := End(s.crypto, Initial(s), run);
            Me(w, side).ready ==>
              Passes(Me(w, if side.Initiator? then Acceptor else Initiator), Envelope(Me(w, side), App(payload)))
  {
    InitialInv(s);
    RunKeepsInv(s, Initial(s), run);
  }

  /** And the exchange does complete, for every policy on either side, when nothing fails. */
  lemma Completes(s: Setup)
    requires Lawful(s.crypto)
    ensures var run := [Open(true), Receive(Acceptor, true, false), Receive(Initiator, true, false),
                        Receive(Acceptor, true, false), Receive(Initiator, true, false)];
            && IsRun(s.crypto, Initial(s), run)
            && End(s.crypto, Initial(s), run).i.ready && End(s.crypto, Initial(s), run).a.ready
            && End(s.crypto, Initial(s), run).toI == [] && End(s.crypto, Initial(s), run).toA == []
  {
    var w0 := Initial(s);
    var w1 := Apply(s.crypto, w0, Open(true));
    assert w1.toA == [OfferI(s)];
    var w2 := Apply(s.crypto, w1, Receive(Acceptor, true, false));
    assert w2.toA == [] && w2.toI == [OfferA(s)];
    assert s.crypto.shared(s.keyI, s.crypto.pub(s.keyA)) == s.crypto.shared(s.keyA, s.crypto.pub(s.keyI));
    var w3 := Apply(s.crypto, w2, Receive(Initiator, true, false));
    assert w3.toI == [] && w3.toA == [Wire(if s.wantA then Some(C2S(s)) else None, Ready(true))];
    var w4 := Apply(s.crypto, w3, Receive(Acceptor, true, false));
    assert w4.toA == [] && w4.toI == [Wire(if s.wantA then Some(S2C(s)) else None, Ready(true))] && w4.a.ready;
    var w5 := Apply(s.crypto, w4, Receive(Initiator, true, false));
    assert w5.toI == [] && w5.toA == [] && w5.i.ready && w5.a.ready;
    FiveSteps(s.crypto, w0, w1, w2, w3, w4);
  }

  lemma FiveSteps(c: Crypto, w0: World, w1: World, w2: World, w3: World, w4: World)
    requires Enabled(w0, Open(true)) && w1 == Apply(c, w0, Open(true))
    requires Enabled(w1, Receive(Acceptor, true, false)) && w2 == Apply(c, w1, Receive(Acceptor, true, false))
    requires Enabled(w2, Receive(Initiator, true, false)) && w3 == Apply(c, w2, Receive(Initiator, true, false))
    requires Enabled(w3, Receive(Acceptor, true, false)) && w4 == Apply(c, w3, Receive(Acceptor, true, false))
    requires Enabled(w4, Receive(Initiator, true, false))
    ensures var run := [Open(true), Receive(Acceptor, true, false), Receive(Initiator, true, false),
                        Receive(Acceptor, true, false), Receive(Initiator, true, false)];
            IsRun(c, w0, run) && End(c, w0, run) == Apply(c, w4, Receive(Initiator, true, false))
  {
    hide Apply, Enabled;
    var r4 := [Receive(Initiator, true, false)];
    var w5 := Apply(c, w4, r4[0]);
    assert IsRun(c, w5, []) && IsRun(c, w4, r4) && End(c, w4, r4) == End(c, w5, []) == w5;
    var r3 := [Receive(Acceptor, true, false)] + r4;
    assert r3[1..] == r4;
    assert IsRun(c, w3, r3) && End(c, w3, r3) == w5;
    var r2 := [Receive(Initiator, true, false)] + r3;
    assert r2[1..] == r3;
    assert IsRun(c, w2, r2) && End(c, w2, r2) == w5;
    var r1 := [Receive(Acceptor, true, false)] + r2;
    assert r1[1..] == r2;
    assert IsRun(c, w1, r1) && End(c, w1, r1) == w5;
    var r0 := [Open(true)] + r1;
    assert r0[1..] == r1;
    assert r0 == [Open(true), Receive(Acceptor, true, false), Receive(Initiator, true, false),
                  Receive(Acceptor, true, false), Receive(Initiator, true, false)];
  }
}
