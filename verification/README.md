# znet, modelled and verified in Dafny

znet is a C++ networking library: sessions over TCP or a UDP transport (ZDT), a packet codec, a
compression and encryption pipeline, and a peer-to-peer layer with a rendezvous server, a relay and
a punching agent. This project models the parts that are written against invariants and proves
those invariants, for every input, every interleaving and every run.

| file | what it models |
|---|---|
| `RingPositions.dfy` | the ring's position arithmetic: word-sized distances, masking, slot counts |
| `SendHandoff.dfy` | the lock-free send queue and its drain claim, one shared-memory access a step |
| `Bits.dfy`, `Bytes.dfy`, `Options.dfy` | 64-bit words, byte strings and fixed-width numbers, optional values |
| `AckHistory.dfy` | the ZDT receive bitmap, its run-length report and what the sender reads out of it |
| `Buffer.dfy` | the byte buffer: cursors, read limit, sticky error, variable-length numbers, headroom |
| `Codec.dfy` | packet framing over arbitrary serializers |
| `TcpFraming.dfy` | length-prefixed frames over an arbitrarily segmented stream |
| `ReplayWindow.dfy`, `SessionCipher.dfy` | the anti-replay window, per-stream counters and nonces |
| `Pipeline.dfy` | serialize, compress, encrypt, and back |
| `Session.dfy` | the layers together: packets sent over TCP and handed on at the other end |
| `Handshake.dfy` | the two-party key exchange and mode negotiation |
| `Candidates.dfy`, `Rendezvous.dfy` | candidate lists on the wire; naming, asking and pairing clients |
| `Relay.dfy` | relay allocations, binding, forwarding and expiry |
| `Agent.dfy` | the agent's punch callbacks and routes |
| `Admission.dfy` | allow and deny lists and the attempt throttle |

How to read it. Code that updates objects in place is a class whose methods are proved equal to a
function of the old state; the properties are then lemmas about those functions and about every run
of them. Code that runs under one lock is one step of a state machine. The send queue is not under a
lock, so there each load, store and exchange is a step of its own, and a class, whose method bodies
would be one step, would say less.

Given from outside, as parameters: sockets and what they answer, clocks, random numbers, zstd,
AES-GCM, Diffie-Hellman and HKDF (the last four as functions with the laws their users rely on),
serializers, session health, the punch machine's verdicts. What is asked of them can be met:
`LawsCanBeMet` and `ExchangeCanBeLawful` give libraries that obey every law at once, `RawRoundTrips` a
codec whose packets round-trip, and `SomethingIsSent` puts them together into a packet that meets every
condition of the end-to-end theorem and is sent.

Where the code and its comments part:

- `Empty()` of the ring is a load and a store of the read cursor, and `Drain()` calls it after giving
  up its claim. With two draining threads the store can put the cursor back. The results about the
  queue hold for every orderly run: one in which each such store finds the cursor where its load
  did. `OrderlyExactly` shows that this is exactly when the cursor stays the count of what was
  delivered. Otherwise the queue can stop delivering for good (`StaleStoreWedges`, `WedgedForever`,
  reachable by `RaceIsReachable`) or hand one slot out twice (`MoreOutThanIn`; the second time the
  code would find the value moved out). `UndisturbedIsOrderly` and `SingleDrainerIsOrderly` say what
  rules that out.
- The ring's word-sized distance test is right exactly under the condition of `WordsAgree`. A cursor
  stale by half a word less the slots is inside it (`FreshCursorAgrees`); one stale by less than half a
  word need not be (`StaleCursorMisjudges`: a run at the end of which an empty ring refuses).
- A serializer that leaves the buffer's error flag set costs the payload its next frame.
  `FramingSurvivesExactly` says when framing survives a payload, `LeftErrorWitness` gives one it does
  not survive.
- The relay's search for a free channel ends exactly when there is one (`WalkEndsExactly`), and it ends
  from every reachable state that still allows an allocation exactly when the limit on allocations is
  no greater than the number of channels (`LimitDecides`; above that, `EveryChannelTaken` is a run to a
  state from which it never ends).
- A send over TCP that fails part of the way does not close the connection. A frame sent after it is
  found where it was written exactly when nothing of the failed one went out (`AfterFailedSend`);
  `TornFrameMisread` gives two sends after which it is not.
- The throttle's count is 32 bits wide: attempt number 2^32 of one window is let through
  (`WrappedCountAdmits`), and enough attempts at one instant break the throttle's bound whatever the
  maximum (`WrapBreaksBound`). With the maximum at zero, which is the default, there is no throttle and
  every attempt the lists pass is let through (`UncountedExactly`).

## Model

| member | source | states |
|---|---|---|
| RingPositions.WordVerdictExact | znet/include/znet/mpsc_queue.h:72-93 | exactly when the wrapped distance test gives the verdict of the unbounded positions, for any two positions; less than a word apart, iff the slot is at most half a word behind and less than half a word ahead |
| RingPositions.WordSlot | znet/include/znet/mpsc_queue.h:76-78 | masking a wrapped position finds the slot of the unbounded one, for every power-of-two size |
| RingPositions.RoundUpPowerOfTwo | znet/include/znet/mpsc_queue.h:194-202 | the slot count is a power of two, at least two, the least that holds the capacity asked for, and never above half a word |
| SendHandoff.StepKeepsInv | znet/include/znet/mpsc_queue.h:72-118 | every orderly step of any producer or draining thread keeps the ring's invariant |
| SendHandoff.DeliversInClaimOrder | znet/include/znet/mpsc_queue.h:72-118 | in every orderly interleaving what is encoded is a prefix of what was accepted, in claim order, each once, and claimed minus taken is at most capacity + 1 |
| SendHandoff.HistoryIsFaithful | znet/include/znet/outbound_queue.h:63-110 | the recorded log and deliveries are exactly the successful claims and pops of the run |
| SendHandoff.CellsAreExclusive | znet/include/znet/mpsc_queue.h:206-222 | no two threads ever own one cell's value at once |
| SendHandoff.NoTornValue | znet/include/znet/mpsc_queue.h:206-222 | a value taken is the value its producer stored, and no store lands on an item still queued |
| SendHandoff.RefusesExactlyWhenFull | znet/include/znet/mpsc_queue.h:76-93 | Push refuses only at a look that finds `capacity` positions claimed and unreleased, and always with a current cursor then |
| SendHandoff.GivesUpOnlyWhenFull | znet/include/znet/mpsc_queue.h:76-93 | in every orderly run, a Push that gives up did so on its own last look, taken when `capacity` positions were claimed and unreleased |
| SendHandoff.AloneGetsIn | znet/include/znet/mpsc_queue.h:72-93 | a Push alone on a ring with room never gives up, however stale its cursor; when it has returned its item was accepted, once |
| SendHandoff.AloneCanFinish | znet/include/znet/mpsc_queue.h:72-109 | and from wherever it is it can return so |
| SendHandoff.ProducerChoice | znet/include/znet/mpsc_queue.h:76-93 | a producer's next step leaves no choice but whether the weak compare-exchange succeeds |
| SendHandoff.WakesOnTheIdleEdge | znet/include/znet/outbound_queue.h:63-80 | in every run, a Push that returns wakes iff nothing was queued ahead of its item when it looked |
| SendHandoff.WordsAgree | znet/include/znet/mpsc_queue.h:76-93 | in every state of the invariant, masking finds the slot of the unbounded position, and the machine-word test agrees with it iff the slot is not ahead, or ahead by less than half a word modulo whole words |
| SendHandoff.FreshCursorAgrees | znet/include/znet/mpsc_queue.h:76-93 | which is so whenever the cursor is stale by at most half a word less the slots |
| SendHandoff.StaleCursorMisjudges | znet/include/znet/mpsc_queue.h:76-93 | and is not in the state some orderly run from an empty ring of two leads to: 2^63 - 1 items went through, the ring is empty, and Push refuses to a producer whose cursor is still at the start |
| SendHandoff.NoLostWake | znet/include/znet/outbound_queue.h:63-110 | with no Push or Drain in progress, a non-empty queue has been woken since the last winning Drain began, and all of it can be popped |
| SendHandoff.OneDrainEmpties | znet/include/znet/outbound_queue.h:85-110 | one Drain alone, from any such state of the invariant, encodes everything queued, oldest first, leaves the queue empty and returns |
| SendHandoff.NothingStaysBehind | znet/include/znet/outbound_queue.h:63-110 | from wherever an orderly run comes to rest, one Drain more and what was encoded in all is exactly what was accepted, in claim order |
| SendHandoff.OrderlyExactly | znet/include/znet/mpsc_queue.h:147-156 | the read cursor counts the deliveries at every moment of a run if and only if every store in Empty finds the cursor where its load did |
| SendHandoff.UndisturbedIsOrderly | znet/include/znet/mpsc_queue.h:147-156 | which is so whenever no thread moves the cursor while another is inside Empty |
| SendHandoff.SingleDrainerIsOrderly | znet/include/znet/mpsc_queue.h:147-156 | runs in which only one thread ever wins the claim are orderly |
| SendHandoff.StaleStoreWedges | znet/include/znet/mpsc_queue.h:152-156 | from any reachable state whose threads inside Empty are up to date, advancing the cursor lets one of them rewind it and wedges the ring |
| SendHandoff.WedgedForever | znet/include/znet/outbound_queue.h:85-110 | a wedged ring never delivers anything again, whatever anyone does |
| SendHandoff.RaceIsReachable | znet/include/znet/outbound_queue.h:85-110 | one producer and two draining threads reach that race from an empty ring of two |
| SendHandoff.MoreOutThanIn | znet/include/znet/mpsc_queue.h:206-222 | a cursor put back between NextReadable's two loads makes a run that accepts two items and delivers three |
| AckHistory.ShiftHistoryUp | znet/src/backend/zdt/zdt_ack_history.cc:30-47 | the in-place multiword shift moves every bit up by n and clears the rest |
| AckHistory.SetHistoryBit | znet/src/backend/zdt/zdt_ack_history.cc:23-25 | sets one bit of the history and no other |
| AckHistory.ZdtAckHistory.Record | znet/src/backend/zdt/zdt_ack_history.cc:51-76 | the packed state follows the unpacked history through all three branches |
| AckHistory.RecordedBranches | znet/src/backend/zdt/zdt_ack_history.cc:58-76 | the three branches by 16-bit serial comparison are one signed distance |
| AckHistory.BitmapIsReceivedSet | znet/src/backend/zdt/zdt_ack_history.cc:51-76 | after any numbers, each within half the sequence space of the highest before it, bit b is set iff highest - b arrived, across wraparound |
| AckHistory.ZdtAckHistory.Fill | znet/src/backend/zdt/zdt_ack_history.cc:81-121 | the loops compute the budgeted, trimmed run-length report |
| AckHistory.DecodeEncode | znet/src/backend/zdt/zdt_ack_history.cc:96-113 | the full encoding decodes to the history, despite runs cut at 255 |
| AckHistory.ReportIsSoundAndComplete | znet/src/backend/zdt/zdt_ack_history.cc:81-121 | a report decodes to a prefix of the history, and reaches every arrived number inside the limit unless the blocks ran out |
| AckHistory.ReportFitsHeader | znet/src/backend/zdt/zdt_ack_history.cc:81-121 | at most the allowed blocks, counts of one byte, no trailing block without an ack |
| AckHistory.ProcessAcks | znet/src/backend/zdt/zdt_transport.cc:622-637 | the sender's walk marks exactly the offsets the blocks decode to |
| AckHistory.ReportIsHeard | znet/src/backend/zdt/zdt_transport.cc:622-637 | the sender reads every block of every report |
| AckHistory.SenderLearnsOnlyTheTruth | znet/src/backend/zdt/zdt_transport.cc:622-637 | end to end: each position read says whether that very number arrived; what is acknowledged arrived and what is reported missing did not, each within one history of the highest |
| Buffers.VarIntRoundTrip | znet/include/znet/buffer.h:379-412 | a variable-length number reads back as written and the cursor stops behind it |
| Buffers.Buffer.Reserve | znet/include/znet/buffer.h:865-910 | growth keeps the written bytes; a buffer with room is left alone |
| Buffers.Buffer.Write | znet/include/znet/buffer.h:588-596 | appends the bytes, keeps what is before them and, without growth, what is behind them |
| Buffers.Buffer.WriteNumber | znet/include/znet/buffer.h:523-541 | the number in the buffer's byte order |
| Buffers.InBufferOrder | znet/include/znet/buffer.h:523-541 | the copying loops lay the bytes out straight or reversed |
| Buffers.Buffer.WriteVarInt | znet/include/znet/buffer.h:604-628 | byte count, then the significant bytes |
| Buffers.CountBytes | znet/include/znet/buffer.h:604-612 | the loop finds the number of significant bytes |
| Buffers.Buffer.ReadNumber | znet/include/znet/buffer.h:306-330 | the number at the cursor, or the error and no movement |
| Buffers.Buffer.ReadVarInt | znet/include/znet/buffer.h:379-412 | the number, or which of the three errors and where the cursor stands |
| Buffers.Buffer.SetReadLimit | znet/include/znet/buffer.h:835-841 | readers then get the message up to the limit and nothing past it; all of it once the limit is lifted |
| Buffers.Buffer.PrependInt8 | znet/include/znet/buffer.h:810-817 | spends one byte of headroom in front of the message, or changes nothing |
| Buffers.Buffer.Compact | znet/include/znet/buffer.h:718-729 | the unread bytes survive at the front |
| Codecs.Serialize | znet/src/codec.cc:116-151 | null exactly without a serializer or a body; else headroom and the frame, its length filled in afterwards (its low 32 bits) |
| Codecs.LengthFitsExactly | znet/src/codec.cc:145-150 | the length in a header is the body's iff it is below 4 GiB |
| Codecs.FillLength | znet/src/codec.cc:145-150 | filling the length in changes those four bytes only |
| Codecs.ReadHead | znet/src/codec.cc:54-72 | a header that can be trusted, or none, and the error flag cleared |
| Codecs.ReadBody | znet/src/codec.cc:73-111 | what becomes of one frame under an arbitrary serializer, and where the cursor, limit and flag are left |
| Codecs.Deserialize | znet/src/codec.cc:40-114 | terminates for any serializer and yields the packets, invalid count and lost flag of the specification |
| Codecs.StaysOnGrid | znet/src/codec.cc:52-114 | for any serializers, the frames visited are a prefix of those the headers lay out, all of them unless framing was lost, and each known one is handed on or counted invalid |
| Codecs.FramingSurvivesExactly | znet/src/codec.cc:52-114 | framing survives a payload iff the headers lay frames out to its end and the serializer of every known frame stays inside it and, but for the last, leaves no error |
| Codecs.FrameByCursor | znet/src/codec.cc:73-111 | what becomes of one frame by where its serializer left the cursor: read short, the packet is handed on and decoding goes on behind the frame; read past it, framing is lost; nothing made, one invalid frame and on |
| Codecs.LeftErrorWitness | znet/src/codec.cc:56-62 | a payload whose headers are in order and whose second frame is lost to an error left by the first |
| Codecs.DecodesWhatWasEncoded | znet/src/codec.cc:40-151 | for serializers that make the packet of what they wrote, reading all of it or less, decoding concatenated frames yields the same packets in order, none invalid |
| TcpFraming.TCPTransportLayer.WriteAll | znet/src/backend/tcp.cc:185-224 | the retry loop puts on the wire what the socket's answers let it |
| TcpFraming.SendEnds | znet/src/backend/tcp.cc:185-224 | after which of the socket's answers a send ends; it closes the connection iff the other side has or it was closed underneath, and any other failure leaves it open |
| TcpFraming.PushesPrefix | znet/src/backend/tcp.cc:185-224 | whatever the socket does a prefix of the frame goes out, the whole of it iff the call succeeds |
| TcpFraming.WireIsTheFrames | znet/src/backend/tcp.cc:226-277 | a run of successful sends puts exactly those frames on the wire |
| TcpFraming.TCPTransportLayer.Send | znet/src/backend/tcp.cc:226-277 | refuses empty and oversized messages; the in-place and copying paths send the same bytes |
| TcpFraming.TCPTransportLayer.SendControl | znet/src/backend/tcp.cc:173-183 | a zero length and the type byte, unless closed |
| TcpFraming.TCPTransportLayer.ReadBuffer | znet/src/backend/tcp.cc:125-171 | takes out the first whole data frame, or compacts; on a well-framed buffer each ping taken out is answered once, and nothing else is done to the connection |
| TcpFraming.TCPTransportLayer.Receive | znet/src/backend/tcp.cc:73-123 | one scan, at most one read of as much as there is room for, one more scan |
| TcpFraming.ScanLeavesRoom | znet/src/backend/tcp.cc:133-143 | after a scan without a frame the buffer is never full, so recv is never asked for zero bytes |
| TcpFraming.NextOfFrame | znet/src/backend/tcp.cc:125-161 | what was framed parses back to the frame and what follows it |
| TcpFraming.NextIsStable | znet/src/backend/tcp.cc:144-149 | more bytes never change a frame that is already whole |
| TcpFraming.StepConserves | znet/src/backend/tcp.cc:73-171 | a call loses, repeats and reorders nothing, takes some of any bytes on offer, and does nothing to the connection but answer each ping it takes out, once |
| TcpFraming.EverySegmentation | znet/src/backend/tcp.cc:73-171 | for every list of frames, every truncation and every segmentation: delivered payloads are a prefix of those sent, all of them once a call changes nothing; as many pongs were sent as pings were taken out, and in the end one for each |
| TcpFraming.PongsOnTheWire | znet/src/backend/tcp.cc:167-183 | on a socket that takes what it is given, n answers are the three bytes of a pong n times |
| TcpFraming.BrokenFramingCloses | znet/src/backend/tcp.cc:133-143 | a scan that comes to an impossible length before any data frame closes the connection and drops what it holds |
| TcpFraming.EndIsNoticed | znet/src/backend/tcp.cc:73-123 | when the other side ended the connection a frame already there is still handed up; without one the connection is closed |
| TcpFraming.WhatWasSentArrives | znet/src/backend/tcp.cc:73-277 | the same from the sender's calls to the receiver's, up to the first failed send |
| TcpFraming.AfterFailedSend | znet/src/backend/tcp.cc:205-220 | a frame sent after a failed one is found where it was written iff nothing of the failed one went out |
| TcpFraming.TornFrameMisread | znet/src/backend/tcp.cc:205-220 | a send that fails after two bytes, leaving the connection open, and a whole one after it: the receiver delivers a payload nobody sent |
| TcpFraming.SendAllLeaves | znet/src/backend/tcp.cc:185-277 | whatever the socket answers, sends up to the first that fails leave whole frames from the front and at most a part of the next |
| ReplayWindows.ReplayWindow.Accept | znet/include/znet/encryption.h:146-176 | true iff the counter is first, above the highest, or at most 64 below it and not among those accepted; the window goes on standing for the set of accepted counters |
| ReplayWindows.AcceptsExactly | znet/include/znet/encryption.h:146-176 | accepted iff first, above the highest, or at most 64 below it and unseen; the bitmap goes on standing for what was accepted |
| SessionCipher.NoncesNeverRepeat | znet/src/encryption.cc:695-721 | no two calls of any run on any streams encrypt under one nonce, failures of the cipher included |
| SessionCipher.SealStep | znet/src/encryption.cc:695-742 | a call gives its stream's counter to cipher and wire, moves it on, leaves other streams alone, and refuses at the last counter |
| SessionCipher.OpensGenuine | znet/src/encryption.cc:611-664 | opening a genuine message comes down to its stream's replay window |
| SessionCipher.AcceptedExactly | znet/src/encryption.cc:643-658 | a genuine message is accepted iff its counter is above its stream's highest, or at most 64 below and untaken |
| SessionCipher.NoMarkTwice | znet/src/encryption.cc:611-664 | once keys exist, whatever bytes arrive and whatever the cipher makes of them, no two accepted messages carry the same stream and counter |
| SessionCipher.DeliveredAtMostOnce | znet/src/encryption.cc:581-742 | under any duplication, reordering and loss, only sent messages come out, none twice |
| SessionCipher.InOrderAllDelivered | znet/src/encryption.cc:581-742 | on a channel that keeps order every message sent comes out |
| Pipelines.WriteCounter | znet/src/encryption.cc:152-157 | the loop writes the seven bytes big-endian |
| Pipelines.ReadCounter | znet/src/encryption.cc:159-165 | the loop reads them back |
| Pipelines.Tagged | znet/src/compression.cc:26-38 | the type byte in front of the message, the same bytes in place or in a copy |
| Pipelines.CompressOut | znet/src/compression.cc:137-161 | the type byte and the raw or compressed message; null for an unknown type or a failed compression |
| Pipelines.DecompressIn | znet/src/compression.cc:163-191 | undoes the type byte it finds, or null |
| Pipelines.EncryptionLayer.RxWindow | znet/src/encryption.cc:574-579 | the stream's window, grown on demand without touching the others |
| Pipelines.EncryptionLayer.HandleOut | znet/src/encryption.cc:671-755 | envelope and counters as specified; plaintext in place or copied alike |
| Pipelines.EncryptionLayer.HandleDecrypt | znet/src/encryption.cc:581-664 | the mode checks, and only a verified message moves a window |
| Pipelines.MessagePipeline.Encode | znet/src/message_pipeline.cc:18-48 | serialize, compress at or above the threshold, encrypt; null when any stage fails |
| Pipelines.MessagePipeline.Decode | znet/src/message_pipeline.cc:51-64 | decrypt, then decompress |
| Pipelines.DecodeUndoesEncode | znet/src/message_pipeline.cc:18-64 | for every packet, threshold, compression and encryption setting, decoding yields the serialized frame |
| Pipelines.CompressedByLength | znet/src/message_pipeline.cc:28-48 | the type byte and text in front of the cipher by frame length: raw below the threshold, compressed at and above it, raw without zstd |
| Pipelines.PacketSurvives | znet/src/message_pipeline.cc:18-69 | and the codec then hands on exactly that packet |
| Sessions.PacketsArrive | znet/src/peer_session.cc:84-189 | end to end: whatever packets are sent on whichever streams, in the clear or encrypted, compressed or not, with any control frames between them, whatever the socket takes up to the first failed send and however the stream is cut up, the packets handed on are at every moment a prefix of those sent, in order, each once, none invalid; all of them once every send went through and a call changes nothing |
| Sessions.PacketArrives | znet/src/peer_session.cc:102-130 | one packet that was encoded is handed on exactly once, and the two ends stay in step whether or not it was sent |
| Sessions.ClosedAtTheLimit | znet/src/peer_session.cc:115-129 | a session is closed for what it received iff there is a limit and the invalid frames in all reached it |
| Sessions.HandshakeLeavesInStep | znet/src/encryption.cc:451-478 | in every run of the handshake, once both are ready each one's sending half of the cipher is in step with the other's receiving half |
| Sessions.SessionDelivers | znet/src/peer_session.cc:84-189 | so from any handshake that made both ready, the ready message being the first sealed, PacketsArrive holds in either direction |
| Handshake.KeyExchange.OnHandshakePacket | znet/src/encryption.cc:757-828 | whatever it carries: asked to encrypt without a usable key, or given a second one, the party gives up and says nothing; else it settles on encryption iff that was asked (initiator) or wanted (acceptor); the conversation stays sound and to its policy |
| Handshake.KeyExchange.OnAcknowledgePacket | znet/src/encryption.cc:829-852 | before the mode is settled, or without the magic, it gives up; a party becomes ready only after its own ready message and the other's |
| Handshake.KeyExchange.Receive | znet/src/encryption.cc:581-610 | a message in the clear once keys exist, or sealed before they do or under another key, changes nothing; else it is handled, and the conversation stays sound and to its policy |
| Handshake.HandledKeepsSound | znet/src/encryption.cc:757-879 | for any packet, honest or not, and any fault, the handlers keep the conversation sound |
| Handshake.AcceptorPolicyHolds | znet/src/encryption.cc:787-852 | for any messages and faults: an acceptor that wants encryption has keys once it has settled, encrypts when ready and sends nothing in the clear after its handshake; one that does not never encrypts |
| Handshake.InitiatorFollows | znet/src/encryption.cc:764-852 | for any messages and faults: an initiator that has not given up has keys iff a handshake it handled asked for encryption, and is ready only if told so |
| Handshake.KeysMirror | znet/src/encryption.cc:451-478 | two parties of opposite roles that took each other's public keys hold each other's keys |
| Handshake.StepKeepsInv | znet/src/encryption.cc:757-879 | every step of either party, with any loss, fault or close, keeps the protocol's three phases |
| Handshake.Agreement | znet/src/encryption.cc:757-879 | in every run, when both are ready they agree on encryption (the acceptor's policy, sending and receiving), compression and mirrored keys, and no honest message was ever dropped by a mode or key check |
| Handshake.ReadyIsUnderstood | znet/src/peer_session.cc:154-166 | what a ready party sends passes the other's checks at once |
| Handshake.Completes | znet/src/encryption.cc:757-879 | for every policy the exchange makes both ready when nothing fails |
| Candidates.WriteCandidates | znet/include/znet/p2p/rendezvous.h:113-130 | the list's wire form, cut at 32 |
| Candidates.ReadCandidates | znet/include/znet/p2p/rendezvous.h:132-155 | what any bytes read as, refusals included |
| Candidates.ReadInetAddress | znet/include/znet/buffer.h:334-356 | the address any bytes read as; short reads yield zeros |
| Candidates.ListReadsBack | znet/include/znet/p2p/rendezvous.h:113-155 | at most 32 candidates with IP addresses and non-zero ports read back as written |
| Candidates.OnlyCarriableIsRead | znet/include/znet/p2p/rendezvous.h:132-155 | whatever bytes arrive, a list that is read has at most 32 candidates, all with IP addresses and non-zero ports |
| Rendezvous.OfferCandidates | znet/src/p2p/rendezvous_server.cc:305-346 | the loops compute the offer |
| Rendezvous.OfferShape | znet/src/p2p/rendezvous_server.cc:305-346 | at most 32 entries, reflexive first, no host address twice, a relayed one last and only when offered |
| Rendezvous.OfferDescribes | znet/src/p2p/rendezvous_server.cc:305-346 | an offer lists its client's own candidates: every reflexive one or the observed address standing in, then every host whose address nothing before it names, in reported order, all of them if there is room; the relayed one last |
| Rendezvous.OfferTravels | znet/src/p2p/rendezvous_server.cc:305-346 | an offer of IP addresses with non-zero ports survives the wire |
| Rendezvous.OneInitiator | znet/include/znet/p2p/punch.h:137-142 | of two differently named peers exactly one is the initiator |
| Rendezvous.RendezvousServer.OnConnectPeer | znet/src/p2p/rendezvous_server.cc:48-66 | an ask of a named client is pending and queued at once, unless throttled; the server's invariant is kept, so no mutual ask is stranded by it |
| Rendezvous.RendezvousServer.OnGathering | znet/src/p2p/rendezvous_server.cc:27-46 | only valid candidates that are neither relayed nor paths are kept; the invariant is kept |
| Rendezvous.BelievedAreCredible | znet/src/p2p/rendezvous_server.cc:36-43 | a candidate is kept iff it was reported and is credible |
| Rendezvous.RendezvousServer.OnDisconnectEvent | znet/src/p2p/rendezvous_server.cc:188-200 | a named client is queued for clearing and stays registered till then; the invariant is kept |
| Rendezvous.RendezvousServer.SwapQueues | znet/src/p2p/rendezvous_server.cc:208-221 | the pairing thread takes all three queues at once |
| Rendezvous.RendezvousServer.WelcomeNext | znet/src/p2p/rendezvous_server.cc:268-283 | a client is named once and registered under that name |
| Rendezvous.WelcomeTells | znet/src/p2p/rendezvous_server.cc:268-303 | the client is told the name it is registered under, nobody else is told or changed, and a named client is left alone |
| Rendezvous.GoneIsForgotten | znet/src/p2p/rendezvous_server.cc:188-229 | in every run, once the names to clear are worked off a client that disconnected is registered no more, unless its name was given out again |
| Rendezvous.RendezvousServer.TryPairNext | znet/src/p2p/rendezvous_server.cc:348-428 | the branches of a pairing attempt and its bookkeeping; a mutual ask sends each side an offer that names and describes the other |
| Rendezvous.StepKeepsInv | znet/src/p2p/rendezvous_server.cc:27-428 | every handler and every item of the pairing thread's batch keeps the server's invariant |
| Rendezvous.NoMutualAskIsStranded | znet/src/p2p/rendezvous_server.cc:202-391 | in every run, two registered clients that ask for each other have an ask of one of them still queued; none is left once the queues are empty |
| Rendezvous.PairingConsumes | znet/src/p2p/rendezvous_server.cc:348-391 | a pairing consumes one ask of each of two differently named clients and changes nobody else |
| Rendezvous.PairingOffers | znet/src/p2p/rendezvous_server.cc:348-428 | what becomes of an ask by who asked for whom; if mutual, exactly two offers with one punch id and one relayed candidate, each naming and describing the other side, of which exactly one is the initiator; else a refusal, a nudge to the other, or nothing |
| Relay.WalkEndsExactly | znet/src/p2p/traversal_server.cc:127-131 | the channel walk ends iff some channel is free |
| Relay.LimitDecides | znet/src/p2p/traversal_server.cc:124-131 | it ends from every reachable state that still allows an allocation iff the limit is no greater than the number of channels |
| Relay.RoomMeansFree | znet/src/p2p/traversal_server.cc:124-131 | with such a limit it ends from every state of the invariant |
| Relay.EveryChannelTaken | znet/src/p2p/traversal_server.cc:119-147 | above that, one allocation per channel on a relay just started leads to a state below the limit from which it never ends |
| Relay.NextFree | znet/src/p2p/traversal_server.cc:127-131 | when the walk ends it is at the first free channel in cyclic order |
| Relay.Relay.Allocate | znet/src/p2p/traversal_server.cc:119-147 | refused iff stopped or full; else a channel in range that no live pairing holds |
| Relay.Relay.Release | znet/src/p2p/traversal_server.cc:158-164 | both tables forget the pairing |
| Relay.Relay.Expire | znet/src/p2p/traversal_server.cc:259-275 | releases exactly the pairings that never filled in time or went idle |
| Relay.ExpiresExactly | znet/src/p2p/traversal_server.cc:259-275 | after any run: released are exactly the pairings with both sides bound and no datagram carried or bind answered for longer than the idle timeout, and those with a side free allocated longer ago than the bind timeout |
| Relay.Relay.OnBind | znet/src/p2p/traversal_server.cc:215-252 | the binding rules, counters and reply |
| Relay.Relay.OnForward | znet/src/p2p/traversal_server.cc:182-213 | the forwarding rules and counters |
| Relay.StepKeepsInv | znet/src/p2p/traversal_server.cc:119-275 | every step keeps the two tables mutual inverses, channels in range, and the sides of a pairing distinct |
| Relay.SidesStayBound | znet/src/p2p/traversal_server.cc:215-252 | in every run, until its pairing is released an endpoint keeps the side it bound |
| Relay.ForwardsOnlyAcross | znet/src/p2p/traversal_server.cc:182-213 | a datagram is forwarded iff both sides are bound and it comes from one, and then to the other |
| Relay.BindsOnlyFreeSides | znet/src/p2p/traversal_server.cc:215-252 | a bind is answered iff its token is live and the endpoint is bound or a side is free; counters say which |
| Relay.NothingUncounted | znet/src/p2p/traversal_server.cc:149-275 | relayed + dropped counts every forward and unrecognized datagram; total = active + expired until Stop |
| Relay.BytesAreCounted | znet/src/p2p/traversal_server.cc:182-213 | in every run the bytes counted are those of the datagrams that went through |
| Agents.Agent.Punch | znet/src/p2p/agent.cc:137-172 | refused at once for a bad offer, or when stopped; else pending; either way the callback is accounted for once more |
| Agents.RefusedExactly | znet/src/p2p/agent.cc:139-157 | an offer is taken iff it names a candidate and none is bad; else the last bad one decides the reason |
| Agents.Agent.TickPunches | znet/src/p2p/agent.cc:324-376 | picks up what is pending; a punch toward a peer that already routes hears Success iff that session is ready and waits there otherwise, the n-th of the rest hears its machine's verdict of turn n; how often everybody hears each result, and who is left; no callback is lost or answered twice |
| Agents.Agent.ProcessSessions | znet/src/p2p/agent.cc:378-424 | waiters hear Success where the session is ready, CannotConnect where it is dead, Timeout where it is overdue, each as often as it waits and nothing else; which routes stay, and with whom waiting; no callback is lost or answered twice |
| Agents.MatchTells | znet/src/p2p/agent.cc:332-360 | who hears Success, who waits on which route, and which punches go on |
| Agents.AnswersAreDue | znet/src/p2p/agent.cc:75-552 | in every run a callback hears each result exactly as often as its steps owe it, by session health, machine verdicts, refusals and stops |
| Agents.EveryAnswerHasGrounds | znet/src/p2p/agent.cc:75-552 | in every run an answer was given at a step at which the route waited on or joined was in the state it stands for, or the machine or refusal said so; AlreadyStopped besides only when not running or stopping |
| Agents.Agent.CompletePunch | znet/src/p2p/agent.cc:455-491 | at a key without a route it adds one, keeps all others and every callback's count |
| Agents.Agent.CompletePathMigration | znet/src/p2p/agent.cc:524-552 | to a key without a route it moves one, keeping keys distinct and every callback's count |
| Agents.Agent.OnDatagram | znet/src/p2p/agent.cc:201-267 | for any datagram, keys stay distinct, no route is replaced, no callback is lost or answered twice |
| Agents.Agent.FinishStop | znet/src/p2p/agent.cc:82-115 | everything still pending, in flight or waiting has been answered, each as often as it was owed, and with AlreadyStopped only |
| Agents.CompleteConserves | znet/src/p2p/agent.cc:455-491 | finishing a punch adds a route for that key and session with its callback waiting, and replaces none |
| Agents.MigrateConserves | znet/src/p2p/agent.cc:524-552 | a migration replaces none either and keeps the waiters |
| Agents.MigrateMoves | znet/src/p2p/agent.cc:524-552 | it moves the session it names, if alive, and no other |
| Agents.DrainOverwritesNoRoute | znet/src/p2p/agent.cc:201-267 | no datagram costs a route its place |
| Agents.StepKeepsInv | znet/src/p2p/agent.cc:75-552 | every step, of any thread, keeps each callback's count |
| Agents.EveryCallbackInOnePlace | znet/src/p2p/agent.cc:75-552 | in every run with any refusals, starts and stops, a callback is as often pending, in flight, waiting or resolved, taken together, as it was submitted; once all stops are finished and none was overtaken by a start it has been resolved that often |
| Agents.RouteKeysDiffer | znet/src/p2p/agent.cc:190-199 | different addresses or channels have different keys |
| Admission.AdmissionControl.Screen | znet/src/admission.cc:60-72 | a deny rule wins, then the allow list must match |
| Admission.DenyWins | znet/src/admission.cc:60-72 | a deny match wins over any allow match; else an allow list lets in exactly what it matches and none lets in everything |
| Admission.OthersWindows | znet/src/admission.cc:89-103 | an attempt leaves other hosts' windows alone, except that a table past its limit loses exactly those that have run out |
| Admission.AdmissionControl.Admit | znet/src/admission.cc:74-109 | screening, the switched-off cases, sweeping, the fail-open case and the counted case |
| Admission.TableNeverGrowsPast | znet/src/admission.cc:90-103 | the table never holds more than 4097 hosts |
| Admission.ThrottleBound | znet/src/admission.cc:74-109 | over every run of Admit, one host gets at most twice the maximum Allow verdicts in any window's length, plus those of attempts let through uncounted, across evictions and resets |
| Admission.UncountedExactly | znet/src/admission.cc:74-98 | an attempt is let through uncounted iff the lists pass it and the throttle is off, it has no address, or the table is full of others' live windows |
| Admission.ThrottledHostBound | znet/src/admission.cc:74-109 | so at most twice the maximum for a throttled host while the table never fills |
| Admission.ModestHostIsAdmitted | znet/src/admission.cc:74-109 | and an attempt is let through whenever with it the host made at most the maximum in the window's length up to it |
| Admission.CountOfBurst | znet/src/admission.cc:74-109 | n attempts of one host at one instant leave its count at n modulo 2^32, and how many of them get through |
| Admission.WrappedCountAdmits | znet/src/admission.cc:104-108 | after 2^32 - 1 of them the next is let through whatever the maximum, and the one after it opens a new window |
| Admission.WrapBreaksBound | znet/src/admission.cc:74-109 | without the condition on their number ThrottleBound fails for every maximum: enough attempts at one instant get more than twice as many through, all counted |

## Left out

- Sockets, polling, address resolution and interface enumeration: I/O.
- The inside of OpenSSL and zstd: functions with the laws their callers use.
- Weak memory: the ring's atomics are sequentially consistent here.
- What happens past the `wake_` call: whether a worker thread hears it is another property.
- Congestion control, round-trip estimation and the rest of the ZDT transport, and the punch machine's own steps.
- Strings, maps, arrays and bit sets in the buffer, failed allocations, big-endian hosts: easy members or platform matters.
- Gathering (reflector probes) in the agent: its callbacks are kept as the punch callbacks are.
- Random names, guids, tokens and punch ids: any value the code would accept.
- The observed endpoint, connection type and reflector list in the rendezvous server's welcome: a welcome carries the name here.
- The request throttle of the rendezvous server: its verdict is a parameter; the admission throttle is the same idea, proved.
- Receive after an oversized frame has closed the connection, and refusal of every truncated address: the code does not promise them.
- The TCP transport's keepalive and idle timers, exporting keying material, metrics snapshots, logging, events, schedulers and thread plumbing.
- A data race on the agent's own lists when Start is called while a Stop is still draining: each operation is one step here.
- SendHandoff.DeliversInClaimOrder: is stated for orderly runs. Outside them it can fail, as MoreOutThanIn shows, though not in every such run: OrderlyExactly is exact for the read cursor, not for what is delivered.
- SendHandoff.NoLostWake: is stated for orderly runs. Outside them a queue can be non-empty with nothing in it to pop, as in the wedged states of StaleStoreWedges and WedgedForever.
- Sessions.PacketsArrive: a sender that goes on after a send that failed part of the way is not covered, because frames are then misread (TornFrameMisread). PeerSession itself is its two paths on values here; the layers under them are classes.
- Pipelines.MessagePipeline.Encode: bodies larger than a size_t can address, less the headers, do not exist and are excluded.
- Relay.Relay.Allocate: takes a state from which the walk ends, because otherwise the call does not return; LimitDecides says when every reachable state is such.
- Admission.ThrottleBound: takes a clock that never goes back and fewer than 2^32 attempts of one host in a window's length, because the count is 32 bits wide and wraps; WrapBreaksBound shows that the bound fails without the latter.
