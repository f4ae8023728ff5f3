# Veil tunnel, device and payment model

A Dafny model of the Veil VPN node: a WireGuard tunnel with a bandwidth payment layer and a registration
API, with proofs of what its parts promise together.

- **Tunnel** (`Crypto`, `Messages`, `ReplayWindow`, `Session`, `Handshake`, `RateLimiter`, `Tunnel`,
  `SessionRing`, `TunnelObject`): the value of each part and the functions on it, and classes that update it in place and
  are proved to do the same. Cryptography is symbolic: hashes, MACs and sealed boxes are free constructors
  and Diffie-Hellman is commutative. Times are nanoseconds; a call is given the clock when it begins, the
  clock when it reads it again, and the ephemeral key it draws. The length of the caller's buffer is a
  parameter, and too short a buffer is an error or an abort as in the program.
- **Runs of tunnels** (`TunnelMoves`, `IndexRing`, `Confirmation`, `TimerRuns`, `HandshakeAge`, `PacketQueue`,
  `Exchange`, `NetworkLedger`, `TunnelNetwork`, `TunnelRuns`): what holds in every run of one tunnel, and of two
  tunnels with a network between them that drops, duplicates, reorders, reflects and rewrites everything around
  a sealed box. The protocol is that of sections 5.3, 5.4 and 6 of the WireGuard whitepaper.
- **Lock** (`UpgradeLock`): the upgradeable read/write lock as atomic steps of any number of threads.
- **Device** (`IndexLfsr`, `PeerTable`, `Registration`, `Reaper`, `TokenBucket`, `Text`, `Uapi`): the index
  generator, the three peer tables, the address pool, which peers its reaper spares, the rate limiter over
  reals, and the control socket's printer and parser.
- **Payment** (`BigEndian`, `IpChecksum`, `PaymentMessages`, `PaymentSignals`, `Payments`, `Quota`, `Rlp`):
  message codecs, IPv4/UDP framing, the payment exchange, quota accounting and RLP (Appendix B of the
  Ethereum Yellow Paper).

Where the code and its documentation disagree, the code is followed. The replay window's bound
`counter + 1024` is unchecked 64-bit arithmetic, so the window's theorems state for which counters it matters.
While there is no session, a packet taken from the queue goes back to its end, not to its front. A quota that
is used up exactly is not blocked. The reaper is meant to spare recent peers and does not always: it compares
with a report from before it took the lock, counts a handshake age of 0 as no handshake, and the tunnel forgets
handshakes after 180 s; `Reapers` has each failing case and the exact condition under which a peer is spared. A
responder is meant to wait for a first packet before it sends on a session and does not always:
`Confirmation.UnconfirmedUse` has the exact condition, `Confirmation.AnswerIsUsedAtOnce` the failing calls, and
`Confirmation.UnconfirmedReached` a run from a new tunnel that gets there.

## Model

| member | source | states |
|---|---|---|
| `ReplayWindow.WindowModelsHistory` | protocol/boringtun/src/noise/session.rs:104-151 | Over every run of counters below 2^64 - 1024, `next` is one past the largest accepted counter, the received set is the set of accepted counters, and no counter was accepted twice. |
| `ReplayWindow.AcceptsAsHistory` | protocol/boringtun/src/noise/session.rs:85-151 | In every reachable state a counter is accepted exactly when it was never accepted before and is at least `next - 1024`; for counters in the wrapping range the exact exception is stated. |
| `ReplayWindow.QuickCheckAgrees` | protocol/boringtun/src/noise/session.rs:85-151 | The test before decryption and the test-and-mark after it agree on a counter exactly when it is below `next`, or below 2^64 - 1024, or its wrapped bound is not behind `next`. |
| `ReplayWindow.NeverAcceptedAgain` | protocol/boringtun/src/noise/session.rs:104-151 | A counter that was accepted once is refused in every later state of the run. |
| `ReplayWindow.StaysReceived` | protocol/boringtun/src/noise/session.rs:104-151 | What was received stays received along a run. |
| `ReplayWindow.WrapForgets` | protocol/boringtun/src/noise/session.rs:85-151 | A concrete input in the wrapping range that is accepted twice, so the bound on counters is needed. |
| `ReplayWindow.CounterValidator.WillAccept` | protocol/boringtun/src/noise/session.rs:85-100 | The bitmap test gives the verdict of the unbounded set. |
| `ReplayWindow.CounterValidator.ClearSkipped` | protocol/boringtun/src/noise/session.rs:130-148 | The bit-wise, word-wise and bit-wise clearing loops clear exactly the positions of the skipped counters and no position still in the window. |
| `ReplayWindow.CounterValidator.MarkDidReceive` | protocol/boringtun/src/noise/session.rs:104-151 | The bitmap update with its three ways to advance gives the verdict and the new state of the unbounded set, for every 64-bit counter. |
| `ReplayWindow.CounterValidator.ReceivingCounterMark` | protocol/boringtun/src/noise/session.rs:184-191 | Marking counts a packet exactly when its counter was accepted. |
| `Sessions.DeliveredOnce` | protocol/boringtun/src/noise/session.rs:196-268 | A packet sealed by one of two mirrored sessions is delivered unchanged by the other exactly while its counter is acceptable, and refused the second time. |
| `Sessions.TamperedNeverDelivered` | protocol/boringtun/src/noise/session.rs:236-268 | A packet that opens was sealed under the same key and counter and is addressed to this session. |
| `Sessions.SessionObject.FormatPacketData` | protocol/boringtun/src/noise/session.rs:196-231 | The object seals under its send counter and moves the counter on; it aborts if the buffer is short. |
| `Sessions.SessionObject.ReceivePacketData` | protocol/boringtun/src/noise/session.rs:236-268 | Index check, quick check, opening and marking in this order give the result and the state of the session value, and nothing changes on an error. |
| `SessionRings.SessionRing.Store` | protocol/boringtun/src/noise/mod.rs:330-332 | A session goes into the slot of its index; every other slot keeps its own session object. |
| `SessionRings.SessionRing.Drop` | protocol/boringtun/src/noise/timers.rs:148-160 | One slot is emptied, the others keep their objects. |
| `SessionRings.SessionRing.Seal` | protocol/boringtun/src/noise/mod.rs:252-254 | Sealing moves the send counter of the one session in the slot, in place. |
| `SessionRings.SessionRing.Open` | protocol/boringtun/src/noise/mod.rs:415-423 | Opening marks the counter in the replay bitmap of the one session in the slot, in place, and changes nothing on an error. |
| `Handshakes.InitiationReadable` | protocol/boringtun/src/noise/handshake.rs:481-533 | For all keys and ephemerals, an initiation formatted for this responder is opened by it to the sender's transcript and timestamp. |
| `Handshakes.InitiationAccepted` | protocol/boringtun/src/noise/handshake.rs:481-563 | An initiation formatted by the paired side is accepted if and only if its timestamp is newer than the last accepted one. |
| `Handshakes.ResponseAccepted` | protocol/boringtun/src/noise/handshake.rs:565-645 | The response is accepted if and only if the preshared keys are equal, and then both sessions have swapped keys and swapped indices. |
| `Handshakes.DelayedResponseAccepted` | protocol/boringtun/src/noise/handshake.rs:565-645 | A response to the previous of two initiations in flight is accepted too, with mirrored sessions. |
| `Handshakes.AcceptedTimestampsIncrease` | protocol/boringtun/src/noise/handshake.rs:481-563 | Over every run the timestamps of accepted initiations strictly increase, so no initiation is accepted twice. |
| `Handshakes.StampOrder` | protocol/boringtun/src/noise/handshake.rs:187-228 | Later clock readings give later timestamps in the order of the receiver. |
| `Handshakes.HandshakeMachine.FormatHandshakeInitiation` | protocol/boringtun/src/noise/handshake.rs:709-787 | The step-by-step code leaves the state and returns the message of the initiation function, or refuses a short buffer without any change. |
| `Handshakes.HandshakeMachine.ReceiveHandshakeInitialization` | protocol/boringtun/src/noise/handshake.rs:481-563 | Same for receiving an initiation, with every error and with the half-way state that a short buffer leaves behind. |
| `Handshakes.HandshakeMachine.FormatHandshakeResponse` | protocol/boringtun/src/noise/handshake.rs:789-880 | Same for formatting a response and deriving the responder's session. |
| `Handshakes.HandshakeMachine.ReceiveHandshakeResponse` | protocol/boringtun/src/noise/handshake.rs:565-645 | Same for receiving a response to the current or the previous initiation. |
| `Handshakes.HandshakeMachine.ReceiveCookieReply` | protocol/boringtun/src/noise/handshake.rs:647-680 | Same for a cookie reply: index, decryption under the last mac1, new cookie. |
| `Handshakes.HandshakeMachine.AppendMac1AndMac2` | protocol/boringtun/src/noise/handshake.rs:682-707 | Both MACs, and what is remembered for a cookie reply. |
| `Handshakes.HandshakeMachine.NextIndex` | protocol/boringtun/src/noise/handshake.rs:466-471 | The upper 24 bits stay, the lower 8 count up and wrap. |
| `RateLimiters.HonestMessageChecked` | protocol/boringtun/src/noise/rate_limiter.rs:153-192 | Exactly when an honest handshake message passes: not under load, or with the mac2 of the current cookie for its address. |
| `RateLimiters.CookieReplyRoundTrip` | protocol/boringtun/src/noise/rate_limiter.rs:115-150 | The cookie in a reply to an honest message is received by the sender and is the current cookie of its address. |
| `RateLimiters.CookieUnlocks` | protocol/boringtun/src/noise/rate_limiter.rs:89-192 | After a cookie reply the sender's next message passes if and only if it comes in the same 128 s epoch and from the same address bytes. |
| `RateLimiters.NextMessagePasses` | protocol/boringtun/src/noise/rate_limiter.rs:89-192 | In particular the next initiation from the same address in the same epoch passes under load. |
| `RateLimiters.FormattedMacs` | protocol/boringtun/src/noise/handshake.rs:682-707 | The MACs of every formatted message are those that the limiter recomputes. |
| `RateLimiters.RateLimiter.VerifyPacket` | protocol/boringtun/src/noise/rate_limiter.rs:153-192 | The method counts, checks and replies as the limiter function. |
| `RateLimiters.RateLimiter.ResetCount` | protocol/boringtun/src/noise/rate_limiter.rs:78-86 | The load counter is reset at most once per second. |
| `TunnelObjects.Tunnel.constructor` | protocol/boringtun/src/noise/mod.rs:194-224 | A new tunnel: no sessions, empty queue, zeroed timers, handshake index shifted by 8 bits. |
| `TunnelObjects.Tunnel.Encapsulate` | protocol/boringtun/src/noise/mod.rs:250-268 | In-place sending equals the sending function on the tunnel value: seal on the current session, or queue and start a handshake. |
| `TunnelObjects.Tunnel.Decapsulate` | protocol/boringtun/src/noise/mod.rs:276-302 | Rate limiting first, then dispatch. |
| `TunnelObjects.Tunnel.HandleVerifiedPacket` | protocol/boringtun/src/noise/mod.rs:304-316 | Dispatch on the kind of message. |
| `TunnelObjects.Tunnel.HandleHandshakeInit` | protocol/boringtun/src/noise/mod.rs:318-341 | Responder: session stored in the ring, timers ticked, response returned. |
| `TunnelObjects.Tunnel.HandleHandshakeResponse` | protocol/boringtun/src/noise/mod.rs:343-369 | Initiator: keepalive sealed, session stored and made current if not older. |
| `TunnelObjects.Tunnel.HandleCookieReply` | protocol/boringtun/src/noise/mod.rs:371-387 | Cookie stored and timers ticked. |
| `TunnelObjects.Tunnel.SetCurrentSession` | protocol/boringtun/src/noise/mod.rs:390-403 | The current session changes unless it was established later than the new one. |
| `TunnelObjects.Tunnel.HandleData` | protocol/boringtun/src/noise/mod.rs:406-429 | Session by index modulo 8, opened, made current, timers ticked, packet validated. |
| `TunnelObjects.Tunnel.FormatHandshakeInitiation` | protocol/boringtun/src/noise/mod.rs:433-460 | Initiation unless one is in progress; an expired tunnel first resets its timers. |
| `TunnelObjects.Tunnel.ValidateDecapsulatedPacket` | protocol/boringtun/src/noise/mod.rs:464-507 | The packet is cut to the length its IP header states, or refused. |
| `TunnelObjects.Tunnel.SendQueuedPacket` | protocol/boringtun/src/noise/mod.rs:510-521 | Takes the first packet, and puts it back on an error. |
| `TunnelObjects.Tunnel.TimerTick` | protocol/boringtun/src/noise/timers.rs:112-127 | The named timer is set to the present and the want flags are set. |
| `TunnelObjects.Tunnel.TimerTickSessionEstablished` | protocol/boringtun/src/noise/timers.rs:129-138 | The session timer of the slot and the role are recorded. |
| `TunnelObjects.Tunnel.ClearTimers` | protocol/boringtun/src/noise/timers.rs:88-95 | All nine timers move to the present, by a loop. |
| `TunnelObjects.Tunnel.ClearAll` | protocol/boringtun/src/noise/timers.rs:142-150 | All sessions and the queue are dropped, by a loop, and the timers move to the present. |
| `TunnelObjects.Tunnel.UpdateSessionTimers` | protocol/boringtun/src/noise/timers.rs:152-166 | The loop drops exactly the sessions whose slot timer is over 180 s old. |
| `TunnelObjects.Tunnel.UpdateTimers` | protocol/boringtun/src/noise/timers.rs:168-312 | The whole timer call equals the timer function on the tunnel value. |
| `TunnelObjects.Tunnel.Decide` | protocol/boringtun/src/noise/timers.rs:206-236 | Give up, retransmit or do nothing while an initiation is in flight. |
| `TunnelObjects.Tunnel.DecideIdle` | protocol/boringtun/src/noise/timers.rs:237-277 | When to renew the keys or to initiate because nothing came back. |
| `TunnelObjects.Tunnel.DecideKeepalive` | protocol/boringtun/src/noise/timers.rs:279-299 | When to send a keepalive, passive or persistent. |
| `TunnelObjects.Tunnel.Call` | protocol/boringtun/src/noise/mod.rs:250-321 | Whatever is called on the object, its value makes that call, so every run of the object is a run of the value. |
| `TunnelMoves.CallIsMove` | protocol/boringtun/src/noise/mod.rs:250-521 | Every call on a tunnel, with documented buffers, first drops sessions or a cookie and then makes one of seven moves on handshake and ring, and reports exactly what the move sends or opens. |
| `TunnelMoves.NeverPanics` | protocol/boringtun/src/noise/mod.rs:247-268 | With documented buffers no call aborts. |
| `IndexRing.RunKeepsOrder` | protocol/boringtun/src/noise/handshake.rs:466-471 | With a count of issues: in every run what is in flight was issued last and is not used yet, and each stored session has the index of an issue that was used. |
| `IndexRing.AlwaysInStep` | protocol/boringtun/src/noise/handshake.rs:466-471 | In every reachable state the current initiation holds `next_index`, a previous one its predecessor, and slot i a session whose index is i modulo 8. |
| `IndexRing.ResponseMatchesOne` | protocol/boringtun/src/noise/handshake.rs:570-574 | A response matches at most one of the two initiations in flight. |
| `IndexRing.IssueEstablishedOnce` | protocol/boringtun/src/noise/handshake.rs:552-645 | Each issued index becomes a session at most once in a run. |
| `IndexRing.OverwrittenByLater` | protocol/boringtun/src/noise/mod.rs:331-360 | In every run a session is only put over one that was issued at least 8 earlier, and it has the index of its issue. |
| `IndexRing.SlotOfIssue` | protocol/boringtun/src/noise/mod.rs:331-332 | The slot of an issue is its number modulo 8, shifted by the first index. |
| `Confirmation.UnconfirmedUse` | protocol/boringtun/src/noise/mod.rs:250-402 | In every run: a call seals on a responder session that no packet has confirmed only if that session was stored in the slot of `current` and `current` has not left the slot since, and an offered packet goes out on it exactly then. |
| `Confirmation.AnswerIsUsedAtOnce` | protocol/boringtun/src/noise/mod.rs:250-340 | After any run in which the next answer goes into the slot in use: answering an accepted initiation and sending a packet sends it on the new session, which nothing has confirmed. |
| `Confirmation.UnconfirmedReached` | protocol/boringtun/src/noise/mod.rs:250-340 | For all keys, such a run exists from a new tunnel: seven initiations in vain, one answer to an initiation of the peer, one packet. |
| `Confirmation.InitiatingRun` | protocol/boringtun/src/noise/handshake.rs:466-471 | Unanswered initiations move the index on and leave `current`, the keys and the last timestamp as they were. |
| `Confirmation.UnconfirmedSession` | protocol/boringtun/src/noise/mod.rs:318-340 | The session in the slot is then still the one of that answer, and nothing was received on it. |
| `Confirmation.CurrentMoves` | protocol/boringtun/src/noise/mod.rs:387-425 | The slot in use changes only to one in which the call opens a packet or completes a handshake, and packets are sealed in the slot in use. |
| `Exchanges.RootDetermines` | protocol/boringtun/src/noise/handshake.rs:709-880 | The value from which all keys of an exchange are derived determines who initiated it and both ephemeral keys. |
| `Exchanges.ScheduleIsSound` | protocol/boringtun/src/noise/handshake.rs:481-880 | Session keys tell halves of exchanges apart, and a half reads exactly what the other half of its exchange writes. |
| `Exchanges.ReadableIsFromOther` | protocol/boringtun/src/noise/handshake.rs:481-533 | An initiation that opens was boxed by the other side for the ephemeral key it arrives with. |
| `Exchanges.ResponseDerives` | protocol/boringtun/src/noise/handshake.rs:789-880 | The responder's session has the keys of its half of the exchange. |
| `Exchanges.CompletionDerives` | protocol/boringtun/src/noise/handshake.rs:565-645 | The initiator's session has the keys of its half of the exchange. |
| `Exchanges.AcceptedEphemeral` | protocol/boringtun/src/noise/handshake.rs:565-645 | A response is accepted only with the ephemeral key that its box was made with. |
| `TunnelNetwork.OpenedIsAuthentic` | protocol/boringtun/src/noise/session.rs:236-268 | What a session opens was sealed by the other side on the paired session (same exchange, and mirrored indices unless the network rewrote them), and is opened for the first time. |
| `TunnelNetwork.CompletedPairs` | protocol/boringtun/src/noise/handshake.rs:565-645 | The session that a response completes is the other half of the exchange that its sender stored, whatever the network rewrote around the sealed box; its indices are mirrored if they were left alone. |
| `TunnelNetwork.AnsweredIsFromOther` | protocol/boringtun/src/noise/handshake.rs:481-563 | Whatever initiation is answered carries a box that the other side sent, under the ephemeral key it was made with. |
| `TunnelNetwork.SealingKeepsOk` | protocol/boringtun/src/noise/session.rs:196-231 | Sealing uses a counter that was never used under its key. |
| `TunnelRuns.HandedUpIsAuthentic` | protocol/boringtun/src/noise/mod.rs:276-507 | In every run of two tunnels over a network that drops, duplicates, reorders, reflects, and rewrites everything around a sealed box (indices, counters, ephemeral keys, timestamps, MACs), each packet handed up is the IP-length prefix of a packet that an earlier call of the other side sealed under the same key and counter, on a session with the mirrored keys; the indices are mirrored too if those of handshake messages were left alone. |
| `TunnelRuns.HandedUpOnce` | protocol/boringtun/src/noise/mod.rs:406-507 | In every such run no key and counter is handed up twice. |
| `TunnelRuns.NonceNeverReused` | protocol/boringtun/src/noise/session.rs:196-231 | In every such run no key and counter seals two packets. |
| `TimerRuns.AlwaysTimely` | protocol/boringtun/src/noise/timers.rs:88-166 | In every run under a monotone clock no timer and no session timer is ahead of TimeCurrent, and TimeCurrent is not ahead of the clock. |
| `TimerRuns.NoUnderflow` | protocol/boringtun/src/noise/timers.rs:152-299 | So no duration subtraction of any timer call underflows. |
| `TimerRuns.ExpiredHasNoSessions` | protocol/boringtun/src/noise/timers.rs:195-226 | In every reachable state an expired handshake comes with an empty ring. |
| `TimerRuns.NoSessionOutlivesItsTimer` | protocol/boringtun/src/noise/timers.rs:152-166 | After every timer call no stored session is older than 180 s by the timer of its slot. |
| `TimerRuns.AttemptIsBounded` | protocol/boringtun/src/noise/timers.rs:215-236 | An unanswered handshake attempt, driven by any calls from the inside, sends at most 18 initiations with one clock reading per call and at most 19 otherwise, and retransmission never moves the start of its 90 s window. |
| `TimerRuns.AttemptEnds` | protocol/boringtun/src/noise/timers.rs:215-226 | A timer call at or after 90 s leaves the tunnel expired, without sessions and with an empty queue. |
| `TimerRuns.NewIsTimely` | protocol/boringtun/src/noise/timers.rs:69-80 | A new tunnel satisfies the invariant. |
| `HandshakeAges.AgeIsBounded` | protocol/boringtun/src/noise/timers.rs:314-324 | In every run the reported age is exactly the time since the last handshake (no underflow), is at most 180 s more than the time since the last timer call, and is missing once the handshake is more than 180 s older than that call. |
| `HandshakeAges.AlwaysAged` | protocol/boringtun/src/noise/timers.rs:130-189 | In every state of every run no occupied slot was filled after the last handshake, and without a handshake in the 180 s before the last timer call there is no session. |
| `PacketQueue.PacketsConserved` | protocol/boringtun/src/noise/mod.rs:250-268 | In every run with documented buffers, packets that are queued, sent or lost are exactly those that were there or offered, as multisets, and the queue never exceeds 256. |
| `PacketQueue.LossHasReason` | protocol/boringtun/src/noise/mod.rs:524-537 | In every run each lost packet was offered to a full queue without a session, or was waiting when a timer call expired the tunnel and emptied the queue. |
| `PacketQueue.QueueStaysShort` | protocol/boringtun/src/noise/mod.rs:524-537 | The bound of 256 holds after every call, whatever the buffers. |
| `PacketQueue.FlushLoop` | protocol/boringtun/src/device/mod.rs:796-803 | The flush loop ends after at most as many sends as packets were queued: all of them in order on a session; without one, at most one initiation, and every packet stays queued. |
| `PacketQueue.FlushDuplicates` | protocol/boringtun/src/noise/mod.rs:510-521 | Exactly when flushing keeps the multiset of packets, for every buffer length; otherwise the first packet is duplicated. |
| `PacketQueue.FlushRotates` | protocol/boringtun/src/noise/mod.rs:510-521 | Without a session a flush takes the queue round by one, so it is no first-in first-out queue; with one it removes the first packet. |
| `UpgradeLocks.FlagMeansOneUpgrader` | protocol/boringtun/src/device/dev_lock.rs:60-99 | In every interleaving of any number of threads `wants_write` is true if and only if exactly one thread is between marking and clearing it. |
| `UpgradeLocks.NoGuardWhileMarked` | protocol/boringtun/src/device/dev_lock.rs:28-40 | No thread but the upgrader gets read access while the flag is set. |
| `UpgradeLocks.NoWriteSincePreparation` | protocol/boringtun/src/device/dev_lock.rs:80-90 | No write happens between an upgrader's preparation and its own write. |
| `UpgradeLocks.WriterIsAlone` | protocol/boringtun/src/device/dev_lock.rs:86-90 | Whoever writes is alone with the data. |
| `UpgradeLocks.ReadNeverWaits` | protocol/boringtun/src/device/dev_lock.rs:28-40 | Taking the inner lock for reading never blocks, so holding the flag mutex across it is harmless. |
| `UpgradeLocks.NoLostWakeup` | protocol/boringtun/src/device/dev_lock.rs:92-96 | Whenever a thread sleeps, another one still holds the mark or is about to notify. |
| `UpgradeLocks.NoDeadlock` | protocol/boringtun/src/device/dev_lock.rs:28-99 | Whenever a thread is inside the lock some thread inside can move, unless the upgrader waits for guards that are in their callers' hands. |
| `UpgradeLocks.StepKeepsInv` | protocol/boringtun/src/device/dev_lock.rs:28-99 | Every step of every thread keeps the invariant behind these. |
| `IndexLfsrs.ShiftInjective` | protocol/boringtun/src/device/mod.rs:1407-1415 | The shift register step is injective on non-zero 24-bit registers. |
| `IndexLfsrs.ShiftStays` | protocol/boringtun/src/device/mod.rs:1407-1415 | It keeps the register non-zero and within 24 bits. |
| `IndexLfsrs.IndicesDistinct` | protocol/boringtun/src/device/mod.rs:1407-1415 | All indices issued before the cycle assertion fires are distinct. |
| `IndexLfsrs.IndexLfsr.Next` | protocol/boringtun/src/device/mod.rs:1407-1415 | The method issues the next index of the sequence, and aborts exactly when the cycle closes. |
| `Devices.CallOwned` | protocol/boringtun/src/noise/handshake.rs:466-471 | No call makes a tunnel use an index outside the 256 of its peer, be it of an initiation, a session or the message a cookie may answer. |
| `Devices.Device.UpdatePeer` | protocol/boringtun/src/device/mod.rs:322-381 | Adding and removing keeps the three tables in agreement; exactly which abort happens when. |
| `Devices.Device.RemovePeer` | protocol/boringtun/src/device/mod.rs:306-320 | Removal purges the peer from all three tables and touches no other entry. |
| `Devices.Device.ClearPeers` | protocol/boringtun/src/device/mod.rs:569-573 | All three tables are emptied together. |
| `Devices.Device.AddPeer` | protocol/boringtun/src/device/mod.rs:345-379 | A new peer gets an index that no live peer has, and all tables point to it. |
| `Devices.Device.FindPeer` | protocol/boringtun/src/device/mod.rs:693-704 | A response, cookie or data packet is routed to exactly the live peer whose tunnel listens to its receiver index (for a response, a cookie reply or data); an initiation to the peer whose key it proves. |
| `Devices.Device.CallTunnel` | protocol/boringtun/src/device/mod.rs:715-718 | A call on one tunnel keeps the tables and their invariant. |
| `Devices.IndexFindsPeer` | protocol/boringtun/src/device/mod.rs:693-704 | An index finds the one live peer it belongs to. |
| `Devices.RemovalAgrees` | protocol/boringtun/src/device/mod.rs:306-320 | The tables agree after a removal. |
| `Devices.AdditionAgrees` | protocol/boringtun/src/device/mod.rs:370-379 | The tables agree after an addition. |
| `Devices.NewIndexIsFresh` | protocol/boringtun/src/device/mod.rs:302-304 | The next index is none of those issued before. |
| `Registrations.AssigningKeepsPartition` | protocol/boringtun/src/device/http_api.rs:388-410 | Assigning an octet keeps {2..254} the disjoint union of free and assigned octets and the assignment injective. |
| `Registrations.ReleasingKeepsPartition` | protocol/boringtun/src/device/http_api.rs:874-877 | So does releasing one. |
| `Registrations.Registry.HandleRegistration` | protocol/boringtun/src/device/http_api.rs:321-438 | A registered key keeps its octet and its time, a new one gets a free octet, a device peer with that /32 and the present as its time; registered keys and device peers stay equal, and neither the existing-peer nor the missing-key abort of the device is reachable. |
| `Registrations.Registry.Reap` | protocol/boringtun/src/device/http_api.rs:784-900 | Given what the device reported of the peers it had when it was asked, however long ago, the reaper removes exactly the stale keys that the device lets go, gives their octets back, and keeps registry and device in agreement. |
| `Registrations.Registry.FindStale` | protocol/boringtun/src/device/http_api.rs:819-857 | The loop finds exactly the stale keys, each once. |
| `Registrations.Registry.UapiGetPeers` | protocol/boringtun/src/device/http_api.rs:137-207 | Printed by the device and read back by the reaper, every key is reported with the age of its last handshake exactly as the device saw it, and keys that the device had not are missing. |
| `Registrations.Registry.PrintPeer` | protocol/boringtun/src/device/api.rs:170-194 | A printed peer shows its key and the age of its last handshake in seconds and nanoseconds. |
| `Registrations.Registry.ListPeers` | protocol/boringtun/src/device/api.rs:170-211 | The loop lists every peer of the device once. |
| `Reapers.TableReports` | protocol/boringtun/src/device/http_api.rs:137-207 | For any printing order, the table read back reports each key as it was seen and no other key. |
| `Reapers.SparedIff` | protocol/boringtun/src/device/http_api.rs:819-857 | For every life of a tunnel that has no session, or whose timers ran in the last 420 s, or that was made in the last 600 s: the key is spared if and only if its registration is at most 600 s old or its handshake is at least 1 s old and its session not dropped; beyond 600 s only handshakes no more than 180 s before the last timer call count. |
| `Reapers.RecentRegistration` | protocol/boringtun/src/device/http_api.rs:819-857 | A key registered at most 600 s ago is spared if and only if the device already had it when it was asked, for every such life of its tunnel. |
| `Reapers.RecentHandshake` | protocol/boringtun/src/device/http_api.rs:827-851 | A key whose reported handshake is at most 600 s old is spared if and only if that age is at least 1 s or the registration is at most 600 s old. |
| `Reapers.NewcomerReaped` | protocol/boringtun/src/device/http_api.rs:852-855 | A key that was registered after the device was asked is reaped, 0 s old. |
| `Reapers.JustShakenReaped` | protocol/boringtun/src/device/http_api.rs:827-851 | In every life: a peer that completes a handshake and is printed less than 1 s after the last timer call has the age 0 and is reaped, if it was registered over 600 s ago. |
| `Reapers.JustShakenReached` | protocol/boringtun/src/device/http_api.rs:827-851 | For all keys, there is such a life: a peer that shakes hands 601 s after it was made and registered is reaped at once. |
| `Reapers.ForgottenReaped` | protocol/boringtun/src/device/http_api.rs:840-851 | A peer whose last handshake is more than 180 s before the last timer call is reaped exactly when it was registered over 600 s ago, as if it never had any. |
| `Registrations.RegistrationInner.Assign` | protocol/boringtun/src/device/http_api.rs:405-411 | The four entries for a new key, with its octet and its time. |
| `Registrations.RegistrationInner.Release` | protocol/boringtun/src/device/http_api.rs:874-877 | The four entries of a removed key. |
| `Registrations.Registry.constructor` | protocol/boringtun/src/device/http_api.rs:108-124 | All octets from 2 to 254 are free at first. |
| `TokenBuckets.AdmissionIsBounded` | protocol/boringtun/src/device/http_api.rs:60-80 | Over reals, in every run each address is admitted at most 10 + (b - a) times in the time from a to b. |
| `TokenBuckets.PruningIsUnobservable` | protocol/boringtun/src/device/http_api.rs:902-906 | Every decision equals that of a limiter that never prunes. |
| `TokenBuckets.RateTable.Admit` | protocol/boringtun/src/device/http_api.rs:705-716 | The method finds or makes the bucket and takes a token as the function does. |
| `TokenBuckets.RateTable.PruneOld` | protocol/boringtun/src/device/http_api.rs:902-906 | The loop keeps exactly the buckets used in the last 300 whole seconds. |
| `Uapi.PrintedIsParsed` | protocol/boringtun/src/device/api.rs:157-210 | For every device state and every order of its peers, parsing the printed text gives the own key, the port iff it is non-zero, and the handshake of each peer. |
| `Uapi.TableIsExact` | protocol/boringtun/src/device/http_api.rs:187-197 | With different keys each peer is found under its own key with its own handshake and nothing else is found: no handshake leaks to another peer. |
| `Uapi.PeerIsMeant` | protocol/boringtun/src/device/http_api.rs:158-205 | The block of a peer closes the one before it and opens its own with its own handshake or none. |
| `Uapi.ApiGet` | protocol/boringtun/src/device/api.rs:157-210 | The printing loops write exactly the lines of the device, of each peer and of the status. |
| `Uapi.UapiGetPeers` | protocol/boringtun/src/device/http_api.rs:138-205 | The loop with its running variables computes the parse of any text. |
| `Text.LinesReadBack` | protocol/boringtun/src/device/http_api.rs:158-159 | Lines that are written one by one are read one by one. |
| `Text.DecimalReadsBack` | protocol/boringtun/src/device/api.rs:191-194 | A printed number parses to itself if it is below the bound of its type. |
| `Text.HexReadsBack` | protocol/boringtun/src/device/api.rs:157-176 | Printed bytes decode to themselves. |
| `Rlp.ItemDelimits` | protocol/boringtun/src/payment/tx.rs:83-113 | Encodings delimit themselves: an encoded item is decoded to itself and to what follows it. |
| `Rlp.AllReadBack` | protocol/boringtun/src/payment/tx.rs:100-113 | A list of items is read back item by item. |
| `Rlp.PreimageReadsBack` | protocol/boringtun/src/payment/tx.rs:17-36 | Every transaction is read back from its signing preimage. |
| `Rlp.PreimageInjective` | protocol/boringtun/src/payment/tx.rs:17-36 | Two transactions with the same preimage agree in all eight fields. |
| `Rlp.RawTxReadsBack` | protocol/boringtun/src/payment/tx.rs:39-60 | A signed transaction and its signature are read back from the raw bytes. |
| `Rlp.UintIsMinimal` | protocol/boringtun/src/payment/tx.rs:65-81 | An integer is encoded as the shortest string of bytes with its value. |
| `Rlp.MinimalIsUnique` | protocol/boringtun/src/payment/tx.rs:65-81 | Without leading zeros a number has one spelling. |
| `Rlp.LengthReadsBack` | protocol/boringtun/src/payment/tx.rs:115-119 | A length is encoded in at most 8 bytes without leading zeros and reads back. |
| `Quotas.QuotaAccount` | protocol/boringtun/src/payment/quota.rs:17-56 | Over the life of a peer: remaining plus consumed equals initial plus payments times quota, modulo 2^64 always and exactly below it; bytes passed never exceed that; blocked implies nothing remaining; credits are payments with pairwise different nonces that passed recipient, amount and signer checks. |
| `Quotas.GrantedIsLinear` | protocol/boringtun/src/payment/quota.rs:46-50 | What is granted is the initial quota plus the number of payments times the quota per payment. |
| `Quotas.BlockingIsLate` | protocol/boringtun/src/payment/quota.rs:28-43 | Exactly when consuming blocks; using up exactly what is left does not. |
| `Quotas.BandwidthQuota.Consume` | protocol/boringtun/src/payment/quota.rs:28-43 | The counters change as the quota value does. |
| `Quotas.BandwidthQuota.Credit` | protocol/boringtun/src/payment/quota.rs:46-50 | Same for a credit. |
| `Quotas.BandwidthQuota.CheckAndRecordNonce` | protocol/boringtun/src/payment/quota.rs:54-56 | True exactly for a new nonce, which is recorded. |
| `Quotas.BandwidthQuota.GatePacket` | protocol/boringtun/src/device/mod.rs:757-770 | A packet passes if the peer is not blocked and has enough left. |
| `Quotas.BandwidthQuota.HandlePaymentSubmit` | protocol/boringtun/src/device/mod.rs:1104-1234 | Decode, recipient, amount, nonce, signature, signer and settlement in this order; the nonce is used up before the signature is checked. |
| `PaymentMessages.RequiredReadsBack` | protocol/boringtun/src/payment/protocol.rs:49-84 | Every PaymentRequired decodes to itself, whatever follows it. |
| `PaymentMessages.RequiredWritesBack` | protocol/boringtun/src/payment/protocol.rs:64-83 | Whatever decodes is there: encoding it gives the payload back. |
| `PaymentMessages.SubmitReadsBack` | protocol/boringtun/src/payment/protocol.rs:86-129 | Same for PaymentSubmit. |
| `PaymentMessages.SubmitWritesBack` | protocol/boringtun/src/payment/protocol.rs:104-128 | Same for PaymentSubmit. |
| `PaymentMessages.AcceptedReadsBack` | protocol/boringtun/src/payment/protocol.rs:131-151 | Same for PaymentAccepted. |
| `PaymentMessages.KindsDiffer` | protocol/boringtun/src/payment/protocol.rs:64-151 | No bytes decode as two kinds of message. |
| `IpChecksums.ChecksumVerifies` | protocol/boringtun/src/payment/protocol.rs:175-177 | For any header with a zeroed checksum word, the checksum after insertion is 0. |
| `IpChecksums.IpChecksum` | protocol/boringtun/src/payment/protocol.rs:238-252 | The summing loop and the fold loop compute the checksum, and the fold loop ends. |
| `IpChecksums.FoldWithComplement` | protocol/boringtun/src/payment/protocol.rs:248-251 | A sum and the complement of its fold add up to all ones. |
| `PaymentSignals.SignalReadsBack` | protocol/boringtun/src/payment/protocol.rs:156-236 | A built packet is recognised as a signal exactly when one end is the gateway, and is taken apart into its addresses and payload. |
| `PaymentSignals.SignalChecksumVerifies` | protocol/boringtun/src/payment/protocol.rs:166-177 | The header checksum of a built packet verifies. |
| `PaymentSignals.TunnelHandsUpSignal` | protocol/boringtun/src/noise/mod.rs:464-507 | The tunnel hands a built packet up whole. |
| `PaymentSignals.BuildSignalPacket` | protocol/boringtun/src/payment/protocol.rs:156-190 | The buffer is filled field by field to exactly that packet; it aborts exactly when the packet would be too long. |
| `Payments.ExchangeSucceeds` | protocol/boringtun/src/device/mod.rs:1049-1364 | From demand to checks, sealed and opened on mirrored sessions in both directions: the automatic reply of the client to a demand with a fresh nonce arrives whole and passes every server check exactly when its signature recovers to the client in the domain of the server, so whenever both use the same domain. |
| `Payments.SignalCrosses` | protocol/boringtun/src/device/mod.rs:1087-1095 | A signal sealed by one tunnel in the 512-byte buffer is handed up unchanged by the other, and the way back stays open. |
| `Payments.DemandArrives` | protocol/boringtun/src/device/mod.rs:1078-1088 | The demand reaches the client's handler and decodes to itself. |
| `Payments.ReplyArrives` | protocol/boringtun/src/device/mod.rs:1344-1356 | The reply reaches the server's handler and decodes to itself. |
| `Payments.SignalsFit` | protocol/boringtun/src/device/mod.rs:1087-1091 | Both packets fit the buffer they are sealed in. |

## Left out

- Concrete cryptography (Blake2s, ChaCha20-Poly1305, X25519, secp256k1, Keccak): symbolic constructors, or functions of which only recover-of-sign is used.
- Parsing of datagrams from bytes (`parse_incoming_packet`) and their layout: a datagram is its fields, or malformed.
- TunnelObjects.Tunnel.HandleData: does not model the abort when the destination is shorter than the ciphertext, because the documentation requires a destination at least as long as the datagram.
- TunnelRuns.HandedUpIsAuthentic: runs use documented buffer sizes, different static keys, fresh ephemeral keys, and fewer than 2^64 - 1024 packets on a session; the network cannot make a sealed box that neither tunnel made, nor put a box into a message of another kind.
- Changing the private key of a tunnel or of the device while it runs.
- UpgradeLocks.NoDeadlock: one guard per thread, closures that do not use the lock themselves, and no spurious wake-ups.
- Devices.Device.CallTunnel: a peer of the device holds the value of its tunnel, not a `TunnelObjects.Tunnel`.
- Reapers.SparedIff: when the timers run is a premise, because the loop of the device that runs them is not modelled.
- Devices.Device.FindPeer: networks are a map from exact networks to peers; longest-prefix match of the routing trie is not modelled.
- Endpoints, connected sockets, event polling, the TUN interface, signals and privilege dropping.
- Registrations.Registry.HandleRegistration: a request to the device is carried out and answered, or fails without effect; base64, JSON and World ID checks happen before it, and the index generator may still abort the device.
- Requests on the control socket with several peer sections, and the `set` parser.
- Quotas.QuotaAccount: consuming and crediting are atomic, because the peer's mutex is held across them.
- TokenBuckets.AdmissionIsBounded: real numbers instead of 64-bit floats.
- Packet-loss estimates, statistics, logging, environment configuration.
- The settlement client, the RPC client, deposits, WebSocket bridges, the HTTP server loop, the FFI and JNI wrappers, the command line, the client application, the TEE service and the contracts.
