/**
 Two tunnels and a network between them that drops, duplicates, reorders and reflects datagrams,
 rewrites everything around the box of a message, and makes up cookies, junk and messages without a
 sealed box. It cannot make a sealed box that neither tunnel made.

 In every run, every packet that a tunnel hands up is the prefix of a packet that the other tunnel
 sealed on a session with the mirrored keys, and no (key, counter) is sealed, or accepted, twice.
 */
module TunnelNetwork {
  import opened Wrappers
  import opened Crypto
  import opened Messages
  import opened Sessions
  import opened Handshakes
  import opened Tunnels
  import opened TunnelMoves
  import opened Exchanges
  import opened NetworkLedger
  import ReplayWindow

  // ---------------------------------------------------------------------------
  // One side
  // ---------------------------------------------------------------------------

  /** An initiation in flight is recorded, and has not been completed. */
  ghost predicate InFlightOk(k: Schedule, l: Ledger, side: Side, state: HandshakeState) {
    state.InitSent? ==>
      var e := state.sent.ephemeralPrivate;
      && e in l.inits && l.inits[e] == InitRecord(side, state.sent.localIndex)
      && state.sent.chainingKey == k.chain(side, e)
      && e !in l.completed
  }

  ghost predicate KeyedBy(k: Schedule, half: Half, s: Session) {
    && s.receiver == k.receive(half) && s.sender == k.send(half)
    && s.receivingIndex == half.local && s.sendingIndex == half.peer
  }

  ghost predicate SessionOk(k: Schedule, l: Ledger, side: Side, s: Session, half: Half) {
    && half.side == side && KeyedBy(k, half, s) && l.Knows(half)
    && s.sendCounter <= ReplayWindow.SAFE_COUNTERS
    && s.window.Valid()
    && (forall n :: n in l.sealed && n.key == s.sender ==> n.counter < s.sendCounter)
    && (forall n :: n in l.accepted && n.key == s.receiver ==> n.counter in s.window.received)
  }

  ghost predicate SlotOk(k: Schedule, l: Ledger, side: Side, ring: Ring, i: nat)
    requires i < N_SESSIONS
  {
    ring[i].Some? ==> SessionOk(k, l, side, ring[i].value, l.slots.At(side)[i])
  }

  /** Two slots never hold the same half. */
  ghost predicate SlotsApart(l: Ledger, side: Side, ring: Ring) {
    forall i, j :: 0 <= i < j < N_SESSIONS && ring[i].Some? && ring[j].Some? ==>
      !l.slots.At(side)[i].SameAs(l.slots.At(side)[j])
  }

  ghost predicate RingOk(k: Schedule, l: Ledger, side: Side, ring: Ring) {
    (forall i :: 0 <= i < N_SESSIONS ==> SlotOk(k, l, side, ring, i)) && SlotsApart(l, side, ring)
  }

  ghost predicate HandshakeOk(k: Schedule, l: Ledger, side: Side, h: Handshake) {
    && InFlightOk(k, l, side, h.state)
    && InFlightOk(k, l, side, h.previous)
    && (h.state.InitSent? && h.previous.InitSent? ==> h.state.sent.ephemeralPrivate != h.previous.sent.ephemeralPrivate)
  }

  ghost predicate SideOk(k: Schedule, l: Ledger, side: Side, c: Core) {
    HandshakeOk(k, l, side, c.handshake) && RingOk(k, l, side, c.ring)
  }

  /** A session stays in order if nothing new was sealed or accepted under its keys. */
  lemma SessionStaysOk(k: Schedule, l: Ledger, l': Ledger, side: Side, s: Session, half: Half)
    requires SessionOk(k, l, side, s, half) && Extends(l, l')
    requires forall n :: n in l'.sealed && n !in l.sealed ==> n.key != s.sender
    requires forall n :: n in l'.accepted && n !in l.accepted ==> n.key != s.receiver
    ensures SessionOk(k, l', side, s, half)
  {
    forall n | n in l'.sealed && n.key == s.sender
      ensures n.counter < s.sendCounter
    {
      assert n in l.sealed;
    }
    forall n | n in l'.accepted && n.key == s.receiver
      ensures n.counter in s.window.received
    {
      assert n in l.accepted;
    }
  }

  /** What a step adds under known keys belongs to the half `mine`; everyone else's sessions stay in order. */
  ghost predicate OnlyFor(k: Schedule, l: Ledger, l': Ledger, mine: Half) {
    && Extends(l, l')
    && (forall n :: n in l'.sealed && n !in l.sealed ==> n.key == k.send(mine))
    && (forall n :: n in l'.accepted && n !in l.accepted ==> n.key == k.receive(mine))
  }

  lemma OtherSessionStaysOk(k: Schedule, l: Ledger, l': Ledger, side: Side, s: Session, half: Half, mine: Half)
    requires Sound(k) && SessionOk(k, l, side, s, half) && OnlyFor(k, l, l', mine) && !half.SameAs(mine)
    ensures SessionOk(k, l', side, s, half)
  {
    SessionStaysOk(k, l, l', side, s, half);
  }

  /** A ring without the half `mine` stays in order. */
  lemma OtherRingStaysOk(k: Schedule, l: Ledger, l': Ledger, side: Side, ring: Ring, mine: Half)
    requires Sound(k) && RingOk(k, l, side, ring)
    requires OnlyFor(k, l, l', mine) && mine.side == side.Other()
    requires l'.slots.At(side) == l.slots.At(side)
    ensures RingOk(k, l', side, ring)
  {
    forall i | 0 <= i < N_SESSIONS
      ensures SlotOk(k, l', side, ring, i)
    {
      assert SlotOk(k, l, side, ring, i);
      if ring[i].Some? {
        OtherSessionStaysOk(k, l, l', side, ring[i].value, l.slots.At(side)[i], mine);
      }
    }
  }

  /** A handshake stays in order while none of its initiations is completed. */
  lemma HandshakeStaysOk(k: Schedule, l: Ledger, l': Ledger, side: Side, h: Handshake)
    requires HandshakeOk(k, l, side, h) && Extends(l, l')
    requires forall e :: e in l'.completed && e !in l.completed ==> e in l.inits && l.inits[e].side == side.Other()
    ensures HandshakeOk(k, l', side, h)
  {}

  /** The side that did not move stays in order. */
  lemma OtherSideStaysOk(k: Schedule, l: Ledger, l': Ledger, side: Side, c: Core, mine: Half)
    requires Sound(k) && SideOk(k, l, side, c)
    requires OnlyFor(k, l, l', mine) && mine.side == side.Other()
    requires l'.slots.At(side) == l.slots.At(side)
    requires forall e :: e in l'.completed && e !in l.completed ==> e in l.inits && l.inits[e].side == side.Other()
    ensures SideOk(k, l', side, c)
  {
    OtherRingStaysOk(k, l, l', side, c.ring, mine);
    HandshakeStaysOk(k, l, l', side, c.handshake);
  }

  /** Dropping sessions and changing the cookie keeps a side in order. */
  lemma DroppingKeepsSide(k: Schedule, l: Ledger, side: Side, c: Core, c0: Core)
    requires SideOk(k, l, side, c) && Dropped(c, c0)
    ensures SideOk(k, l, side, c0)
  {
    forall i | 0 <= i < N_SESSIONS
      ensures SlotOk(k, l, side, c0.ring, i)
    {
      assert SlotOk(k, l, side, c.ring, i);
    }
  }

  /** A ring stays in order when nothing is sealed or accepted and its slots do not change. */
  lemma QuietRing(k: Schedule, l: Ledger, l': Ledger, side: Side, ring: Ring)
    requires Extends(l, l') && l'.sealed == l.sealed && l'.accepted == l.accepted
    requires l'.slots.At(side) == l.slots.At(side)
    requires RingOk(k, l, side, ring)
    ensures RingOk(k, l', side, ring)
  {
    forall i | 0 <= i < N_SESSIONS
      ensures SlotOk(k, l', side, ring, i)
    {
      assert SlotOk(k, l, side, ring, i);
      if ring[i].Some? {
        SessionStaysOk(k, l, l', side, ring[i].value, l.slots.At(side)[i]);
      }
    }
  }

  /** Storing a session of a half that was never established keeps the ring in order. */
  lemma StoringKeepsRing(k: Schedule, l: Ledger, l': Ledger, side: Side, ring: Ring, s: Session, half: Half)
    requires Sound(k) && LedgerOk(k, l) && RingOk(k, l, side, ring)
    requires half.side == side && Unheard(l, half) && l'.Knows(half) && OnlyFor(k, l, l', half)
    requires l'.slots == l.slots.Set(side, l.slots.At(side)[half.local % N_SESSIONS := half])
    requires l'.accepted == l.accepted
    requires KeyedBy(k, half, s) && s.window == ReplayWindow.EmptyWindow && s.sendCounter <= ReplayWindow.SAFE_COUNTERS
    requires forall n :: n in l'.sealed && n !in l.sealed ==> n.counter < s.sendCounter
    ensures RingOk(k, l', side, Stored(ring, s))
  {
    NewSessionOk(k, l, l', side, s, half);
    forall i | 0 <= i < N_SESSIONS
      ensures SlotOk(k, l', side, Stored(ring, s), i)
      ensures i != half.local % N_SESSIONS && ring[i].Some? ==> !l.slots.At(side)[i].SameAs(half)
    {
      assert SlotOk(k, l, side, ring, i);
      if i != half.local % N_SESSIONS && ring[i].Some? {
        OtherSessionStaysOk(k, l, l', side, ring[i].value, l.slots.At(side)[i], half);
      }
    }
    StoredSlotsApart(l, l', side, ring, s, half);
  }

  lemma NewSessionOk(k: Schedule, l: Ledger, l': Ledger, side: Side, s: Session, half: Half)
    requires Sound(k) && LedgerOk(k, l)
    requires half.side == side && Unheard(l, half) && l'.Knows(half)
    requires l'.accepted == l.accepted
    requires KeyedBy(k, half, s) && s.window == ReplayWindow.EmptyWindow && s.sendCounter <= ReplayWindow.SAFE_COUNTERS
    requires forall n :: n in l'.sealed && n !in l.sealed ==> n.counter < s.sendCounter
    ensures SessionOk(k, l', side, s, half)
  {
    UnheardKeys(k, l, half);
  }

  lemma StoredSlotsApart(l: Ledger, l': Ledger, side: Side, ring: Ring, s: Session, half: Half)
    requires SlotsApart(l, side, ring) && half.local == s.receivingIndex
    requires l'.slots == l.slots.Set(side, l.slots.At(side)[half.local % N_SESSIONS := half])
    requires forall i :: 0 <= i < N_SESSIONS && i != half.local % N_SESSIONS && ring[i].Some? ==>
               !l.slots.At(side)[i].SameAs(half)
    ensures SlotsApart(l', side, Stored(ring, s))
  {}

  /** A slot whose session moved its counters, all others untouched. */
  lemma OneSlotMoved(k: Schedule, l: Ledger, l': Ledger, side: Side, ring: Ring, slot: nat, s: Session, ring': Ring)
    requires Sound(k) && slot < N_SESSIONS && ring[slot].Some? && RingOk(k, l, side, ring)
    requires l'.slots == l.slots && OnlyFor(k, l, l', l.slots.At(side)[slot])
    requires SessionOk(k, l', side, s, l.slots.At(side)[slot])
    requires ring' == ring[slot := Some(s)]
    ensures RingOk(k, l', side, ring')
  {
    var half := l.slots.At(side)[slot];
    forall i | 0 <= i < N_SESSIONS
      ensures SlotOk(k, l', side, ring', i)
    {
      assert SlotOk(k, l, side, ring, i);
      if i != slot && ring[i].Some? {
        assert !l.slots.At(side)[if i < slot then i else slot].SameAs(l.slots.At(side)[if i < slot then slot else i]);
        OtherSessionStaysOk(k, l, l', side, ring[i].value, l.slots.At(side)[i], half);
      }
    }
  }

  // ---------------------------------------------------------------------------
  // What the network may deliver
  // ---------------------------------------------------------------------------

  /** Without either tunnel's help: cookies, junk, and messages whose box is no sealed box. */
  predicate MadeUp(d: Datagram) {
    match d
    case HandshakeInit(_, _, encryptedStatic, _, _, _) => !encryptedStatic.Seal?
    case HandshakeResponse(_, _, _, encryptedNothing, _, _) => !encryptedNothing.Seal?
    case Data(_, _, cipher) => !cipher.Seal?
    case _ => true
  }

  /**
   `d` can be made out of the datagram `via`: a message of the same kind around the same box. Indices,
   counters, ephemeral keys, timestamps and MACs may be any.
   */
  predicate MadeFrom(via: Datagram, d: Datagram) {
    match d
    case HandshakeInit(_, _, encryptedStatic, _, _, _) => via.HandshakeInit? && via.encryptedStatic == encryptedStatic
    case HandshakeResponse(_, _, _, encryptedNothing, _, _) =>
      via.HandshakeResponse? && via.encryptedNothing == encryptedNothing
    case Data(_, _, cipher) => via.Data? && via.cipher == cipher
    case _ => false
  }

  /** The indices of a handshake message are those it was sent with. */
  predicate SameIndices(via: Datagram, d: Datagram) {
    match d
    case HandshakeInit(sender, _, _, _, _, _) => via.HandshakeInit? && via.senderIdx == sender
    case HandshakeResponse(sender, receiver, _, _, _, _) =>
      via.HandshakeResponse? && via.senderIdx == sender && via.receiverIdx == receiver
    case _ => true
  }

  /** The datagram can be made up, or made out of one that was sent at any time before. */
  ghost predicate Deliverable(l: Ledger, d: Datagram) {
    MadeUp(d) || exists via :: via in l.wire && MadeFrom(via, d) && (l.intact ==> SameIndices(via, d))
  }

  // ---------------------------------------------------------------------------
  // Moves keep both sides in order
  // ---------------------------------------------------------------------------

  /** The schedule is the handshake's, and both tunnels have the keys it is for. */
  ghost predicate SetUp(keys: Keys, k: Schedule, side: Side, mine: Core, other: Core) {
    && Sound(k) && Computes(keys, k) && keys.Distinct()
    && Configured(keys, side, mine.handshake.params)
    && Configured(keys, side.Other(), other.handshake.params)
  }

  /** Both sides and the ledger are in order. */
  ghost predicate AllOk(k: Schedule, l: Ledger, side: Side, mine: Core, other: Core) {
    && LedgerOk(k, l)
    && SideOk(k, l, side, mine)
    && SideOk(k, l, side.Other(), other)
  }

  // --- sending an initiation ---

  function AfterInitiating(l: Ledger, side: Side, c: Core, ephemeral: nat, now: nat): Ledger {
    RecordInit(l, side, ephemeral, IncIndex(c.handshake.nextIndex), Initiating(c, ephemeral, now).1)
  }

  lemma InitiatingKeepsOk(keys: Keys, k: Schedule, l: Ledger, side: Side, c: Core, other: Core, ephemeral: nat,
                          now: nat)
    requires SetUp(keys, k, side, c, other) && AllOk(k, l, side, c, other) && ephemeral !in l.drawn
    ensures AllOk(k, AfterInitiating(l, side, c, ephemeral, now), side, Initiating(c, ephemeral, now).0, other)
    ensures Extends(l, AfterInitiating(l, side, c, ephemeral, now))
  {
    var l' := AfterInitiating(l, side, c, ephemeral, now);
    InitiationDerives(keys, side, c.handshake, ephemeral, now);
    InitRecorded(k, l, side, ephemeral, IncIndex(c.handshake.nextIndex), Initiating(c, ephemeral, now).1);
    QuietRing(k, l, l', side, c.ring);
    OtherSideStaysOk(k, l, l', side.Other(), other, Half(side, true, 0, 0, 0, 0));
    HandshakeStaysOk(k, l, l', side, c.handshake);
  }

  // --- answering an initiation ---

  /** The half that answering `msg` establishes. */
  function RespondingHalf(side: Side, c: Core, msg: Datagram, ephemeral: nat): Half
    requires msg.HandshakeInit?
  {
    Half(side, false, if msg.ephemeral.Public? then msg.ephemeral.scalar else 0, ephemeral,
         IncIndex(c.handshake.nextIndex), msg.senderIdx)
  }

  function AfterResponding(l: Ledger, side: Side, c: Core, msg: Datagram, ephemeral: nat): Ledger
    requires Enabled(c, Respond(msg, ephemeral))
  {
    RecordResponse(l, RespondingHalf(side, c, msg, ephemeral), Responding(c, msg, ephemeral).1)
  }

  lemma ReadBoxIsSealed(h: Handshake, msg: Datagram)
    requires msg.HandshakeInit? && h.ReadInitiation(msg).Ok?
    ensures msg.encryptedStatic.Seal?
  {}

  /** What is answered was sent by the other side; the new session is the half the ledger records. */
  lemma AnsweredIsFromOther(keys: Keys, k: Schedule, l: Ledger, side: Side, c: Core, msg: Datagram, ephemeral: nat)
    requires keys.Distinct() && Computes(keys, k) && Configured(keys, side, c.handshake.params) && LedgerOk(k, l)
    requires Enabled(c, Respond(msg, ephemeral)) && Deliverable(l, msg)
    ensures
      var half := RespondingHalf(side, c, msg, ephemeral);
      var (d, s) := c.handshake.ReceiveInitiation(msg, ephemeral, HANDSHAKE_INIT_SZ).1.value;
      && half.ei in l.inits && Answers(l, half)
      && d.HandshakeResponse? && d.senderIdx == half.local && d.receiverIdx == half.peer
      && d.ephemeral == Public(ephemeral)
      && d.encryptedNothing.Seal? && d.encryptedNothing.key == k.seal(half)
      && KeyedBy(k, half, s) && s.window == ReplayWindow.EmptyWindow && s.sendCounter == 0
      && c.handshake.ReceiveInitiation(msg, ephemeral, HANDSHAKE_INIT_SZ).0.state == NoHandshake
      && c.handshake.ReceiveInitiation(msg, ephemeral, HANDSHAKE_INIT_SZ).0.previous == c.handshake.state
  {
    var half := RespondingHalf(side, c, msg, ephemeral);
    ReadBoxIsSealed(c.handshake, msg);
    var via :| via in l.wire && MadeFrom(via, msg) && (l.intact ==> SameIndices(via, msg));
    assert WireOk(k, l, via, l.wire[via]);
    var ei := l.wire[via].ephemeral;
    var initiator := l.inits[ei].side;
    assert k.box(initiator, ei) == StaticBox(keys, initiator, ei);
    ReadableIsFromOther(keys, side, c.handshake, msg, initiator, ei);
    ResponseDerives(keys, side, c.handshake, msg, ei, ephemeral, HANDSHAKE_INIT_SZ);
  }

  lemma RespondingKeepsOk(keys: Keys, k: Schedule, l: Ledger, side: Side, c: Core, other: Core, msg: Datagram,
                          ephemeral: nat)
    requires SetUp(keys, k, side, c, other) && AllOk(k, l, side, c, other)
    requires Enabled(c, Respond(msg, ephemeral)) && Deliverable(l, msg) && ephemeral !in l.drawn
    ensures AllOk(k, AfterResponding(l, side, c, msg, ephemeral), side, Responding(c, msg, ephemeral).0, other)
    ensures Extends(l, AfterResponding(l, side, c, msg, ephemeral))
  {
    var half := RespondingHalf(side, c, msg, ephemeral);
    var (d, s) := c.handshake.ReceiveInitiation(msg, ephemeral, HANDSHAKE_INIT_SZ).1.value;
    var l' := AfterResponding(l, side, c, msg, ephemeral);
    AnsweredIsFromOther(keys, k, l, side, c, msg, ephemeral);
    ResponseRecorded(k, l, half, d);
    StoringKeepsRing(k, l, l', side, c.ring, s, half);
    OtherSideStaysOk(k, l, l', side.Other(), other, half);
    HandshakeStaysOk(k, l, l', side, c.handshake);
  }

  // --- completing an initiation ---

  /** The half that the response `msg` completes. */
  function CompletingHalf(side: Side, c: Core, msg: Datagram): Half
    requires Enabled(c, Complete(msg))
  {
    var sent := c.handshake.Answered(msg.receiverIdx).value.0;
    Half(side, true, sent.ephemeralPrivate, if msg.ephemeral.Public? then msg.ephemeral.scalar else 0,
         sent.localIndex, msg.senderIdx)
  }

  function AfterCompleting(l: Ledger, side: Side, c: Core, msg: Datagram): Ledger
    requires Enabled(c, Complete(msg))
  {
    var s := c.handshake.ReceiveResponse(msg).1.value;
    RecordCompletion(l, CompletingHalf(side, c, msg), Nonce(s.sender, 0), Completing(c, msg).1)
  }

  /** The session that a response completes pairs with the one the other side stored. */
  lemma CompletedPairs(keys: Keys, k: Schedule, l: Ledger, side: Side, c: Core, msg: Datagram)
    requires keys.Distinct() && Sound(k) && Computes(keys, k) && Configured(keys, side, c.handshake.params)
    requires LedgerOk(k, l)
    requires HandshakeOk(k, l, side, c.handshake)
    requires Enabled(c, Complete(msg)) && Deliverable(l, msg)
    ensures
      var half := CompletingHalf(side, c, msg);
      var s := c.handshake.ReceiveResponse(msg).1.value;
      && half.ei !in l.completed && half.ei in l.inits && l.inits[half.ei] == InitRecord(side, half.local)
      && half.er in l.responded && half.Pairs(l.responded[half.er], l.intact)
      && KeyedBy(k, half, s) && s.window == ReplayWindow.EmptyWindow && s.sendCounter == 0
  {
    var half := CompletingHalf(side, c, msg);
    AcceptedBox(c.handshake, msg);
    var via :| via in l.wire && MadeFrom(via, msg) && (l.intact ==> SameIndices(via, msg));
    assert WireOk(k, l, via, l.wire[via]);
    var er := l.wire[via].ephemeral;
    var answer := l.responded[er];
    assert RespondedOk(l, er);
    assert k.seal(half) == SealKey(half.RootOf(keys)) && k.chain(side, half.ei) == InitiationKey(keys, side, half.ei);
    AcceptedEphemeral(keys, c.handshake, msg, answer);
    CompletionDerives(keys, side, c.handshake, msg, er);
    assert k.seal(half) == k.seal(answer);
  }

  /** Recording and storing a completed session keeps the ring and the other side in order. */
  lemma CompletionStored(k: Schedule, l: Ledger, side: Side, c: Core, other: Core, half: Half, s: Session)
    requires Sound(k) && AllOk(k, l, side, c, other) && half.side == side && half.initiator
    requires half.ei !in l.completed && half.ei in l.inits && l.inits[half.ei] == InitRecord(side, half.local)
    requires half.er in l.responded && half.Pairs(l.responded[half.er], l.intact)
    requires KeyedBy(k, half, s) && s.window == ReplayWindow.EmptyWindow && s.sendCounter == 0
    ensures
      var (s', d) := s.FormatPacketData([]);
      var l' := RecordCompletion(l, half, Nonce(s.sender, 0), d);
      && LedgerOk(k, l') && Extends(l, l')
      && RingOk(k, l', side, Stored(c.ring, s')) && SideOk(k, l', side.Other(), other)
  {
    var (s', d) := s.FormatPacketData([]);
    var l' := RecordCompletion(l, half, Nonce(s.sender, 0), d);
    CompletionRecorded(k, l, half, d);
    StoringKeepsRing(k, l, l', side, c.ring, s', half);
    OtherSideStaysOk(k, l, l', side.Other(), other, half);
  }

  lemma CompletingKeepsOk(keys: Keys, k: Schedule, l: Ledger, side: Side, c: Core, other: Core, msg: Datagram)
    requires SetUp(keys, k, side, c, other) && AllOk(k, l, side, c, other)
    requires Enabled(c, Complete(msg)) && Deliverable(l, msg)
    ensures AllOk(k, AfterCompleting(l, side, c, msg), side, Completing(c, msg).0, other)
    ensures Extends(l, AfterCompleting(l, side, c, msg))
  {
    var half := CompletingHalf(side, c, msg);
    CompletedPairs(keys, k, l, side, c, msg);
    CompletionStored(k, l, side, c, other, half, c.handshake.ReceiveResponse(msg).1.value);
    RemainingInitiation(k, l, AfterCompleting(l, side, c, msg), side, c.handshake, msg, half);
  }

  /** The initiation that was not answered is still in order. */
  lemma RemainingInitiation(k: Schedule, l: Ledger, l': Ledger, side: Side, h: Handshake, msg: Datagram, half: Half)
    requires HandshakeOk(k, l, side, h) && Extends(l, l')
    requires msg.HandshakeResponse? && h.ReceiveResponse(msg).1.Ok?
    requires half.ei == h.Answered(msg.receiverIdx).value.0.ephemeralPrivate
    requires forall e :: e in l'.completed ==> e in l.completed || e == half.ei
    ensures HandshakeOk(k, l', side, h.ReceiveResponse(msg).0)
  {}

  // --- sealing a packet ---

  function AfterSealing(l: Ledger, side: Side, c: Core, slot: nat, src: Packet): Ledger
    requires Enabled(c, SealData(slot, src))
  {
    var s := c.ring[slot].value;
    RecordSeal(l, l.slots.At(side)[slot], Nonce(s.sender, s.sendCounter), src, Sealing(c, slot, src).1)
  }

  lemma SealingKeepsOk(k: Schedule, l: Ledger, side: Side, c: Core, other: Core, slot: nat, src: Packet)
    requires Sound(k) && AllOk(k, l, side, c, other)
    requires Enabled(c, SealData(slot, src)) && c.ring[slot].value.sendCounter < ReplayWindow.SAFE_COUNTERS
    ensures Nonce(c.ring[slot].value.sender, c.ring[slot].value.sendCounter) !in l.sealed
    ensures AllOk(k, AfterSealing(l, side, c, slot, src), side, Sealing(c, slot, src).0, other)
    ensures Extends(l, AfterSealing(l, side, c, slot, src))
  {
    var half := l.slots.At(side)[slot];
    var s := c.ring[slot].value;
    var (s', d) := s.FormatPacketData(src);
    var l' := AfterSealing(l, side, c, slot, src);
    assert SlotOk(k, l, side, c.ring, slot);
    SealRecorded(k, l, half, Nonce(s.sender, s.sendCounter), src, d);
    SealedSessionOk(k, l, side, s, half, src);
    OneSlotMoved(k, l, l', side, c.ring, slot, s', Sealing(c, slot, src).0.ring);
    OtherSideStaysOk(k, l, l', side.Other(), other, half);
    HandshakeStaysOk(k, l, l', side, c.handshake);
  }

  lemma SealedSessionOk(k: Schedule, l: Ledger, side: Side, s: Session, half: Half, src: Packet)
    requires SessionOk(k, l, side, s, half) && s.sendCounter < ReplayWindow.SAFE_COUNTERS
    ensures
      var (s', d) := s.FormatPacketData(src);
      SessionOk(k, RecordSeal(l, half, Nonce(s.sender, s.sendCounter), src, d), side, s', half)
  {}

  // --- opening a packet ---

  /** The nonce under which a packet is opened. */
  function OpenedNonce(c: Core, idx: Index32, counter: ReplayWindow.Counter): Nonce
    requires c.ring[idx % N_SESSIONS].Some?
  {
    Nonce(c.ring[idx % N_SESSIONS].value.receiver, counter)
  }

  function AfterOpening(l: Ledger, side: Side, c: Core, idx: Index32, counter: ReplayWindow.Counter,
                        cipher: Term): Ledger
    requires Enabled(c, OpenData(idx, counter, cipher))
  {
    RecordOpen(l, l.slots.At(side)[idx % N_SESSIONS], OpenedNonce(c, idx, counter))
  }

  /** Who seals for a half is the other half of its exchange. */
  lemma WriterIsMirror(k: Schedule, l: Ledger, writer: Half, reader: Half)
    requires Sound(k) && LedgerOk(k, l) && l.Knows(writer) && l.Knows(reader) && k.send(writer) == k.receive(reader)
    ensures writer.Pairs(reader, l.intact)
  {
    if reader.initiator {
      assert CompletedOk(l, reader.ei);
    } else {
      assert CompletedOk(l, writer.ei);
    }
  }

  /** What a session opens was sealed by the other side on the paired session, and is opened for the first time. */
  lemma OpenedIsAuthentic(k: Schedule, l: Ledger, side: Side, s: Session, half: Half,
                          idx: Index32, counter: ReplayWindow.Counter, cipher: Term)
    requires Sound(k) && LedgerOk(k, l) && SessionOk(k, l, side, s, half)
    requires s.ReceivePacketData(idx, counter, cipher).Ok? && Deliverable(l, Data(idx, counter, cipher))
    ensures
      var nonce := Nonce(s.receiver, counter);
      && nonce in l.sealed && nonce !in l.accepted
      && l.sealed[nonce].writer.Pairs(half, l.intact)
      && l.sealed[nonce].packet == s.ReceivePacketData(idx, counter, cipher).value.1
      && cipher == Seal(s.receiver, Number(counter), Payload(l.sealed[nonce].packet), Empty)
      && counter !in s.window.received && counter < ReplayWindow.SAFE_COUNTERS
  {
    var via :| via in l.wire && MadeFrom(via, Data(idx, counter, cipher));
    assert WireOk(k, l, via, l.wire[via]);
    var nonce := l.wire[via].nonce;
    assert nonce == Nonce(s.receiver, counter);
    assert SealedOk(k, l, nonce);
    WriterIsMirror(k, l, l.sealed[nonce].writer, half);
  }

  lemma OpenedSessionOk(k: Schedule, l: Ledger, side: Side, s: Session, half: Half, counter: ReplayWindow.Counter)
    requires SessionOk(k, l, side, s, half) && counter < ReplayWindow.SAFE_COUNTERS
    requires s.window.MarkVerdict(counter) == ReplayWindow.Accepted
    ensures SessionOk(k, RecordOpen(l, half, Nonce(s.receiver, counter)), side, s.(window := s.window.Marked(counter)),
                      half)
  {}

  lemma OpeningKeepsOk(k: Schedule, l: Ledger, side: Side, c: Core, other: Core,
                       idx: Index32, counter: ReplayWindow.Counter, cipher: Term)
    requires Sound(k) && AllOk(k, l, side, c, other)
    requires Enabled(c, OpenData(idx, counter, cipher)) && Deliverable(l, Data(idx, counter, cipher))
    ensures AllOk(k, AfterOpening(l, side, c, idx, counter, cipher), side, Opening(c, idx, counter, cipher), other)
    ensures Extends(l, AfterOpening(l, side, c, idx, counter, cipher))
  {
    var slot := idx % N_SESSIONS;
    var half := l.slots.At(side)[slot];
    var s := c.ring[slot].value;
    var l' := AfterOpening(l, side, c, idx, counter, cipher);
    assert SlotOk(k, l, side, c.ring, slot);
    OpenedIsAuthentic(k, l, side, s, half, idx, counter, cipher);
    OpenRecorded(k, l, half, Nonce(s.receiver, counter));
    OpenedSessionOk(k, l, side, s, half, counter);
    OneSlotMoved(k, l, l', side, c.ring, slot, s.(window := s.window.Marked(counter)),
                 Opening(c, idx, counter, cipher).ring);
    OtherSideStaysOk(k, l, l', side.Other(), other, half);
    HandshakeStaysOk(k, l, l', side, c.handshake);
  }
}
