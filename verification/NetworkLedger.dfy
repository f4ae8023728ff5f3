/**
 What has happened between two tunnels so far: the ephemeral keys drawn, the initiations sent, the
 halves of exchanges established, the datagrams on the wire, and the counters sealed and accepted.
 The ledger only grows, and stays consistent as it does.
 */
module NetworkLedger {
  import opened Wrappers
  import opened Crypto
  import opened Messages
  import opened Tunnels
  import opened Exchanges
  import ReplayWindow

  // ---------------------------------------------------------------------------
  // The ledger: what happened so far
  // ---------------------------------------------------------------------------

  datatype InitRecord = InitRecord(side: Side, index: Index32)

  datatype Sealed = Sealed(writer: Half, packet: Packet)

  /** A packet counter under a session key. */
  datatype Nonce = Nonce(key: Term, counter: ReplayWindow.Counter)

  /** Why a datagram is on the wire. */
  datatype Origin =
    | FromInit(ephemeral: nat)
    | FromResponse(ephemeral: nat)
    | FromSeal(nonce: Nonce)

  const NO_HALF := Half(Left, true, 0, 0, 0, 0)

  type Slots = s: seq<Half> | |s| == N_SESSIONS witness
    [NO_HALF, NO_HALF, NO_HALF, NO_HALF, NO_HALF, NO_HALF, NO_HALF, NO_HALF]

  datatype Ledger = Ledger(
    /** The network leaves the indices of handshake messages as they are. */
    intact: bool,
    /** Every ephemeral key drawn so far. */
    drawn: set<nat>,
    /** The initiations sent, by ephemeral key. */
    inits: map<nat, InitRecord>,
    /** The sessions established by a responder, by its ephemeral key. */
    responded: map<nat, Half>,
    /** The sessions established by an initiator, by its ephemeral key. */
    completed: map<nat, Half>,
    wire: map<Datagram, Origin>,
    sealed: map<Nonce, Sealed>,
    /** The counters accepted so far, and by which half. */
    accepted: map<Nonce, Half>,
    /** The half behind each slot of the two rings. */
    slots: Pair<Slots>
  ) {
    /** This half of an exchange has been established. */
    predicate Knows(half: Half) {
      if half.initiator then half.ei in completed && completed[half.ei] == half
      else half.er in responded && responded[half.er] == half
    }
  }

  // ---------------------------------------------------------------------------
  // Consistency
  // ---------------------------------------------------------------------------

  ghost predicate WireOk(k: Schedule, l: Ledger, d: Datagram, origin: Origin) {
    match origin
    case FromInit(e) =>
      && e in l.inits && d.HandshakeInit?
      && d.senderIdx == l.inits[e].index && d.ephemeral == Public(e)
      && d.encryptedStatic == k.box(l.inits[e].side, e)
    case FromResponse(e) =>
      && e in l.responded && d.HandshakeResponse?
      && d.senderIdx == l.responded[e].local && d.receiverIdx == l.responded[e].peer && d.ephemeral == Public(e)
      && d.encryptedNothing.Seal? && d.encryptedNothing.key == k.seal(l.responded[e])
    case FromSeal(nonce) =>
      && nonce in l.sealed && d.Data?
      && d.cipher == Seal(nonce.key, Number(nonce.counter), Payload(l.sealed[nonce].packet), Empty)
  }

  ghost predicate RespondedOk(l: Ledger, e: nat)
    requires e in l.responded
  {
    var half := l.responded[e];
    && !half.initiator && half.er == e && e in l.drawn
    && half.ei in l.inits && Answers(l, half)
  }

  /** The responder's half answers an initiation of the other side, and knows its index if that was not rewritten. */
  predicate Answers(l: Ledger, half: Half)
    requires half.ei in l.inits
  {
    l.inits[half.ei].side == half.side.Other() && (l.intact ==> l.inits[half.ei].index == half.peer)
  }

  ghost predicate CompletedOk(l: Ledger, e: nat)
    requires e in l.completed
  {
    var half := l.completed[e];
    && half.initiator && half.ei == e
    && e in l.inits && l.inits[e] == InitRecord(half.side, half.local)
    && half.er in l.responded && half.Pairs(l.responded[half.er], l.intact)
  }

  ghost predicate SealedOk(k: Schedule, l: Ledger, nonce: Nonce)
    requires nonce in l.sealed
  {
    && l.Knows(l.sealed[nonce].writer)
    && k.send(l.sealed[nonce].writer) == nonce.key
    && nonce.counter < ReplayWindow.SAFE_COUNTERS
  }

  ghost predicate AcceptedOk(k: Schedule, l: Ledger, nonce: Nonce)
    requires nonce in l.accepted
  {
    && l.Knows(l.accepted[nonce])
    && k.receive(l.accepted[nonce]) == nonce.key
    && nonce in l.sealed
    && l.sealed[nonce].writer.Pairs(l.accepted[nonce], l.intact)
  }

  /** The ledger itself is consistent. */
  ghost predicate LedgerOk(k: Schedule, l: Ledger) {
    && (forall e :: e in l.inits ==> e in l.drawn)
    && (forall e :: e in l.responded ==> RespondedOk(l, e))
    && (forall e :: e in l.completed ==> CompletedOk(l, e))
    && (forall d :: d in l.wire ==> WireOk(k, l, d, l.wire[d]))
    && (forall n :: n in l.sealed ==> SealedOk(k, l, n))
    && (forall n :: n in l.accepted ==> AcceptedOk(k, l, n))
  }

  // ---------------------------------------------------------------------------
  // A growing ledger
  // ---------------------------------------------------------------------------

  /** Nothing recorded is lost or changed. */
  ghost predicate Extends(l: Ledger, l': Ledger) {
    && l'.intact == l.intact
    && l.drawn <= l'.drawn
    && (forall e :: e in l.inits ==> e in l'.inits && l'.inits[e] == l.inits[e])
    && (forall e :: e in l.responded ==> e in l'.responded && l'.responded[e] == l.responded[e])
    && (forall e :: e in l.completed ==> e in l'.completed && l'.completed[e] == l.completed[e])
    && (forall n :: n in l.sealed ==> n in l'.sealed && l'.sealed[n] == l.sealed[n])
    && (forall n :: n in l.accepted ==> n in l'.accepted && l'.accepted[n] == l.accepted[n])
  }

  lemma WireStaysOk(k: Schedule, l: Ledger, l': Ledger, d: Datagram, origin: Origin)
    requires Extends(l, l') && WireOk(k, l, d, origin)
    ensures WireOk(k, l', d, origin)
  {}

  /** The records of each kind are consistent in `l'` if the new ones are. */
  lemma RespondedStayOk(l: Ledger, l': Ledger)
    requires Extends(l, l')
    requires forall e :: e in l.responded ==> RespondedOk(l, e)
    requires forall e :: e in l'.responded && e !in l.responded ==> RespondedOk(l', e)
    ensures forall e :: e in l'.responded ==> RespondedOk(l', e)
  {
    forall e | e in l'.responded
      ensures RespondedOk(l', e)
    {
      if e in l.responded {
        assert RespondedOk(l, e);
      }
    }
  }

  lemma CompletedStayOk(l: Ledger, l': Ledger)
    requires Extends(l, l')
    requires forall e :: e in l.completed ==> CompletedOk(l, e)
    requires forall e :: e in l'.completed && e !in l.completed ==> CompletedOk(l', e)
    ensures forall e :: e in l'.completed ==> CompletedOk(l', e)
  {
    forall e | e in l'.completed
      ensures CompletedOk(l', e)
    {
      if e in l.completed {
        assert CompletedOk(l, e);
      }
    }
  }

  lemma SealedStayOk(k: Schedule, l: Ledger, l': Ledger)
    requires Extends(l, l')
    requires forall n :: n in l.sealed ==> SealedOk(k, l, n)
    requires forall n :: n in l'.sealed && n !in l.sealed ==> SealedOk(k, l', n)
    ensures forall n :: n in l'.sealed ==> SealedOk(k, l', n)
  {
    forall n | n in l'.sealed
      ensures SealedOk(k, l', n)
    {
      if n in l.sealed {
        assert SealedOk(k, l, n);
      }
    }
  }

  lemma AcceptedStayOk(k: Schedule, l: Ledger, l': Ledger)
    requires Extends(l, l')
    requires forall n :: n in l.accepted ==> AcceptedOk(k, l, n)
    requires forall n :: n in l'.accepted && n !in l.accepted ==> AcceptedOk(k, l', n)
    ensures forall n :: n in l'.accepted ==> AcceptedOk(k, l', n)
  {
    forall n | n in l'.accepted
      ensures AcceptedOk(k, l', n)
    {
      if n in l.accepted {
        assert AcceptedOk(k, l, n);
      }
    }
  }

  lemma WireStaysAllOk(k: Schedule, l: Ledger, l': Ledger)
    requires Extends(l, l')
    requires forall d :: d in l.wire ==> WireOk(k, l, d, l.wire[d])
    requires forall d :: d in l'.wire ==> (d in l.wire && l'.wire[d] == l.wire[d]) || WireOk(k, l', d, l'.wire[d])
    ensures forall d :: d in l'.wire ==> WireOk(k, l', d, l'.wire[d])
  {
    forall d | d in l'.wire
      ensures WireOk(k, l', d, l'.wire[d])
    {
      if d in l.wire && l'.wire[d] == l.wire[d] {
        WireStaysOk(k, l, l', d, l.wire[d]);
      }
    }
  }

  /** A consistent ledger that grows by consistent records is consistent. */
  lemma LedgerStaysOk(k: Schedule, l: Ledger, l': Ledger)
    requires LedgerOk(k, l) && Extends(l, l')
    requires forall e :: e in l'.inits && e !in l.inits ==> e in l'.drawn
    requires forall e :: e in l'.responded && e !in l.responded ==> RespondedOk(l', e)
    requires forall e :: e in l'.completed && e !in l.completed ==> CompletedOk(l', e)
    requires forall n :: n in l'.sealed && n !in l.sealed ==> SealedOk(k, l', n)
    requires forall n :: n in l'.accepted && n !in l.accepted ==> AcceptedOk(k, l', n)
    requires forall d :: d in l'.wire ==> (d in l.wire && l'.wire[d] == l.wire[d]) || WireOk(k, l', d, l'.wire[d])
    ensures LedgerOk(k, l')
  {
    RespondedStayOk(l, l');
    CompletedStayOk(l, l');
    SealedStayOk(k, l, l');
    AcceptedStayOk(k, l, l');
    WireStaysAllOk(k, l, l');
  }

  /** A half that was never established. */
  ghost predicate Unheard(l: Ledger, half: Half) {
    forall known :: l.Knows(known) ==> !known.SameAs(half)
  }

  /** Nothing was sealed or accepted under the keys of a half that was never established. */
  lemma UnheardKeys(k: Schedule, l: Ledger, half: Half)
    requires Sound(k) && LedgerOk(k, l) && Unheard(l, half)
    ensures forall n :: n in l.sealed ==> n.key != k.send(half)
    ensures forall n :: n in l.accepted ==> n.key != k.receive(half)
  {
    forall n | n in l.sealed
      ensures n.key != k.send(half)
    {
      assert SealedOk(k, l, n);
    }
    forall n | n in l.accepted
      ensures n.key != k.receive(half)
    {
      assert AcceptedOk(k, l, n);
    }
  }

  // ---------------------------------------------------------------------------
  // What is recorded
  // ---------------------------------------------------------------------------

  function RecordInit(l: Ledger, side: Side, ephemeral: nat, index: Index32, d: Datagram): Ledger {
    l.(drawn := l.drawn + {ephemeral},
       inits := l.inits[ephemeral := InitRecord(side, index)],
       wire := l.wire[d := FromInit(ephemeral)])
  }

  function RecordResponse(l: Ledger, half: Half, d: Datagram): Ledger {
    l.(drawn := l.drawn + {half.er},
       responded := l.responded[half.er := half],
       wire := l.wire[d := FromResponse(half.er)],
       slots := l.slots.Set(half.side, l.slots.At(half.side)[half.local % N_SESSIONS := half]))
  }

  /** A completed initiation at once seals an empty packet. */
  function RecordCompletion(l: Ledger, half: Half, nonce: Nonce, d: Datagram): Ledger {
    l.(completed := l.completed[half.ei := half],
       sealed := l.sealed[nonce := Sealed(half, [])],
       wire := l.wire[d := FromSeal(nonce)],
       slots := l.slots.Set(half.side, l.slots.At(half.side)[half.local % N_SESSIONS := half]))
  }

  function RecordSeal(l: Ledger, half: Half, nonce: Nonce, packet: Packet, d: Datagram): Ledger {
    l.(sealed := l.sealed[nonce := Sealed(half, packet)],
       wire := l.wire[d := FromSeal(nonce)])
  }

  function RecordOpen(l: Ledger, half: Half, nonce: Nonce): Ledger {
    l.(accepted := l.accepted[nonce := half])
  }

  lemma InitRecorded(k: Schedule, l: Ledger, side: Side, ephemeral: nat, index: Index32, d: Datagram)
    requires LedgerOk(k, l) && ephemeral !in l.drawn
    requires d.HandshakeInit? && d.senderIdx == index && d.ephemeral == Public(ephemeral)
    requires d.encryptedStatic == k.box(side, ephemeral)
    ensures LedgerOk(k, RecordInit(l, side, ephemeral, index, d))
    ensures Extends(l, RecordInit(l, side, ephemeral, index, d))
  {
    LedgerStaysOk(k, l, RecordInit(l, side, ephemeral, index, d));
  }

  lemma NewResponderUnheard(k: Schedule, l: Ledger, half: Half)
    requires LedgerOk(k, l) && !half.initiator && half.er !in l.drawn
    ensures Unheard(l, half) && half.er !in l.responded
  {
    assert forall e :: e in l.responded ==> RespondedOk(l, e);
    forall known | l.Knows(known)
      ensures !known.SameAs(half)
    {
      if !known.initiator {
        assert RespondedOk(l, known.er);
      }
    }
  }

  lemma NewInitiatorUnheard(k: Schedule, l: Ledger, half: Half)
    requires LedgerOk(k, l) && half.initiator && half.ei !in l.completed
    ensures Unheard(l, half)
  {}

  lemma ResponseRecorded(k: Schedule, l: Ledger, half: Half, d: Datagram)
    requires LedgerOk(k, l) && !half.initiator && half.er !in l.drawn
    requires half.ei in l.inits && Answers(l, half)
    requires d.HandshakeResponse? && d.senderIdx == half.local && d.receiverIdx == half.peer
    requires d.ephemeral == Public(half.er)
    requires d.encryptedNothing.Seal? && d.encryptedNothing.key == k.seal(half)
    ensures LedgerOk(k, RecordResponse(l, half, d))
    ensures Extends(l, RecordResponse(l, half, d)) && RecordResponse(l, half, d).Knows(half) && Unheard(l, half)
  {
    var l' := RecordResponse(l, half, d);
    NewResponderUnheard(k, l, half);
    assert half.er !in l.responded;
    LedgerStaysOk(k, l, l');
  }

  lemma CompletionRecorded(k: Schedule, l: Ledger, half: Half, d: Datagram)
    requires Sound(k) && LedgerOk(k, l) && half.initiator && half.ei !in l.completed
    requires half.ei in l.inits && l.inits[half.ei] == InitRecord(half.side, half.local)
    requires half.er in l.responded && half.Pairs(l.responded[half.er], l.intact)
    requires d.Data? && d.cipher == Seal(k.send(half), Number(0), Payload([]), Empty)
    ensures
      var nonce := Nonce(k.send(half), 0);
      var l' := RecordCompletion(l, half, nonce, d);
      LedgerOk(k, l') && Extends(l, l') && l'.Knows(half) && Unheard(l, half) && nonce !in l.sealed
  {
    var nonce := Nonce(k.send(half), 0);
    var l' := RecordCompletion(l, half, nonce, d);
    NewInitiatorUnheard(k, l, half);
    UnheardKeys(k, l, half);
    assert SealedOk(k, l', nonce);
    LedgerStaysOk(k, l, l');
  }

  lemma SealRecorded(k: Schedule, l: Ledger, half: Half, nonce: Nonce, packet: Packet, d: Datagram)
    requires LedgerOk(k, l) && l.Knows(half) && nonce !in l.sealed
    requires nonce.key == k.send(half) && nonce.counter < ReplayWindow.SAFE_COUNTERS
    requires d.Data? && d.cipher == Seal(nonce.key, Number(nonce.counter), Payload(packet), Empty)
    ensures LedgerOk(k, RecordSeal(l, half, nonce, packet, d))
    ensures Extends(l, RecordSeal(l, half, nonce, packet, d))
  {
    var l' := RecordSeal(l, half, nonce, packet, d);
    assert SealedOk(k, l', nonce);
    LedgerStaysOk(k, l, l');
  }

  lemma OpenRecorded(k: Schedule, l: Ledger, half: Half, nonce: Nonce)
    requires LedgerOk(k, l) && l.Knows(half) && nonce in l.sealed && nonce !in l.accepted
    requires nonce.key == k.receive(half) && l.sealed[nonce].writer.Pairs(half, l.intact)
    ensures LedgerOk(k, RecordOpen(l, half, nonce))
    ensures Extends(l, RecordOpen(l, half, nonce))
  {
    var l' := RecordOpen(l, half, nonce);
    assert AcceptedOk(k, l', nonce);
    LedgerStaysOk(k, l, l');
  }
}
