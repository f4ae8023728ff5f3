/**
 The keys of one exchange between two given peers, as a function of who initiated it and of the two
 ephemeral keys, and the fact that they determine all three.
 */
module Exchanges {
  import opened Wrappers
  import opened Crypto
  import opened Messages
  import opened Sessions
  import opened Handshakes
  import ReplayWindow

  datatype Side = Left | Right {
    function Other(): Side {
      if Left? then Right else Left
    }
  }

  datatype Pair<T> = Pair(left: T, right: T) {
    function At(side: Side): T {
      if side.Left? then left else right
    }

    function Set(side: Side, value: T): Pair<T> {
      if side.Left? then this.(left := value) else this.(right := value)
    }
  }

  /** The static keys of the two peers and the key they share in advance. */
  datatype Keys = Keys(secrets: Pair<nat>, psk: Term) {
    predicate Distinct() {
      secrets.left != secrets.right
    }

    function Secret(side: Side): nat {
      secrets.At(side)
    }
  }

  /** The parameters of the tunnel on one side. */
  predicate Configured(keys: Keys, side: Side, p: Params) {
    && p.staticPrivate == keys.Secret(side)
    && p.peerStaticPublic == Public(keys.Secret(side.Other()))
    && p.Psk() == keys.psk
  }

  /** The chaining key after an initiation from `initiator` with ephemeral key `ei`. */
  function InitiationKey(keys: Keys, initiator: Side, ei: nat): Term {
    var responder := Public(keys.Secret(initiator.Other()));
    MixKey(MixKey(MixKey(CONSTRUCTION, Public(ei)), DiffieHellman(ei, responder)),
           DiffieHellman(keys.Secret(initiator), responder))
  }

  /** The box in which an initiation carries the initiator's public key. */
  function StaticBox(keys: Keys, initiator: Side, ei: nat): Term {
    var responder := Public(keys.Secret(initiator.Other()));
    Opened(responder, Public(ei)).Box(DiffieHellman(ei, responder), Public(keys.Secret(initiator)))
  }

  /** The value from which the sealing key and both session keys of an exchange are derived. */
  function Root(keys: Keys, initiator: Side, ei: nat, er: nat): Term {
    RootFrom(InitiationKey(keys, initiator, ei), Public(er), DiffieHellman(ei, Public(er)),
             DiffieHellman(keys.Secret(initiator), Public(er)), keys.psk)
  }

  function RootFrom(chainingKey: Term, ephemeral: Term, ephemeralSecret: Term, staticSecret: Term, psk: Term): Term {
    Hmac(MixKey(MixKey(MixKey(chainingKey, ephemeral), ephemeralSecret), staticSecret), psk)
  }

  function SealKey(root: Term): Term {
    Hmac2(root, Hmac2(root, Hmac(root, ONE), TWO), THREE)
  }

  /** The key for packets from the initiator. */
  function ForwardKey(root: Term): Term {
    Hmac(Hmac(Hmac(root, ONE), Empty), ONE)
  }

  /** The key for packets to the initiator. */
  function BackwardKey(root: Term): Term {
    Hmac2(Hmac(Hmac(root, ONE), Empty), ForwardKey(root), TWO)
  }

  /** What a handshake derives at its end comes from the root. */
  lemma FinishedFromRoot(t: Transcript, ephemeral: Term, ephemeralSecret: Term, staticSecret: Term, psk: Term)
    ensures
      var finish := Finished(t, ephemeral, ephemeralSecret, staticSecret, psk);
      var root := RootFrom(t.chainingKey, ephemeral, ephemeralSecret, staticSecret, psk);
      finish.sealKey == SealKey(root) && finish.Forward() == ForwardKey(root) && finish.Backward() == BackwardKey(root)
  {}

  /** An exchange is determined by its root. */
  lemma RootDetermines(keys: Keys, i: Side, ei: nat, er: nat, j: Side, fi: nat, fr: nat)
    requires keys.Distinct() && Root(keys, i, ei, er) == Root(keys, j, fi, fr)
    ensures i == j && ei == fi && er == fr
  {
    assert InitiationKey(keys, i, ei) == InitiationKey(keys, j, fi);
    DiffieHellmanInjective(ei, keys.Secret(i.Other()), keys.Secret(j.Other()));
  }

  // ---------------------------------------------------------------------------
  // Sessions of an exchange
  // ---------------------------------------------------------------------------

  /** One side's half of an exchange: its role, both ephemeral keys and the indices it uses. */
  datatype Half = Half(side: Side, initiator: bool, ei: nat, er: nat, local: Index32, peer: Index32) {

    function InitiatorSide(): Side {
      if initiator then side else side.Other()
    }

    function RootOf(keys: Keys): Term {
      Root(keys, InitiatorSide(), ei, er)
    }

    function SendKey(keys: Keys): Term {
      if initiator then ForwardKey(RootOf(keys)) else BackwardKey(RootOf(keys))
    }

    function ReceiveKey(keys: Keys): Term {
      if initiator then BackwardKey(RootOf(keys)) else ForwardKey(RootOf(keys))
    }

    /** The other half: same exchange, other side and role, swapped indices. */
    predicate MirrorOf(other: Half) {
      Faces(other) && local == other.peer && peer == other.local
    }

    /** The other half of the exchange, mirrored if the indices of the handshake reached their receivers intact. */
    predicate Pairs(other: Half, intact: bool) {
      Faces(other) && (intact ==> MirrorOf(other))
    }

    /** Other side, other role, same exchange. */
    predicate Faces(other: Half) {
      side == other.side.Other() && initiator != other.initiator && ei == other.ei && er == other.er
    }

    /** Same side, same role, same exchange. */
    predicate SameAs(other: Half) {
      side == other.side && initiator == other.initiator && ei == other.ei && er == other.er
    }
  }

  /** The session that a half of an exchange is. */
  predicate Keyed(keys: Keys, half: Half, s: Session) {
    && s.receiver == half.ReceiveKey(keys) && s.sender == half.SendKey(keys)
    && s.receivingIndex == half.local && s.sendingIndex == half.peer
  }

  lemma ForwardIsNotBackward(root: Term, root': Term)
    ensures ForwardKey(root) != BackwardKey(root')
    ensures ForwardKey(root) == ForwardKey(root') ==> root == root'
    ensures BackwardKey(root) == BackwardKey(root') ==> root == root'
  {}

  lemma SameReceiveKey(keys: Keys, a: Half, b: Half)
    requires keys.Distinct() && a.ReceiveKey(keys) == b.ReceiveKey(keys)
    ensures a.SameAs(b)
  {
    ForwardIsNotBackward(a.RootOf(keys), b.RootOf(keys));
    ForwardIsNotBackward(b.RootOf(keys), a.RootOf(keys));
    RootDetermines(keys, a.InitiatorSide(), a.ei, a.er, b.InitiatorSide(), b.ei, b.er);
  }

  lemma SameSendKey(keys: Keys, a: Half, b: Half)
    requires keys.Distinct() && a.SendKey(keys) == b.SendKey(keys)
    ensures a.SameAs(b)
  {
    ForwardIsNotBackward(a.RootOf(keys), b.RootOf(keys));
    ForwardIsNotBackward(b.RootOf(keys), a.RootOf(keys));
    RootDetermines(keys, a.InitiatorSide(), a.ei, a.er, b.InitiatorSide(), b.ei, b.er);
  }

  /** Who can send what this half reads is the other side, in the other role of the same exchange. */
  lemma ReadsFromOther(keys: Keys, reader: Half, writer: Half)
    requires keys.Distinct() && reader.ReceiveKey(keys) == writer.SendKey(keys)
    ensures reader.Faces(writer)
  {
    ForwardIsNotBackward(reader.RootOf(keys), writer.RootOf(keys));
    ForwardIsNotBackward(writer.RootOf(keys), reader.RootOf(keys));
    RootDetermines(keys, reader.InitiatorSide(), reader.ei, reader.er, writer.InitiatorSide(), writer.ei, writer.er);
  }

  // ---------------------------------------------------------------------------
  // What the operations of a configured tunnel derive
  // ---------------------------------------------------------------------------

  /** An initiation leaves the initiation key behind and carries the static box. */
  lemma InitiationDerives(keys: Keys, side: Side, h: Handshake, ephemeral: nat, now: nat)
    requires Configured(keys, side, h.params)
    ensures
      var (h', d) := h.FormatInitiation(ephemeral, now);
      && d.HandshakeInit? && d.ephemeral == Public(ephemeral)
      && d.encryptedStatic == StaticBox(keys, side, ephemeral)
      && h'.state.InitSent? && h'.state.sent.ephemeralPrivate == ephemeral
      && h'.state.sent.chainingKey == InitiationKey(keys, side, ephemeral)
      && h'.state.sent.localIndex == d.senderIdx
      && h'.previous == h.state && h'.params == h.params
  {}

  /** A side only reads an initiation that the other side boxed, and only with the ephemeral key it was boxed for. */
  lemma ReadableIsFromOther(keys: Keys, side: Side, h: Handshake, msg: Datagram, initiator: Side, ei: nat)
    requires keys.Distinct() && Configured(keys, side, h.params)
    requires msg.HandshakeInit? && msg.encryptedStatic == StaticBox(keys, initiator, ei)
    requires h.ReadInitiation(msg).Ok?
    ensures initiator == side.Other() && msg.ephemeral == Public(ei)
    ensures h.ReadInitiation(msg).value.0.chainingKey == InitiationKey(keys, initiator, ei)
  {
    DiffieHellmanCommutes(ei, keys.Secret(side));
    DiffieHellmanCommutes(keys.Secret(side), keys.Secret(side.Other()));
  }

  /** The session and the response of a side that accepts an initiation of the other side. */
  lemma ResponseDerives(keys: Keys, side: Side, h: Handshake, msg: Datagram, ei: nat, ephemeral: nat, dstLen: nat)
    requires Configured(keys, side, h.params)
    requires msg.HandshakeInit? && msg.ephemeral == Public(ei) && dstLen >= HANDSHAKE_RESP_SZ
    requires h.ReceiveInitiation(msg, ephemeral, dstLen).1.Ok?
    requires h.ReadInitiation(msg).Ok?
    requires h.ReadInitiation(msg).value.0.chainingKey == InitiationKey(keys, side.Other(), ei)
    ensures
      var (h', r) := h.ReceiveInitiation(msg, ephemeral, dstLen);
      var (d, s) := r.value;
      var half := Half(side, false, ei, ephemeral, s.receivingIndex, msg.senderIdx);
      && Keyed(keys, half, s) && s.sendCounter == 0 && s.window == ReplayWindow.EmptyWindow
      && d.HandshakeResponse? && d.ephemeral == Public(ephemeral)
      && d.senderIdx == s.receivingIndex && d.receiverIdx == msg.senderIdx
      && d.encryptedNothing.Seal? && d.encryptedNothing.key == SealKey(half.RootOf(keys))
      && h'.params == h.params && h'.state == NoHandshake && h'.previous == h.state
  {
    DiffieHellmanCommutes(ei, ephemeral);
    DiffieHellmanCommutes(keys.Secret(side.Other()), ephemeral);
    var t := h.ReadInitiation(msg).value.0;
    FinishedFromRoot(t, Public(ephemeral), DiffieHellman(ephemeral, msg.ephemeral),
                     DiffieHellman(ephemeral, h.params.peerStaticPublic), h.params.Psk());
  }

  /** The session of a side that accepts a response to one of its initiations. */
  lemma CompletionDerives(keys: Keys, side: Side, h: Handshake, msg: Datagram, er: nat)
    requires Configured(keys, side, h.params)
    requires msg.HandshakeResponse? && msg.ephemeral == Public(er)
    requires h.ReceiveResponse(msg).1.Ok?
    requires h.Answered(msg.receiverIdx).Some?
    requires
      var sent := h.Answered(msg.receiverIdx).value.0;
      sent.chainingKey == InitiationKey(keys, side, sent.ephemeralPrivate)
    ensures
      var sent := h.Answered(msg.receiverIdx).value.0;
      var (h', r) := h.ReceiveResponse(msg);
      var half := Half(side, true, sent.ephemeralPrivate, er, sent.localIndex, msg.senderIdx);
      && Keyed(keys, half, r.value) && r.value.sendCounter == 0 && r.value.window == ReplayWindow.EmptyWindow
      && msg.encryptedNothing.Seal? && msg.encryptedNothing.key == SealKey(half.RootOf(keys))
      && h'.params == h.params
  {
    var sent := h.Answered(msg.receiverIdx).value.0;
    FinishedFromRoot(Transcript(sent.chainingKey, sent.hash), msg.ephemeral,
                     DiffieHellman(sent.ephemeralPrivate, msg.ephemeral),
                     DiffieHellman(h.params.staticPrivate, msg.ephemeral), h.params.Psk());
  }

  /** An accepted response carries a box under the key that the initiator derives from the response. */
  lemma AcceptedBox(h: Handshake, msg: Datagram)
    requires msg.HandshakeResponse? && h.ReceiveResponse(msg).1.Ok?
    ensures h.Answered(msg.receiverIdx).Some? && msg.encryptedNothing.Seal?
    ensures
      var sent := h.Answered(msg.receiverIdx).value.0;
      var root := RootFrom(sent.chainingKey, msg.ephemeral, DiffieHellman(sent.ephemeralPrivate, msg.ephemeral),
                           DiffieHellman(h.params.staticPrivate, msg.ephemeral), h.params.Psk());
      msg.encryptedNothing.key == SealKey(root)
  {
    var sent := h.Answered(msg.receiverIdx).value.0;
    FinishedFromRoot(Transcript(sent.chainingKey, sent.hash), msg.ephemeral,
                     DiffieHellman(sent.ephemeralPrivate, msg.ephemeral),
                     DiffieHellman(h.params.staticPrivate, msg.ephemeral), h.params.Psk());
  }

  /** A response is only accepted with the ephemeral key that its box was made with. */
  lemma AcceptedEphemeral(keys: Keys, h: Handshake, msg: Datagram, answer: Half)
    requires msg.HandshakeResponse? && h.ReceiveResponse(msg).1.Ok?
    requires msg.encryptedNothing.Seal? && msg.encryptedNothing.key == SealKey(answer.RootOf(keys))
    ensures msg.ephemeral == Public(answer.er)
  {
    AcceptedBox(h, msg);
    var sent := h.Answered(msg.receiverIdx).value.0;
    SealKeyDetermines(RootFrom(sent.chainingKey, msg.ephemeral, DiffieHellman(sent.ephemeralPrivate, msg.ephemeral),
                               DiffieHellman(h.params.staticPrivate, msg.ephemeral), h.params.Psk()),
                      answer.RootOf(keys));
  }

  lemma SealKeyDetermines(root: Term, root': Term)
    requires SealKey(root) == SealKey(root')
    ensures root == root'
  {}

  // ---------------------------------------------------------------------------
  // Key schedules
  // ---------------------------------------------------------------------------

  /** The keys of halves as functions of which only distinctness is known. */
  datatype Schedule = Schedule(
    send: Half -> Term,
    receive: Half -> Term,
    seal: Half -> Term,
    box: (Side, nat) -> Term,
    chain: (Side, nat) -> Term
  )

  /** Keys tell halves apart, and a half reads only what the other half of its exchange writes. */
  ghost predicate Sound(k: Schedule) {
    && (forall a: Half, b: Half {:trigger k.send(a), k.send(b)} :: k.send(a) == k.send(b) ==> a.SameAs(b))
    && (forall a: Half, b: Half {:trigger k.receive(a), k.receive(b)} :: k.receive(a) == k.receive(b) ==> a.SameAs(b))
    && (forall a: Half, b: Half {:trigger k.receive(a), k.send(b)} :: k.receive(a) == k.send(b) <==> a.Faces(b))
    && (forall a: Half, b: Half {:trigger k.seal(a), k.seal(b)} :: k.seal(a) == k.seal(b) ==>
          a.InitiatorSide() == b.InitiatorSide() && a.ei == b.ei && a.er == b.er)
  }

  /** `k` is the schedule that the handshake computes. */
  ghost predicate Computes(keys: Keys, k: Schedule) {
    && (forall half: Half {:trigger half.SendKey(keys)} {:trigger half.ReceiveKey(keys)} {:trigger half.RootOf(keys)} ::
          && k.send(half) == half.SendKey(keys)
          && k.receive(half) == half.ReceiveKey(keys)
          && k.seal(half) == SealKey(half.RootOf(keys)))
    && (forall side, e {:trigger StaticBox(keys, side, e)} {:trigger InitiationKey(keys, side, e)} ::
          && k.box(side, e) == StaticBox(keys, side, e)
          && k.chain(side, e) == InitiationKey(keys, side, e))
  }

  lemma SameSealKey(keys: Keys, a: Half, b: Half)
    requires keys.Distinct() && SealKey(a.RootOf(keys)) == SealKey(b.RootOf(keys))
    ensures a.InitiatorSide() == b.InitiatorSide() && a.ei == b.ei && a.er == b.er
  {
    SealKeyDetermines(a.RootOf(keys), b.RootOf(keys));
    RootDetermines(keys, a.InitiatorSide(), a.ei, a.er, b.InitiatorSide(), b.ei, b.er);
  }

  /** The handshake's keys tell halves apart. */
  lemma ScheduleIsSound(keys: Keys) returns (k: Schedule)
    requires keys.Distinct()
    ensures Sound(k) && Computes(keys, k)
  {
    k := Schedule(
      (half: Half) => half.SendKey(keys), (half: Half) => half.ReceiveKey(keys),
      (half: Half) => SealKey(half.RootOf(keys)),
      (side: Side, e: nat) => StaticBox(keys, side, e), (side: Side, e: nat) => InitiationKey(keys, side, e));
    forall a: Half, b: Half | k.send(a) == k.send(b)
      ensures a.SameAs(b)
    {
      SameSendKey(keys, a, b);
    }
    forall a: Half, b: Half | k.receive(a) == k.receive(b)
      ensures a.SameAs(b)
    {
      SameReceiveKey(keys, a, b);
    }
    forall a: Half, b: Half | k.receive(a) == k.send(b)
      ensures a.Faces(b)
    {
      ReadsFromOther(keys, a, b);
    }
    forall a: Half, b: Half | a.Faces(b)
      ensures k.receive(a) == k.send(b)
    {
      assert a.InitiatorSide() == b.InitiatorSide();
    }
    forall a: Half, b: Half | k.seal(a) == k.seal(b)
      ensures a.InitiatorSide() == b.InitiatorSide() && a.ei == b.ei && a.er == b.er
    {
      SameSealKey(keys, a, b);
    }
  }
}
