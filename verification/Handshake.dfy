/**
 The Noise IK handshake: formatting and receiving initiations and responses, with up to two
 initiations in flight, timestamps against replay, and cookies.

 `Handshake` is the value of the state; its functions say what each operation does in terms of the
 transcript of the exchange. The class `HandshakeMachine` performs the operations step by step, on
 running `hash` and `chainingKey` variables, and is proved to do the same.
 */
module Handshakes {
  import opened Wrappers
  import opened Crypto
  import opened Messages
  import opened Sessions

  // ---------------------------------------------------------------------------
  // State
  // ---------------------------------------------------------------------------

  const SECOND := 1_000_000_000
  const TAI64_BASE := 0x4000_0000_0000_0000 + 37

  datatype Tai64N = Tai64N(secs: nat, nano: nat) {
    predicate After(other: Tai64N) {
      secs > other.secs || (secs == other.secs && nano > other.nano)
    }
  }

  /** The timestamp of a clock reading in nanoseconds. */
  function StampAt(t: nat): Tai64N {
    Tai64N(t / SECOND + TAI64_BASE, t % SECOND)
  }

  datatype Params = Params(staticPrivate: nat, peerStaticPublic: Term, presharedKey: Option<Term>) {
    function StaticPublic(): Term {
      Public(staticPrivate)
    }

    function StaticShared(): Term {
      DiffieHellman(staticPrivate, peerStaticPublic)
    }

    function SendingMac1Key(): Term {
      Hash(LABEL_MAC1, peerStaticPublic)
    }

    function Psk(): Term {
      match presharedKey
      case Some(key) => key
      case None => Zero
    }
  }

  datatype InitSentState = InitSentState(
    localIndex: Index32, hash: Term, chainingKey: Term, ephemeralPrivate: nat, timeSent: nat)

  datatype HandshakeState =
    | NoHandshake
    | InitSent(sent: InitSentState)
    | InitReceived(hash: Term, chainingKey: Term, peerEphemeral: Term, peerIndex: Index32)
    | Expired

  datatype Cookies = Cookies(lastMac1: Option<Term>, index: Index32, writeCookie: Option<Term>)

  /** The two MACs at the end of a handshake message. */
  datatype Macs = Macs(mac1: Term, mac2: Term)

  // ---------------------------------------------------------------------------
  // Transcript
  // ---------------------------------------------------------------------------

  function MixKey(chainingKey: Term, secret: Term): Term {
    Hmac(Hmac(chainingKey, secret), ONE)
  }

  /** The sealing key that comes with mixing in `secret`. */
  function MixedSealKey(chainingKey: Term, secret: Term): Term {
    Hmac2(Hmac(chainingKey, secret), MixKey(chainingKey, secret), TWO)
  }

  /** Chaining key and hash after some of the messages. */
  datatype Transcript = Transcript(chainingKey: Term, hash: Term) {
    function MixHash(data: Term): Transcript {
      this.(hash := Hash(hash, data))
    }

    function Mix(secret: Term): Transcript {
      this.(chainingKey := MixKey(chainingKey, secret))
    }

    /** `plain` sealed under the key that comes with `secret`, bound to the transcript so far. */
    function Box(secret: Term, plain: Term): Term {
      Seal(MixedSealKey(chainingKey, secret), Number(0), plain, hash)
    }

    function Unbox(secret: Term, box: Term): Option<Term> {
      Open(MixedSealKey(chainingKey, secret), Number(0), box, hash)
    }

    /** The transcript after a boxed value was sent. */
    function AfterBox(secret: Term, box: Term): Transcript {
      Mix(secret).MixHash(box)
    }
  }

  /** The transcript once the initiator's ephemeral key was sent to `responderPublic`. */
  function Opened(responderPublic: Term, ephemeral: Term): Transcript {
    Transcript(CONSTRUCTION, Hash(IDENTIFIER, responderPublic)).MixHash(ephemeral).Mix(ephemeral)
  }

  /** What both sides hold at the end: the last chaining key, and the key and hash that seal nothing. */
  datatype Finish = Finish(chainingKey: Term, sealKey: Term, hash: Term) {
    /** The key for packets from the initiator to the responder. */
    function Forward(): Term {
      Hmac(Hmac(chainingKey, Empty), ONE)
    }

    /** The key for packets from the responder to the initiator. */
    function Backward(): Term {
      Hmac2(Hmac(chainingKey, Empty), Forward(), TWO)
    }

    function SealNothing(): Term {
      Seal(sealKey, Number(0), Empty, hash)
    }
  }

  /** Mixes the responder's ephemeral key, its two secrets and the preshared key into the transcript. */
  function Finished(t: Transcript, ephemeral: Term, ephemeralSecret: Term, staticSecret: Term, psk: Term): Finish {
    var mixed := t.MixHash(ephemeral).Mix(ephemeral).Mix(ephemeralSecret).Mix(staticSecret);
    var temp := Hmac(mixed.chainingKey, psk);
    var chainingKey := Hmac(temp, ONE);
    var temp2 := Hmac2(temp, chainingKey, TWO);
    Finish(chainingKey, Hmac2(temp, temp2, THREE), Hash(mixed.hash, temp2))
  }

  // ---------------------------------------------------------------------------
  // Operations on values
  // ---------------------------------------------------------------------------

  /** 24 bits identify the peer, the low 8 bits count sessions cyclically. */
  function IncIndex(index: Index32): Index32 {
    index / 256 * 256 + (index % 256 + 1) % 256
  }

  datatype Handshake = Handshake(
    params: Params,
    nextIndex: Index32,
    previous: HandshakeState,
    state: HandshakeState,
    cookies: Cookies,
    lastTimestamp: Tai64N,
    stampOffset: nat
  ) {

    predicate IsInProgress() {
      state.InitSent? || state.InitReceived?
    }

    predicate IsExpired() {
      state.Expired?
    }

    function Timer(): Option<nat> {
      if state.InitSent? then Some(state.sent.timeSent) else None
    }

    function SetExpired(): Handshake {
      this.(previous := Expired, state := Expired)
    }

    function AppendMacs(localIndex: Index32, body: Term): (Handshake, Macs) {
      var mac1 := Mac(params.SendingMac1Key(), body);
      var mac2 := if cookies.writeCookie.Some? then Mac(cookies.writeCookie.value, Cat(body, mac1)) else Zero;
      (this.(cookies := cookies.(index := localIndex, lastMac1 := Some(mac1))), Macs(mac1, mac2))
    }

    /** The initiation sent with the fresh ephemeral key `ephemeral` when the clock reads `now`. */
    function FormatInitiation(ephemeral: nat, now: nat): (Handshake, Datagram) {
      var localIndex := IncIndex(nextIndex);
      var stamp := StampAt(now + stampOffset);
      var t0 := Opened(params.peerStaticPublic, Public(ephemeral));
      var es := DiffieHellman(ephemeral, params.peerStaticPublic);
      var encryptedStatic := t0.Box(es, params.StaticPublic());
      var t1 := t0.AfterBox(es, encryptedStatic);
      var encryptedTimestamp := t1.Box(params.StaticShared(), Stamp(stamp.secs, stamp.nano));
      var t2 := t1.AfterBox(params.StaticShared(), encryptedTimestamp);
      var sent := InitSentState(localIndex, t2.hash, t2.chainingKey, ephemeral, now);
      var (h, macs) := this.(nextIndex := localIndex, previous := state, state := InitSent(sent))
                       .AppendMacs(localIndex,
                                   InitBody(localIndex, Public(ephemeral), encryptedStatic, encryptedTimestamp));
      (h, HandshakeInit(localIndex, Public(ephemeral), encryptedStatic, encryptedTimestamp, macs.mac1, macs.mac2))
    }

    /** What an initiation says once opened: the transcript after it, the sender's key and the timestamp. */
    function ReadInitiation(msg: Datagram): Result<(Transcript, Tai64N), WireGuardError>
      requires msg.HandshakeInit?
    {
      var t0 := Opened(params.StaticPublic(), msg.ephemeral);
      var es := DiffieHellman(params.staticPrivate, msg.ephemeral);
      var sender := t0.Unbox(es, msg.encryptedStatic);
      if sender.None? then Err(InvalidAeadTag)
      else if sender.value != params.peerStaticPublic then Err(WrongKey)
      else
        var t1 := t0.AfterBox(es, msg.encryptedStatic);
        match t1.Unbox(params.StaticShared(), msg.encryptedTimestamp)
        case None => Err(InvalidAeadTag)
        case Some(Stamp(secs, nano)) =>
          Ok((t1.AfterBox(params.StaticShared(), msg.encryptedTimestamp), Tai64N(secs, nano)))
        case Some(_) => Err(InvalidTai64nTimestamp)
    }

    /**
     Receives an initiation and answers it with the fresh key `ephemeral`. With a destination shorter than
     a response the handshake is left half way, in state InitReceived.
     */
    function ReceiveInitiation(msg: Datagram, ephemeral: nat, dstLen: nat)
      : (Handshake, Result<(Datagram, Session), WireGuardError>)
      requires msg.HandshakeInit?
    {
      match ReadInitiation(msg)
      case Err(e) => (this, Err(e))
      case Ok((t, stamp)) =>
        if !stamp.After(lastTimestamp) then (this, Err(WrongTai64nTimestamp))
        else
          var h := this.(lastTimestamp := stamp, previous := state,
          state := InitReceived(t.hash, t.chainingKey, msg.ephemeral, msg.senderIdx));
          if dstLen < HANDSHAKE_RESP_SZ then (h, Err(DestinationBufferTooSmall))
          else
            var (h', d, s) := h.FormatResponse(ephemeral);
            (h', Ok((d, s)))
    }

    function FormatResponse(ephemeral: nat): (Handshake, Datagram, Session)
      requires state.InitReceived?
    {
      var localIndex := IncIndex(nextIndex);
      var finish := Finished(Transcript(state.chainingKey, state.hash), Public(ephemeral),
                             DiffieHellman(ephemeral, state.peerEphemeral),
                             DiffieHellman(ephemeral, params.peerStaticPublic), params.Psk());
      var nothing := finish.SealNothing();
      var (h, macs) := this.(nextIndex := localIndex, state := NoHandshake)
                       .AppendMacs(localIndex, ResponseBody(localIndex, state.peerIndex, Public(ephemeral), nothing));
      (h,
       HandshakeResponse(localIndex, state.peerIndex, Public(ephemeral), nothing, macs.mac1, macs.mac2),
       NewSession(localIndex, state.peerIndex, finish.Forward(), finish.Backward()))
    }

    /** The initiation that a response to `receiverIdx` answers: the current one, else the previous one. */
    function Answered(receiverIdx: Index32): Option<(InitSentState, bool)> {
      if state.InitSent? && state.sent.localIndex == receiverIdx then Some((state.sent, false))
      else if previous.InitSent? && previous.sent.localIndex == receiverIdx then Some((previous.sent, true))
      else None
    }

    function ReceiveResponse(msg: Datagram): (Handshake, Result<Session, WireGuardError>)
      requires msg.HandshakeResponse?
    {
      match Answered(msg.receiverIdx)
      case None => (this, Err(UnexpectedPacket))
      case Some((sent, isPrevious)) =>
        var finish := Finished(Transcript(sent.chainingKey, sent.hash), msg.ephemeral,
                               DiffieHellman(sent.ephemeralPrivate, msg.ephemeral),
                               DiffieHellman(params.staticPrivate, msg.ephemeral), params.Psk());
        if Open(finish.sealKey, Number(0), msg.encryptedNothing, finish.hash) == None then (this, Err(InvalidAeadTag))
        else
          (if isPrevious then this.(previous := NoHandshake) else this.(state := NoHandshake),
           Ok(NewSession(sent.localIndex, msg.senderIdx, finish.Backward(), finish.Forward())))
    }

    function ReceiveCookieReply(msg: Datagram): (Handshake, Result<(), WireGuardError>)
      requires msg.CookieReply?
    {
      if cookies.lastMac1 == None then (this, Err(UnexpectedPacket))
      else if msg.receiverIdx != cookies.index then (this, Err(WrongIndex))
      else
        var key := Hash(LABEL_COOKIE, params.peerStaticPublic);
        match Open(key, msg.nonce, msg.encryptedCookie, cookies.lastMac1.value)
        case None => (this, Err(InvalidAeadTag))
        case Some(cookie) => (this.(cookies := cookies.(writeCookie := Some(cookie))), Ok(()))
    }
  }

  function NewHandshake(staticPrivate: nat, peerStaticPublic: Term, globalIdx: Index32, psk: Option<Term>,
                        stampOffset: nat)
    : Handshake
  {
    Handshake(Params(staticPrivate, peerStaticPublic, psk), globalIdx, NoHandshake, NoHandshake,
              Cookies(None, 0, None), Tai64N(0, 0), stampOffset)
  }

  /** The static key inside an initiation addressed to us, before knowing which peer sent it. */
  function ParseHandshakeAnon(staticPrivate: nat, msg: Datagram): Result<(Index32, Term), WireGuardError>
    requires msg.HandshakeInit?
  {
    match Opened(Public(staticPrivate), msg.ephemeral)
          .Unbox(DiffieHellman(staticPrivate, msg.ephemeral), msg.encryptedStatic)
    case Some(public) => Ok((msg.senderIdx, public))
    case None => Err(InvalidAeadTag)
  }

  // ---------------------------------------------------------------------------
  // Agreement of the two sides
  // ---------------------------------------------------------------------------

  /** The initiator addressed this responder, and the responder expects this initiator. */
  predicate Paired(i: Params, r: Params) {
    i.peerStaticPublic == r.StaticPublic() && r.peerStaticPublic == i.StaticPublic()
  }

  /** The transcript that an initiation leaves on the initiator's side. */
  function SentTranscript(h: Handshake, ephemeral: nat, now: nat): Transcript {
    var sent := h.FormatInitiation(ephemeral, now).0.state.sent;
    Transcript(sent.chainingKey, sent.hash)
  }

  /** An initiation can be read by exactly the peer it is addressed to, if that peer expects the sender. */
  lemma InitiationReadable(i: Handshake, r: Handshake, ephemeral: nat, now: nat)
    ensures
      var msg := i.FormatInitiation(ephemeral, now).1;
      && (r.ReadInitiation(msg).Ok? <==> Paired(i.params, r.params))
      && (r.ReadInitiation(msg).Ok? ==>
            r.ReadInitiation(msg).value == (SentTranscript(i, ephemeral, now), StampAt(now + i.stampOffset)))
  {
    DiffieHellmanCommutes(ephemeral, r.params.staticPrivate);
    DiffieHellmanCommutes(i.params.staticPrivate, r.params.staticPrivate);
  }

  /** An initiation is accepted exactly when it is readable and its timestamp is newer than every accepted one. */
  lemma InitiationAccepted(i: Handshake, r: Handshake, ephemeral: nat, now: nat, answer: nat, dstLen: nat)
    requires dstLen >= HANDSHAKE_RESP_SZ
    ensures
      var msg := i.FormatInitiation(ephemeral, now).1;
      r.ReceiveInitiation(msg, answer, dstLen).1.Ok?
      <==> Paired(i.params, r.params) && StampAt(now + i.stampOffset).After(r.lastTimestamp)
  {
    InitiationReadable(i, r, ephemeral, now);
  }

  /**
   The response to an initiation is accepted, by any later state of the initiator that still waits for it,
   exactly when both sides hold the same preshared key; the two sessions then mirror each other.
   */
  lemma ResponseAccepted(i: Handshake, r: Handshake, waiting: Handshake, ephemeral: nat, now: nat, answer: nat,
                         dstLen: nat)
    requires dstLen >= HANDSHAKE_RESP_SZ
    requires r.ReceiveInitiation(i.FormatInitiation(ephemeral, now).1, answer, dstLen).1.Ok?
    requires waiting.params == i.params
    requires
      var sent := i.FormatInitiation(ephemeral, now).0.state.sent;
      waiting.Answered(sent.localIndex).Some? && waiting.Answered(sent.localIndex).value.0 == sent
    ensures
      var (msg, theirs) := r.ReceiveInitiation(i.FormatInitiation(ephemeral, now).1, answer, dstLen).1.value;
      var ours := waiting.ReceiveResponse(msg).1;
      && (ours.Ok? <==> i.params.Psk() == r.params.Psk())
      && (ours.Ok? ==> Mirrored(ours.value, theirs))
  {
    InitiationReadable(i, r, ephemeral, now);
    DiffieHellmanCommutes(ephemeral, answer);
    DiffieHellmanCommutes(i.params.staticPrivate, answer);
  }

  lemma IndicesDiffer(index: Index32)
    ensures IncIndex(index) != index
    ensures IncIndex(index) / 256 == index / 256
    ensures IncIndex(index) % 256 == (index % 256 + 1) % 256
  {}

  /** A response is accepted although a second initiation was sent before it arrived. */
  lemma DelayedResponseAccepted(i: Handshake, r: Handshake, ephemeral: nat, now: nat, again: nat, later: nat,
                                answer: nat, dstLen: nat)
    requires dstLen >= HANDSHAKE_RESP_SZ
    requires Paired(i.params, r.params) && i.params.Psk() == r.params.Psk()
    requires StampAt(now + i.stampOffset).After(r.lastTimestamp)
    ensures
      var (i', msg) := i.FormatInitiation(ephemeral, now);
      var i'' := i'.FormatInitiation(again, later).0;
      var answered := r.ReceiveInitiation(msg, answer, dstLen).1;
      && answered.Ok?
      && i''.ReceiveResponse(answered.value.0).1.Ok?
      && Mirrored(i''.ReceiveResponse(answered.value.0).1.value, answered.value.1)
  {
    InitiationAccepted(i, r, ephemeral, now, answer, dstLen);
    var i' := i.FormatInitiation(ephemeral, now).0;
    IndicesDiffer(i'.nextIndex);
    ResponseAccepted(i, r, i'.FormatInitiation(again, later).0, ephemeral, now, answer, dstLen);
  }

  /** Timestamps order as the clock readings they are made from. */
  lemma StampOrder(t: nat, u: nat)
    ensures StampAt(t).After(StampAt(u)) <==> t > u
  {
    assert t == t / SECOND * SECOND + t % SECOND;
    assert u == u / SECOND * SECOND + u % SECOND;
  }

  // ---------------------------------------------------------------------------
  // Timestamps over a run
  // ---------------------------------------------------------------------------

  datatype Event =
    | SendInit(ephemeral: nat, now: nat)
    | ReceiveInit(msg: Datagram, answer: nat, dstLen: nat)
    | ReceiveResp(msg: Datagram)
    | ReceiveCookie(msg: Datagram)
    | Expire

  function Apply(h: Handshake, e: Event): Handshake {
    match e
    case SendInit(ephemeral, now) => h.FormatInitiation(ephemeral, now).0
    case ReceiveInit(msg, answer, dstLen) =>
      if msg.HandshakeInit? then h.ReceiveInitiation(msg, answer, dstLen).0 else h
    case ReceiveResp(msg) => if msg.HandshakeResponse? then h.ReceiveResponse(msg).0 else h
    case ReceiveCookie(msg) => if msg.CookieReply? then h.ReceiveCookieReply(msg).0 else h
    case Expire => h.SetExpired()
  }

  /** `states` is what a handshake goes through when `events` happen to it. */
  ghost predicate IsRun(states: seq<Handshake>, events: seq<Event>) {
    && |states| == |events| + 1
    && forall k :: 0 <= k < |events| ==> Step(states, events, k)
  }

  ghost predicate Step(states: seq<Handshake>, events: seq<Event>, k: nat)
    requires k < |events| && |states| == |events| + 1
  {
    states[k + 1] == Apply(states[k], events[k])
  }

  /** The event is an initiation that was answered with a session. */
  predicate Accepts(h: Handshake, e: Event) {
    e.ReceiveInit? && e.msg.HandshakeInit? && h.ReceiveInitiation(e.msg, e.answer, e.dstLen).1.Ok?
  }

  predicate NotBefore(t: Tai64N, u: Tai64N) {
    t == u || t.After(u)
  }

  lemma {:induction false} TimestampsGrow(states: seq<Handshake>, events: seq<Event>, i: nat, j: nat)
    requires IsRun(states, events) && i <= j <= |events|
    ensures NotBefore(states[j].lastTimestamp, states[i].lastTimestamp)
    ensures states[j].params == states[i].params
    decreases j - i
  {
    if i < j {
      TimestampsGrow(states, events, i, j - 1);
      assert Step(states, events, j - 1);
      TimestampNeverFallsBack(states[j - 1], events[j - 1]);
    }
  }

  /**
   Over any run, whatever messages arrive, the timestamps of accepted initiations strictly increase; so the
   same initiation is never accepted twice.
   */
  lemma AcceptedTimestampsIncrease(states: seq<Handshake>, events: seq<Event>, i: nat, j: nat)
    requires IsRun(states, events) && i < j < |events|
    requires Accepts(states[i], events[i]) && Accepts(states[j], events[j])
    ensures states[i].ReadInitiation(events[i].msg).Ok? && states[j].ReadInitiation(events[j].msg).Ok?
    ensures states[j].ReadInitiation(events[j].msg).value.1.After(states[i].ReadInitiation(events[i].msg).value.1)
    ensures events[i].msg != events[j].msg
  {
    assert Step(states, events, i);
    TimestampsGrow(states, events, i + 1, j);
    TimestampNeverFallsBack(states[i], events[i]);
    LaterAcceptedIsNewer(states[i], events[i], states[j], events[j]);
  }

  lemma LaterAcceptedIsNewer(h: Handshake, e: Event, g: Handshake, f: Event)
    requires Accepts(h, e) && Accepts(g, f)
    requires h.params == g.params && NotBefore(g.lastTimestamp, Apply(h, e).lastTimestamp)
    ensures h.ReadInitiation(e.msg).Ok? && g.ReadInitiation(f.msg).Ok?
    ensures g.ReadInitiation(f.msg).value.1.After(h.ReadInitiation(e.msg).value.1)
    ensures e.msg != f.msg
  {
    AcceptedSetsTimestamp(h, e);
    AcceptedSetsTimestamp(g, f);
    if e.msg == f.msg {
      ReadingNeedsOnlyParams(h, g, e.msg);
    }
  }

  lemma AcceptedSetsTimestamp(h: Handshake, e: Event)
    requires Accepts(h, e)
    ensures h.ReadInitiation(e.msg).Ok?
    ensures h.ReadInitiation(e.msg).value.1.After(h.lastTimestamp)
    ensures Apply(h, e).lastTimestamp == h.ReadInitiation(e.msg).value.1
  {}

  lemma ReadingNeedsOnlyParams(h: Handshake, g: Handshake, msg: Datagram)
    requires h.params == g.params && msg.HandshakeInit?
    ensures h.ReadInitiation(msg) == g.ReadInitiation(msg)
  {}

  lemma TimestampNeverFallsBack(h: Handshake, e: Event)
    ensures NotBefore(Apply(h, e).lastTimestamp, h.lastTimestamp)
    ensures Apply(h, e).params == h.params
  {}

  // ---------------------------------------------------------------------------
  // The machine
  // ---------------------------------------------------------------------------

  class HandshakeMachine {
    var params: Params
    var nextIndex: Index32
    var previous: HandshakeState
    var state: HandshakeState
    var cookies: Cookies
    var lastTimestamp: Tai64N
    const stampOffset: nat

    ghost function View(): Handshake
      reads this
    {
      Handshake(params, nextIndex, previous, state, cookies, lastTimestamp, stampOffset)
    }

    constructor (staticPrivate: nat, peerStaticPublic: Term, globalIdx: Index32, psk: Option<Term>, stampOffset: nat)
      ensures View() == NewHandshake(staticPrivate, peerStaticPublic, globalIdx, psk, stampOffset)
    {
      params := Params(staticPrivate, peerStaticPublic, psk);
      nextIndex := globalIdx;
      previous, state := NoHandshake, NoHandshake;
      cookies := Cookies(None, 0, None);
      lastTimestamp := Tai64N(0, 0);
      this.stampOffset := stampOffset;
    }

    method SetExpired()
      modifies this
      ensures View() == old(View()).SetExpired()
    {
      previous := Expired;
      state := Expired;
    }

    method ClearCookie()
      modifies this`cookies
      ensures cookies == old(cookies).(writeCookie := None)
    {
      cookies := cookies.(writeCookie := None);
    }

    method NextIndex() returns (index: Index32)
      modifies this`nextIndex
      ensures index == nextIndex == IncIndex(old(nextIndex))
    {
      var idx8 := nextIndex % 256;
      nextIndex := nextIndex - idx8 + (idx8 + 1) % 256;
      index := nextIndex;
    }

    method AppendMac1AndMac2(localIndex: Index32, body: Term) returns (macs: Macs)
      modifies this`cookies
      ensures macs == old(View()).AppendMacs(localIndex, body).1
      ensures View() == old(View()).AppendMacs(localIndex, body).0
    {
      var mac1 := Mac(params.SendingMac1Key(), body);
      var mac2 := Zero;
      if cookies.writeCookie.Some? {
        mac2 := Mac(cookies.writeCookie.value, Cat(body, mac1));
      }
      cookies := cookies.(index := localIndex);
      cookies := cookies.(lastMac1 := Some(mac1));
      macs := Macs(mac1, mac2);
    }

    method FormatHandshakeInitiation(dstLen: nat, ephemeralPrivate: nat, now: nat)
      returns (r: Result<Datagram, WireGuardError>)
      modifies this
      ensures dstLen < HANDSHAKE_INIT_SZ ==> r == Err(DestinationBufferTooSmall) && View() == old(View())
      ensures dstLen >= HANDSHAKE_INIT_SZ ==>
        var (h, msg) := old(View()).FormatInitiation(ephemeralPrivate, now); r == Ok(msg) && View() == h
    {
      if dstLen < HANDSHAKE_INIT_SZ {
        return Err(DestinationBufferTooSmall);
      }
      var localIndex := NextIndex();
      var chainingKey := CONSTRUCTION;
      var hash := IDENTIFIER;
      hash := Hash(hash, params.peerStaticPublic);
      var unencryptedEphemeral := Public(ephemeralPrivate);
      hash := Hash(hash, unencryptedEphemeral);
      chainingKey := Hmac(Hmac(chainingKey, unencryptedEphemeral), ONE);
      var ephemeralShared := DiffieHellman(ephemeralPrivate, params.peerStaticPublic);
      var temp := Hmac(chainingKey, ephemeralShared);
      chainingKey := Hmac(temp, ONE);
      var key := Hmac2(temp, chainingKey, TWO);
      var encryptedStatic := Seal(key, Number(0), params.StaticPublic(), hash);
      hash := Hash(hash, encryptedStatic);
      temp := Hmac(chainingKey, params.StaticShared());
      chainingKey := Hmac(temp, ONE);
      key := Hmac2(temp, chainingKey, TWO);
      var timestamp := StampAt(now + stampOffset);
      var encryptedTimestamp := Seal(key, Number(0), Stamp(timestamp.secs, timestamp.nano), hash);
      hash := Hash(hash, encryptedTimestamp);
      previous := state;
      state := InitSent(InitSentState(localIndex, hash, chainingKey, ephemeralPrivate, now));
      var macs := AppendMac1AndMac2(localIndex,
                                    InitBody(localIndex, unencryptedEphemeral, encryptedStatic, encryptedTimestamp));
      return Ok(HandshakeInit(localIndex, unencryptedEphemeral, encryptedStatic, encryptedTimestamp, macs.mac1,
                              macs.mac2));
    }

    method ReceiveHandshakeInitialization(packet: Datagram, ephemeralPrivate: nat, dstLen: nat)
      returns (r: Result<(Datagram, Session), WireGuardError>)
      requires packet.HandshakeInit?
      modifies this
      ensures View() == old(View()).ReceiveInitiation(packet, ephemeralPrivate, dstLen).0
      ensures r == old(View()).ReceiveInitiation(packet, ephemeralPrivate, dstLen).1
    {
      var chainingKey := CONSTRUCTION;
      var hash := IDENTIFIER;
      hash := Hash(hash, params.StaticPublic());
      hash := Hash(hash, packet.ephemeral);
      chainingKey := Hmac(Hmac(chainingKey, packet.ephemeral), ONE);
      var ephemeralShared := DiffieHellman(params.staticPrivate, packet.ephemeral);
      var temp := Hmac(chainingKey, ephemeralShared);
      chainingKey := Hmac(temp, ONE);
      var key := Hmac2(temp, chainingKey, TWO);
      var peerStatic := Open(key, Number(0), packet.encryptedStatic, hash);
      if peerStatic.None? {
        return Err(InvalidAeadTag);
      }
      if params.peerStaticPublic != peerStatic.value {
        return Err(WrongKey);
      }
      hash := Hash(hash, packet.encryptedStatic);
      temp := Hmac(chainingKey, params.StaticShared());
      chainingKey := Hmac(temp, ONE);
      key := Hmac2(temp, chainingKey, TWO);
      var plain := Open(key, Number(0), packet.encryptedTimestamp, hash);
      if plain.None? {
        return Err(InvalidAeadTag);
      }
      if !plain.value.Stamp? {
        return Err(InvalidTai64nTimestamp);
      }
      var timestamp := Tai64N(plain.value.secs, plain.value.nano);
      if !timestamp.After(lastTimestamp) {
        return Err(WrongTai64nTimestamp);
      }
      lastTimestamp := timestamp;
      hash := Hash(hash, packet.encryptedTimestamp);
      previous := state;
      state := InitReceived(hash, chainingKey, packet.ephemeral, packet.senderIdx);
      if dstLen < HANDSHAKE_RESP_SZ {
        return Err(DestinationBufferTooSmall);
      }
      var msg, session := FormatHandshakeResponse(ephemeralPrivate);
      return Ok((msg, session));
    }

    method FormatHandshakeResponse(ephemeralPrivate: nat) returns (msg: Datagram, session: Session)
      requires state.InitReceived?
      modifies this
      ensures View() == old(View()).FormatResponse(ephemeralPrivate).0
      ensures msg == old(View()).FormatResponse(ephemeralPrivate).1
      ensures session == old(View()).FormatResponse(ephemeralPrivate).2
    {
      var InitReceived(hash, chainingKey, peerEphemeral, peerIndex) := state;
      state := NoHandshake;
      var localIndex := NextIndex();
      var unencryptedEphemeral := Public(ephemeralPrivate);
      hash := Hash(hash, unencryptedEphemeral);
      var temp := Hmac(chainingKey, unencryptedEphemeral);
      chainingKey := Hmac(temp, ONE);
      var ephemeralShared := DiffieHellman(ephemeralPrivate, peerEphemeral);
      temp := Hmac(chainingKey, ephemeralShared);
      chainingKey := Hmac(temp, ONE);
      temp := Hmac(chainingKey, DiffieHellman(ephemeralPrivate, params.peerStaticPublic));
      chainingKey := Hmac(temp, ONE);
      temp := Hmac(chainingKey, params.Psk());
      chainingKey := Hmac(temp, ONE);
      var temp2 := Hmac2(temp, chainingKey, TWO);
      var key := Hmac2(temp, temp2, THREE);
      hash := Hash(hash, temp2);
      var encryptedNothing := Seal(key, Number(0), Empty, hash);
      var temp1 := Hmac(chainingKey, Empty);
      temp2 := Hmac(temp1, ONE);
      var temp3 := Hmac2(temp1, temp2, TWO);
      var macs := AppendMac1AndMac2(localIndex,
                                    ResponseBody(localIndex, peerIndex, unencryptedEphemeral, encryptedNothing));
      msg := HandshakeResponse(localIndex, peerIndex, unencryptedEphemeral, encryptedNothing, macs.mac1, macs.mac2);
      session := NewSession(localIndex, peerIndex, temp2, temp3);
    }

    method ReceiveHandshakeResponse(packet: Datagram) returns (r: Result<Session, WireGuardError>)
      requires packet.HandshakeResponse?
      modifies this
      ensures View() == old(View()).ReceiveResponse(packet).0
      ensures r == old(View()).ReceiveResponse(packet).1
    {
      var sent: InitSentState;
      var isPrevious := false;
      if state.InitSent? && state.sent.localIndex == packet.receiverIdx {
        sent := state.sent;
      } else if previous.InitSent? && previous.sent.localIndex == packet.receiverIdx {
        sent, isPrevious := previous.sent, true;
      } else {
        return Err(UnexpectedPacket);
      }
      var unencryptedEphemeral := packet.ephemeral;
      var hash := Hash(sent.hash, unencryptedEphemeral);
      var temp := Hmac(sent.chainingKey, unencryptedEphemeral);
      var chainingKey := Hmac(temp, ONE);
      temp := Hmac(chainingKey, DiffieHellman(sent.ephemeralPrivate, unencryptedEphemeral));
      chainingKey := Hmac(temp, ONE);
      temp := Hmac(chainingKey, DiffieHellman(params.staticPrivate, unencryptedEphemeral));
      chainingKey := Hmac(temp, ONE);
      temp := Hmac(chainingKey, params.Psk());
      chainingKey := Hmac(temp, ONE);
      var temp2 := Hmac2(temp, chainingKey, TWO);
      var key := Hmac2(temp, temp2, THREE);
      hash := Hash(hash, temp2);
      if Open(key, Number(0), packet.encryptedNothing, hash).None? {
        return Err(InvalidAeadTag);
      }
      var temp1 := Hmac(chainingKey, Empty);
      temp2 := Hmac(temp1, ONE);
      var temp3 := Hmac2(temp1, temp2, TWO);
      if isPrevious {
        previous := NoHandshake;
      } else {
        state := NoHandshake;
      }
      return Ok(NewSession(sent.localIndex, packet.senderIdx, temp3, temp2));
    }

    method ReceiveCookieReply(packet: Datagram) returns (r: Result<(), WireGuardError>)
      requires packet.CookieReply?
      modifies this`cookies
      ensures View() == old(View()).ReceiveCookieReply(packet).0
      ensures r == old(View()).ReceiveCookieReply(packet).1
    {
      if cookies.lastMac1.None? {
        return Err(UnexpectedPacket);
      }
      if packet.receiverIdx != cookies.index {
        return Err(WrongIndex);
      }
      var key := Hash(LABEL_COOKIE, params.peerStaticPublic);
      var plain := Open(key, packet.nonce, packet.encryptedCookie, cookies.lastMac1.value);
      if plain.None? {
        return Err(InvalidAeadTag);
      }
      cookies := cookies.(writeCookie := Some(plain.value));
      return Ok(());
    }
  }
}
