/**
 A point-to-point tunnel: a handshake, a ring of eight sessions, a queue of packets that wait for a
 session, and the timers that drive rekeying, keepalives and expiry.

 `Tunn` is the value of a tunnel and its functions say what each operation does to it and asks of the
 caller. `dstLen` is the length of the buffer that the caller lends for the outgoing datagram.
 */
module Tunnels {
  import opened Wrappers
  import opened Crypto
  import opened Messages
  import opened Sessions
  import opened Handshakes
  import opened RateLimiters
  import ReplayWindow

  const N_SESSIONS := 8
  const MAX_QUEUE_DEPTH := 256

  const REKEY_AFTER_TIME := 120 * SECOND
  const REJECT_AFTER_TIME := 180 * SECOND
  const REKEY_ATTEMPT_TIME := 90 * SECOND
  const REKEY_TIMEOUT := 5 * SECOND
  const KEEPALIVE_TIMEOUT := 10 * SECOND
  const COOKIE_EXPIRATION_TIME := 120 * SECOND

  type Packet = seq<Byte>

  /**
   What a call takes from its surroundings: the clock when the call begins, the clock when it is read
   again later in the same call, and the ephemeral key it draws if it needs one.
   */
  datatype Env = Env(now: nat, late: nat, ephemeral: nat)

  // ---------------------------------------------------------------------------
  // Timers
  // ---------------------------------------------------------------------------

  datatype TimerName =
    | TimeCurrent
    | TimeSessionEstablished
    | TimeLastHandshakeStarted
    | TimeLastPacketReceived
    | TimeLastPacketSent
    | TimeLastDataPacketReceived
    | TimeLastDataPacketSent
    | TimeCookieReceived
    | TimePersistentKeepalive

  const N_TIMERS := 9

  function Slot(name: TimerName): (i: nat)
    ensures i < N_TIMERS
  {
    match name
    case TimeCurrent => 0
    case TimeSessionEstablished => 1
    case TimeLastHandshakeStarted => 2
    case TimeLastPacketReceived => 3
    case TimeLastPacketSent => 4
    case TimeLastDataPacketReceived => 5
    case TimeLastDataPacketSent => 6
    case TimeCookieReceived => 7
    case TimePersistentKeepalive => 8
  }

  type Ticks = s: seq<nat> | |s| == N_TIMERS witness [0, 0, 0, 0, 0, 0, 0, 0, 0]
  type SessionTicks = s: seq<nat> | |s| == N_SESSIONS witness [0, 0, 0, 0, 0, 0, 0, 0]
  type Ring = s: seq<Option<Session>> | |s| == N_SESSIONS witness [None, None, None, None, None, None, None, None]

  /** All times are durations since `timeStarted`. */
  datatype Timers = Timers(
    isInitiator: bool,
    timeStarted: nat,
    ticks: Ticks,
    sessionTimers: SessionTicks,
    wantKeepalive: bool,
    wantHandshake: bool,
    persistentKeepalive: nat,
    shouldResetRr: bool
  ) {

    function At(name: TimerName): nat {
      ticks[Slot(name)]
    }

    /** A clock reading as a duration since the start of the tunnel. */
    function Since(clock: nat): nat {
      if clock >= timeStarted then clock - timeStarted else 0
    }

    function Set(name: TimerName, time: nat): Timers {
      this.(ticks := ticks[Slot(name) := time])
    }

    function Tick(name: TimerName): Timers {
      var t := match name
        case TimeLastPacketReceived => this.(wantKeepalive := true, wantHandshake := false)
        case TimeLastPacketSent => this.(wantHandshake := true, wantKeepalive := false)
        case _ => this;
      t.Set(name, At(TimeCurrent))
    }

    function SessionEstablished(initiator: bool, index: nat): Timers {
      var t := Tick(TimeSessionEstablished);
      t.(sessionTimers := sessionTimers[index % N_SESSIONS := At(TimeCurrent)], isInitiator := initiator)
    }

    /** Nothing is really cleared: every timer moves to the present. */
    function Clear(clock: nat): Timers {
      this.(ticks := seq(N_TIMERS, _ => Since(clock)), wantHandshake := false, wantKeepalive := false)
    }
  }

  // ---------------------------------------------------------------------------
  // Packets
  // ---------------------------------------------------------------------------

  const IPV4_MIN_HEADER_SIZE := 20
  const IPV6_MIN_HEADER_SIZE := 40

  /** The length an IP packet claims for itself and its source address; None if it is no IP packet. */
  function IpHeader(packet: Packet): Option<(nat, IpAddr)>
    requires packet != []
  {
    if packet[0] / 16 == 4 && |packet| >= IPV4_MIN_HEADER_SIZE then
      Some((FromBe16(packet[2], packet[3]), V4(packet[12..16])))
    else if packet[0] / 16 == 6 && |packet| >= IPV6_MIN_HEADER_SIZE then
      Some((FromBe16(packet[4], packet[5]) + IPV6_MIN_HEADER_SIZE, V6(packet[8..24])))
    else None
  }

  // ---------------------------------------------------------------------------
  // The tunnel
  // ---------------------------------------------------------------------------

  /** What the timers call for. */
  datatype Decision = GiveUp | Initiate | Keepalive | Nothing

  datatype Tunn = Tunn(
    handshake: Handshake,
    sessions: Ring,
    current: Index32,
    queue: seq<Packet>,
    timers: Timers,
    txBytes: nat,
    rxBytes: nat,
    limiter: Limiter
  ) {

    function CurrentSession(): Option<Session> {
      sessions[current % N_SESSIONS]
    }

    function TimerTick(name: TimerName): Tunn {
      this.(timers := timers.Tick(name))
    }

    function Store(session: Session): Tunn {
      this.(sessions := sessions[session.receivingIndex % N_SESSIONS := Some(session)])
    }

    function Queued(packet: Packet): Tunn {
      if |queue| < MAX_QUEUE_DEPTH then this.(queue := queue + [packet]) else this
    }

    function Requeued(packet: Packet): Tunn {
      if |queue| < MAX_QUEUE_DEPTH then this.(queue := [packet] + queue) else this
    }

    /** Sends `src` on the current session, or queues it and starts a handshake. */
    function Encapsulate(src: Packet, dstLen: nat, env: Env): (Tunn, TunnResult) {
      match CurrentSession()
      case Some(session) =>
        if dstLen < |src| + DATA_OVERHEAD_SZ then (this, Panicked)
        else
          var (session', datagram) := session.FormatPacketData(src);
          var t := this.(sessions := sessions[current % N_SESSIONS := Some(session')]).TimerTick(TimeLastPacketSent);
          var t' := if src == [] then t else t.TimerTick(TimeLastDataPacketSent);
          (t'.(txBytes := txBytes + |src|), WriteToNetwork(datagram))
      case None =>
        Queued(src).FormatHandshakeInitiation(dstLen, false, env)
    }

    function FormatHandshakeInitiation(dstLen: nat, forceResend: bool, env: Env): (Tunn, TunnResult) {
      if handshake.IsInProgress() && !forceResend then (this, Done)
      else
        var t := if handshake.IsExpired() then this.(timers := timers.Clear(env.late)) else this;
        if dstLen < HANDSHAKE_INIT_SZ then (t, Failed(DestinationBufferTooSmall))
        else
          var (h, datagram) := handshake.FormatInitiation(env.ephemeral, env.late);
          var t' := t.(handshake := h);
          var t'' := if handshake.IsInProgress() then t' else t'.TimerTick(TimeLastHandshakeStarted);
          (t''.TimerTick(TimeLastPacketSent), WriteToNetwork(datagram))
    }

    /** Takes a packet from the queue and tries to send it; this is decapsulation of the empty datagram. */
    function SendQueued(dstLen: nat, env: Env): (Tunn, TunnResult) {
      if queue == [] then (this, Done)
      else
        var packet := queue[0];
        var (t, r) := this.(queue := queue[1..]).Encapsulate(packet, dstLen, env);
        if r.Failed? then (t.Requeued(packet), Done) else (t, r)
    }

    function Decapsulate(addr: Option<IpAddr>, datagram: Datagram, dstLen: nat, env: Env): (Tunn, TunnResult) {
      var (limiter', checked) := limiter.VerifyPacket(addr, datagram, env.now);
      var t := this.(limiter := limiter');
      match checked
      case Replied(cookie) => if dstLen < COOKIE_REPLY_SZ then (t, Panicked) else (t, WriteToNetwork(cookie))
      case Refused(error) => (t, Failed(error))
      case Passed => t.HandleVerifiedPacket(datagram, dstLen, env)
    }

    function HandleVerifiedPacket(datagram: Datagram, dstLen: nat, env: Env): (Tunn, TunnResult) {
      match datagram
      case HandshakeInit(_, _, _, _, _, _) => HandleHandshakeInit(datagram, dstLen, env)
      case HandshakeResponse(_, _, _, _, _, _) => HandleHandshakeResponse(datagram, dstLen)
      case CookieReply(_, _, _) => HandleCookieReply(datagram)
      case Data(receiverIdx, counter, cipher) => HandleData(receiverIdx, counter, cipher)
      case Malformed => (this, Failed(InvalidPacket))
    }

    function HandleHandshakeInit(msg: Datagram, dstLen: nat, env: Env): (Tunn, TunnResult)
      requires msg.HandshakeInit?
    {
      match handshake.ReceiveInitiation(msg, env.ephemeral, dstLen)
      case (h, Err(error)) => (this.(handshake := h), Failed(error))
      case (h, Ok((datagram, session))) =>
        var t := this.(handshake := h).Store(session)
                 .TimerTick(TimeLastPacketReceived).TimerTick(TimeLastPacketSent);
        (t.(timers := t.timers.SessionEstablished(false, session.receivingIndex)), WriteToNetwork(datagram))
    }

    function HandleHandshakeResponse(msg: Datagram, dstLen: nat): (Tunn, TunnResult)
      requires msg.HandshakeResponse?
    {
      match handshake.ReceiveResponse(msg)
      case (h, Err(error)) => (this.(handshake := h), Failed(error))
      case (h, Ok(session)) =>
        if dstLen < DATA_OVERHEAD_SZ then (this.(handshake := h), Panicked)
        else
          var (session', keepalive) := session.FormatPacketData([]);
          var t := this.(handshake := h).Store(session').TimerTick(TimeLastPacketReceived);
          var t' := t.(timers := t.timers.SessionEstablished(true, session.receivingIndex));
          (t'.SetCurrentSession(session.receivingIndex), WriteToNetwork(keepalive))
    }

    function HandleCookieReply(msg: Datagram): (Tunn, TunnResult)
      requires msg.CookieReply?
    {
      match handshake.ReceiveCookieReply(msg)
      case (h, Err(error)) => (this.(handshake := h), Failed(error))
      case (h, Ok(_)) =>
        (this.(handshake := h).TimerTick(TimeLastPacketReceived).TimerTick(TimeCookieReceived), Done)
    }

    /** Moves to another session unless the one in use was established later. */
    function SetCurrentSession(newIdx: Index32): Tunn {
      if current == newIdx then this
      else if sessions[current % N_SESSIONS].None?
              || timers.sessionTimers[newIdx % N_SESSIONS] >= timers.sessionTimers[current % N_SESSIONS]
      then this.(current := newIdx)
      else this
    }

    function HandleData(receiverIdx: Index32, counter: ReplayWindow.Counter, cipher: Term): (Tunn, TunnResult) {
      match sessions[receiverIdx % N_SESSIONS]
      case None => (this, Failed(NoCurrentSession))
      case Some(session) =>
        match session.ReceivePacketData(receiverIdx, counter, cipher)
        case Err(error) => (this, Failed(error))
        case Ok((session', packet)) =>
          this.(sessions := sessions[receiverIdx % N_SESSIONS := Some(session')])
          .SetCurrentSession(receiverIdx)
          .TimerTick(TimeLastPacketReceived)
          .ValidateDecapsulated(packet)
    }

    /** Hands an IP packet up, cut to the length it claims. */
    function ValidateDecapsulated(packet: Packet): (Tunn, TunnResult) {
      if packet == [] then (this, Done)
      else match IpHeader(packet)
        case None => (this, Failed(InvalidPacket))
        case Some((length, source)) =>
          if length > |packet| then (this, Failed(InvalidPacket))
          else
            var t := TimerTick(TimeLastDataPacketReceived);
            (t.(rxBytes := rxBytes + length), WriteToTunnel(packet[..length], source))
    }

    // --- timers ---

    /** Drops every session that has been in its slot for too long. */
    function UpdateSessionTimers(now: nat): Tunn {
      this.(
        sessions := seq(N_SESSIONS, i requires 0 <= i < N_SESSIONS =>
          if now - timers.sessionTimers[i] > REJECT_AFTER_TIME then None else sessions[i]),
        timers := timers.(sessionTimers := seq(N_SESSIONS, i requires 0 <= i < N_SESSIONS =>
          if now - timers.sessionTimers[i] > REJECT_AFTER_TIME then now else timers.sessionTimers[i])))
    }

    function ClearAll(clock: nat): Tunn {
      this.(sessions := seq(N_SESSIONS, _ => None), queue := [], timers := timers.Clear(clock))
    }

    function ExpireTunnel(clock: nat): Tunn {
      this.(handshake := handshake.SetExpired()).ClearAll(clock)
    }

    /** The first part of a timer call: note the time and drop old sessions. */
    function Awake(env: Env): Tunn {
      var limiter' := if timers.shouldResetRr then limiter.ResetCount(env.late) else limiter;
      var now := timers.Since(env.now);
      this.(limiter := limiter', timers := timers.Set(TimeCurrent, now)).UpdateSessionTimers(now)
    }

    function DropOldCookie(now: nat): Tunn {
      if handshake.cookies.writeCookie.Some? && now - timers.At(TimeCookieReceived) >= COOKIE_EXPIRATION_TIME
      then this.(handshake := handshake.(cookies := handshake.cookies.(writeCookie := None)))
      else this
    }

    /** What is due at time `now` (a duration), with the clock at `late`. */
    function Decide(now: nat, late: nat): (Tunn, Decision) {
      var established := timers.At(TimeSessionEstablished);
      if now - established >= REJECT_AFTER_TIME * 3 then (this, GiveUp)
      else match handshake.Timer()
        case Some(timeInitSent) =>
          if now - timers.At(TimeLastHandshakeStarted) >= REKEY_ATTEMPT_TIME then (this, GiveUp)
          else if late - timeInitSent >= REKEY_TIMEOUT then (this, Initiate)
          else (this, Nothing)
        case None => DecideIdle(now)
    }

    /** The keys are old enough for the initiator to renew them. */
    predicate RekeyDue(now: nat) {
      var established := timers.At(TimeSessionEstablished);
      && timers.isInitiator
      && ((established < timers.At(TimeLastDataPacketSent) && now - established >= REKEY_AFTER_TIME) ||
          (established < timers.At(TimeLastDataPacketReceived) &&
           now - established >= REJECT_AFTER_TIME - KEEPALIVE_TIMEOUT - REKEY_TIMEOUT))
    }

    /** Data was sent and nothing came back for too long. */
    predicate Unanswered(now: nat) {
      var received := timers.At(TimeLastPacketReceived);
      timers.At(TimeLastDataPacketSent) > received && now - received >= KEEPALIVE_TIMEOUT + REKEY_TIMEOUT
    }

    /** What is due when no initiation of ours is waiting for a response. */
    function DecideIdle(now: nat): (Tunn, Decision) {
      var t := if Unanswered(now) then this.(timers := timers.(wantHandshake := false)) else this;
      if RekeyDue(now) || (Unanswered(now) && timers.wantHandshake) then (t, Initiate) else t.DecideKeepalive(now)
    }

    function DecideKeepalive(now: nat): (Tunn, Decision) {
      var sent := timers.At(TimeLastPacketSent);
      var owed := timers.At(TimeLastDataPacketReceived) > sent && now - sent >= KEEPALIVE_TIMEOUT;
      var t := if owed then this.(timers := timers.(wantKeepalive := false)) else this;
      var persistent :=
        timers.persistentKeepalive > 0 &&
        now - timers.At(TimePersistentKeepalive) >= timers.persistentKeepalive * SECOND;
      (if persistent then t.TimerTick(TimePersistentKeepalive) else t,
       if (owed && timers.wantKeepalive) || persistent then Keepalive else Nothing)
    }

    function UpdateTimers(dstLen: nat, env: Env): (Tunn, TunnResult) {
      var t := Awake(env);
      if t.handshake.IsExpired() then (t, Failed(ConnectionExpired))
      else
        var now := timers.Since(env.now);
        var (t', decision) := t.DropOldCookie(now).Decide(now, env.late);
        match decision
        case GiveUp => (t'.ExpireTunnel(env.late), Failed(ConnectionExpired))
        case Initiate => t'.FormatHandshakeInitiation(dstLen, true, env)
        case Keepalive => t'.Encapsulate([], dstLen, env)
        case Nothing => (t', Done)
    }
  }

  function NewTunn(
    staticPrivate: nat, peerStaticPublic: Term, psk: Option<Term>, persistentKeepalive: nat, index: Index32,
    limiter: Limiter, ownLimiter: bool, stampOffset: nat, clock: nat): Tunn
  {
    Tunn(
      NewHandshake(staticPrivate, peerStaticPublic, index * 256 % U32, psk, stampOffset),
      seq(N_SESSIONS, _ => None), 0, [],
      Timers(false, clock, seq(N_TIMERS, _ => 0), seq(N_SESSIONS, _ => 0), false, false, persistentKeepalive,
             ownLimiter),
      0, 0, limiter)
  }
}
