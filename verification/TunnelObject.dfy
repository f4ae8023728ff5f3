/**
 The tunnel as an object: a ring of session objects and arrays of timers updated in place, a handshake machine
 and a rate limiter. Every method does to the object what the function of the same name does to its value.
 */
module TunnelObjects {
  import opened Wrappers
  import opened Crypto
  import opened Messages
  import opened Sessions
  import opened Handshakes
  import opened RateLimiters
  import opened Tunnels
  import TunnelMoves
  import opened SessionRings
  import ReplayWindow

  /** No counter of the session has moved. */
  predicate IsNew(s: Session) {
    s == NewSession(s.receivingIndex, s.sendingIndex, s.receiver, s.sender)
  }

  lemma AnswerIsNew(h: Handshake, msg: Datagram, ephemeral: nat, dstLen: nat)
    requires msg.HandshakeInit?
    ensures var r := h.ReceiveInitiation(msg, ephemeral, dstLen).1; r.Ok? ==> IsNew(r.value.1)
  {}

  lemma CompletionIsNew(h: Handshake, msg: Datagram)
    requires msg.HandshakeResponse?
    ensures var r := h.ReceiveResponse(msg).1; r.Ok? ==> IsNew(r.value)
  {}

  /** The tunnel once its handshake has answered an initiation, or refused it. */
  function Answered(t: Tunn, received: Result<(Datagram, Session), WireGuardError>): (Tunn, TunnResult) {
    match received
    case Err(e) => (t, Failed(e))
    case Ok((packet, session)) =>
      var t' := t.Store(session).TimerTick(TimeLastPacketReceived).TimerTick(TimeLastPacketSent);
      (t'.(timers := t'.timers.SessionEstablished(false, session.receivingIndex)), WriteToNetwork(packet))
  }

  lemma AnswerResult(t: Tunn, msg: Datagram, dstLen: nat, env: Env)
    requires msg.HandshakeInit?
    ensures
      var (h, received) := t.handshake.ReceiveInitiation(msg, env.ephemeral, dstLen);
      t.HandleHandshakeInit(msg, dstLen, env) == Answered(t.(handshake := h), received)
  {}

  class Tunnel {
    const handshake: HandshakeMachine
    const limiter: RateLimiter
    const sessions: SessionRing
    const ticks: array<nat>
    const sessionTimers: array<nat>
    const timeStarted: nat
    const persistentKeepalive: nat
    const shouldResetRr: bool
    var current: Index32
    var packetQueue: seq<Packet>
    var isInitiator: bool
    var wantKeepalive: bool
    var wantHandshake: bool
    var txBytes: nat
    var rxBytes: nat

    ghost function Repr(): set<object>
      reads sessions
    {
      {this, handshake, limiter, ticks, sessionTimers} + sessions.Repr
    }

    predicate Shaped() {
      ticks.Length == N_TIMERS && sessionTimers.Length == N_SESSIONS && ticks != sessionTimers
    }

    /** The sessions are in order and share no object with the rest of the tunnel. */
    ghost predicate Valid()
      reads sessions, sessions.Repr
    {
      && Shaped() && sessions.Valid()
      && this !in sessions.Repr && handshake !in sessions.Repr && limiter !in sessions.Repr
      && ticks !in sessions.Repr && sessionTimers !in sessions.Repr
    }

    ghost function TimersView(): Timers
      requires Shaped()
      reads this, ticks, sessionTimers
    {
      Timers(isInitiator, timeStarted, ticks[..], sessionTimers[..], wantKeepalive, wantHandshake, persistentKeepalive,
             shouldResetRr)
    }

    ghost function View(): Tunn
      requires Shaped()
      reads this, handshake, limiter, ticks, sessionTimers, sessions
    {
      Tunn(handshake.View(), sessions.contents, current, packetQueue, TimersView(), txBytes, rxBytes, limiter.View())
    }

    constructor (staticPrivate: nat, peerStaticPublic: Term, psk: Option<Term>, persistentKeepalive: nat,
                 index: Index32, limiter: RateLimiter, ownLimiter: bool, stampOffset: nat, clock: nat)
      ensures Valid() && fresh(Repr() - {limiter}) && this.limiter == limiter
      ensures View() == NewTunn(staticPrivate, peerStaticPublic, psk, persistentKeepalive, index, limiter.View(),
                                ownLimiter, stampOffset, clock)
    {
      handshake := new HandshakeMachine(staticPrivate, peerStaticPublic, index * 256 % U32, psk, stampOffset);
      this.limiter := limiter;
      sessions := new SessionRing();
      ticks := new nat[N_TIMERS](_ => 0);
      sessionTimers := new nat[N_SESSIONS](_ => 0);
      timeStarted, this.persistentKeepalive, shouldResetRr := clock, persistentKeepalive, ownLimiter;
      current, packetQueue, txBytes, rxBytes := 0, [], 0, 0;
      isInitiator, wantKeepalive, wantHandshake := false, false, false;
    }

    // --- timers ---

    function Since(clock: nat): nat {
      if clock >= timeStarted then clock - timeStarted else 0
    }

    method TimerTick(name: TimerName)
      requires Valid()
      modifies this`wantKeepalive, this`wantHandshake, ticks
      ensures View() == old(View()).TimerTick(name)
    {
      match name {
        case TimeLastPacketReceived =>
          wantKeepalive := true;
          wantHandshake := false;
        case TimeLastPacketSent =>
          wantHandshake := true;
          wantKeepalive := false;
        case _ =>
      }
      var time := ticks[Slot(TimeCurrent)];
      ticks[Slot(name)] := time;
    }

    method TimerTickSessionEstablished(initiator: bool, sessionIdx: nat)
      requires Valid()
      modifies this`wantKeepalive, this`wantHandshake, this`isInitiator, ticks, sessionTimers
      ensures View() == old(View()).(timers := old(View()).timers.SessionEstablished(initiator, sessionIdx))
    {
      TimerTick(TimeSessionEstablished);
      sessionTimers[sessionIdx % N_SESSIONS] := ticks[Slot(TimeCurrent)];
      isInitiator := initiator;
    }

    method ClearTimers(clock: nat)
      requires Valid()
      modifies this`wantKeepalive, this`wantHandshake, ticks
      ensures View() == old(View()).(timers := old(View()).timers.Clear(clock))
    {
      var now := Since(clock);
      for i := 0 to ticks.Length
        invariant forall j :: 0 <= j < i ==> ticks[j] == now
      {
        ticks[i] := now;
      }
      wantHandshake := false;
      wantKeepalive := false;
    }

    method ClearAll(clock: nat)
      requires Valid()
      modifies this`wantKeepalive, this`wantHandshake, this`packetQueue, ticks, sessions`contents, sessions.slots
      ensures Valid() && sessions.Repr == old(sessions.Repr)
      ensures View() == old(View()).ClearAll(clock)
    {
      for i := 0 to N_SESSIONS
        invariant Valid() && sessions.Repr == old(sessions.Repr)
        invariant forall j :: 0 <= j < i ==> sessions.contents[j] == None
      {
        sessions.Drop(i);
      }
      packetQueue := [];
      ClearTimers(clock);
    }

    method UpdateSessionTimers(timeNow: nat)
      requires Valid()
      modifies sessions`contents, sessions.slots, sessionTimers
      ensures Valid() && sessions.Repr == old(sessions.Repr)
      ensures View() == old(View()).UpdateSessionTimers(timeNow)
    {
      ghost var ring, times := sessions.contents, sessionTimers[..];
      for i := 0 to sessionTimers.Length
        invariant Valid() && sessions.Repr == old(sessions.Repr)
        invariant forall j :: 0 <= j < i ==>
                    && sessions.contents[j] == (if timeNow - times[j] > REJECT_AFTER_TIME then None else ring[j])
                    && sessionTimers[j] == (if timeNow - times[j] > REJECT_AFTER_TIME then timeNow else times[j])
        invariant forall j :: i <= j < N_SESSIONS ==> sessions.contents[j] == ring[j] && sessionTimers[j] == times[j]
      {
        if timeNow - sessionTimers[i] > REJECT_AFTER_TIME {
          sessions.Drop(i);
          sessionTimers[i] := timeNow;
        }
      }
    }

    // --- the queue ---

    method QueuePacket(packet: Packet)
      requires Valid()
      modifies this`packetQueue
      ensures View() == old(View()).Queued(packet)
    {
      if |packetQueue| < MAX_QUEUE_DEPTH {
        packetQueue := packetQueue + [packet];
      }
    }

    method RequeuePacket(packet: Packet)
      requires Valid()
      modifies this`packetQueue
      ensures View() == old(View()).Requeued(packet)
    {
      if |packetQueue| < MAX_QUEUE_DEPTH {
        packetQueue := [packet] + packetQueue;
      }
    }

    // --- sending ---

    method FormatHandshakeInitiation(dstLen: nat, forceResend: bool, env: Env) returns (r: TunnResult)
      requires Valid()
      modifies Repr()
      ensures Valid() && fresh(Repr() - old(Repr()))
      ensures (View(), r) == old(View()).FormatHandshakeInitiation(dstLen, forceResend, env)
    {
      if handshake.state.InitSent? || handshake.state.InitReceived? {
        if !forceResend {
          return Done;
        }
      }
      if handshake.state.Expired? {
        ClearTimers(env.late);
      }
      var startingNewHandshake := !(handshake.state.InitSent? || handshake.state.InitReceived?);
      var formatted := handshake.FormatHandshakeInitiation(dstLen, env.ephemeral, env.late);
      match formatted {
        case Ok(packet) =>
          CountInitiated(startingNewHandshake);
          return WriteToNetwork(packet);
        case Err(e) =>
          return Failed(e);
      }
    }

    /** An initiation was sent. */
    method CountInitiated(startingNewHandshake: bool)
      requires Valid()
      modifies this`wantKeepalive, this`wantHandshake, ticks
      ensures
        var t := if startingNewHandshake then old(View()).TimerTick(TimeLastHandshakeStarted) else old(View());
        View() == t.TimerTick(TimeLastPacketSent)
    {
      if startingNewHandshake {
        TimerTick(TimeLastHandshakeStarted);
      }
      TimerTick(TimeLastPacketSent);
    }

    method Encapsulate(src: Packet, dstLen: nat, env: Env) returns (r: TunnResult)
      requires Valid()
      modifies Repr()
      ensures Valid() && fresh(Repr() - old(Repr()))
      ensures (View(), r) == old(View()).Encapsulate(src, dstLen, env)
    {
      var slot := current % N_SESSIONS;
      if !sessions.IsEmpty(slot) {
        var packet := sessions.Seal(slot, src, dstLen);
        if packet.None? {
          return Panicked;
        }
        CountSent(src);
        return WriteToNetwork(packet.value);
      }
      QueuePacket(src);
      r := FormatHandshakeInitiation(dstLen, false, env);
    }

    /** A packet was sent on a session. */
    method CountSent(src: Packet)
      requires Valid()
      modifies this`wantKeepalive, this`wantHandshake, this`txBytes, ticks
      ensures
        var t := old(View()).TimerTick(TimeLastPacketSent);
        View() == (if src == [] then t else t.TimerTick(TimeLastDataPacketSent)).(txBytes := old(txBytes) + |src|)
    {
      TimerTick(TimeLastPacketSent);
      if src != [] {
        TimerTick(TimeLastDataPacketSent);
      }
      txBytes := txBytes + |src|;
    }

    method SendQueuedPacket(dstLen: nat, env: Env) returns (r: TunnResult)
      requires Valid()
      modifies Repr()
      ensures Valid() && fresh(Repr() - old(Repr()))
      ensures (View(), r) == old(View()).SendQueued(dstLen, env)
    {
      if packetQueue != [] {
        var packet := packetQueue[0];
        packetQueue := packetQueue[1..];
        r := Encapsulate(packet, dstLen, env);
        if !r.Failed? {
          return;
        }
        RequeuePacket(packet);
      }
      return Done;
    }

    // --- receiving ---

    method Decapsulate(addr: Option<IpAddr>, datagram: Datagram, dstLen: nat, env: Env) returns (r: TunnResult)
      requires Valid()
      modifies Repr()
      ensures Valid() && fresh(Repr() - old(Repr()))
      ensures (View(), r) == old(View()).Decapsulate(addr, datagram, dstLen, env)
    {
      var checked := limiter.VerifyPacket(addr, datagram, env.now);
      match checked {
        case Passed => r := HandleVerifiedPacket(datagram, dstLen, env);
        case Replied(cookie) => return if dstLen < COOKIE_REPLY_SZ then Panicked else WriteToNetwork(cookie);
        case Refused(e) => return Failed(e);
      }
    }

    method HandleVerifiedPacket(packet: Datagram, dstLen: nat, env: Env) returns (r: TunnResult)
      requires Valid()
      modifies Repr()
      ensures Valid() && fresh(Repr() - old(Repr()))
      ensures (View(), r) == old(View()).HandleVerifiedPacket(packet, dstLen, env)
    {
      match packet {
        case HandshakeInit(_, _, _, _, _, _) => r := HandleHandshakeInit(packet, dstLen, env);
        case HandshakeResponse(_, _, _, _, _, _) => r := HandleHandshakeResponse(packet, dstLen);
        case CookieReply(_, _, _) => r := HandleCookieReply(packet);
        case Data(receiverIdx, counter, cipher) => r := HandleData(receiverIdx, counter, cipher);
        case Malformed => return Failed(InvalidPacket);
      }
    }

    method HandleHandshakeInit(p: Datagram, dstLen: nat, env: Env) returns (r: TunnResult)
      requires Valid() && p.HandshakeInit?
      modifies Repr()
      ensures Valid() && fresh(Repr() - old(Repr()))
      ensures (View(), r) == old(View()).HandleHandshakeInit(p, dstLen, env)
    {
      AnswerIsNew(handshake.View(), p, env.ephemeral, dstLen);
      AnswerResult(View(), p, dstLen, env);
      var received := handshake.ReceiveHandshakeInitialization(p, env.ephemeral, dstLen);
      r := Answer(received);
    }

    /** Stores the session with which an initiation was answered. */
    method Answer(received: Result<(Datagram, Session), WireGuardError>) returns (r: TunnResult)
      requires Valid() && (received.Ok? ==> IsNew(received.value.1))
      modifies sessions, sessions.slots
      modifies this`wantKeepalive, this`wantHandshake, this`isInitiator, ticks, sessionTimers
      ensures Valid() && fresh(Repr() - old(Repr()))
      ensures (View(), r) == Answered(old(View()), received)
    {
      match received {
        case Err(e) => return Failed(e);
        case Ok((packet, session)) =>
          Establish(session);
          TimerTick(TimeLastPacketReceived);
          TimerTick(TimeLastPacketSent);
          TimerTickSessionEstablished(false, session.receivingIndex);
          return WriteToNetwork(packet);
      }
    }

    /** A response was received and completes a handshake. */
    method CountCompleted(index: Index32)
      requires Valid()
      modifies this`wantKeepalive, this`wantHandshake, this`isInitiator, this`current, ticks, sessionTimers
      ensures
        var t := old(View()).TimerTick(TimeLastPacketReceived);
        View() == t.(timers := t.timers.SessionEstablished(true, index)).SetCurrentSession(index)
    {
      TimerTick(TimeLastPacketReceived);
      TimerTickSessionEstablished(true, index);
      SetCurrentSession(index);
    }

    /** Makes the session object of a new session and stores it. */
    method Establish(session: Session)
      requires Valid() && IsNew(session)
      modifies sessions, sessions.slots
      ensures Valid() && fresh(Repr() - old(Repr()))
      ensures View() == old(View()).Store(session)
    {
      var made := new SessionObject(session.receivingIndex, session.sendingIndex, session.receiver, session.sender);
      sessions.Store(made);
    }

    /** The same, for a session that has to send an empty packet at once. */
    method EstablishSending(session: Session, dstLen: nat) returns (keepalive: Datagram)
      requires Valid() && IsNew(session)
      requires dstLen >= DATA_OVERHEAD_SZ
      modifies sessions, sessions.slots
      ensures Valid() && fresh(Repr() - old(Repr()))
      ensures
        var (session', packet) := session.FormatPacketData([]);
        View() == old(View()).Store(session') && keepalive == packet
    {
      var made := new SessionObject(session.receivingIndex, session.sendingIndex, session.receiver, session.sender);
      var packet := made.FormatPacketData([], dstLen);
      sessions.Store(made);
      keepalive := packet.value;
    }

    method HandleHandshakeResponse(p: Datagram, dstLen: nat) returns (r: TunnResult)
      requires Valid() && p.HandshakeResponse?
      modifies Repr()
      ensures Valid() && fresh(Repr() - old(Repr()))
      ensures (View(), r) == old(View()).HandleHandshakeResponse(p, dstLen)
    {
      CompletionIsNew(handshake.View(), p);
      var received := handshake.ReceiveHandshakeResponse(p);
      match received {
        case Err(e) => return Failed(e);
        case Ok(session) =>
          if dstLen < DATA_OVERHEAD_SZ {
            return Panicked;
          }
          var keepalive := EstablishSending(session, dstLen);
          CountCompleted(session.receivingIndex);
          return WriteToNetwork(keepalive);
      }
    }

    method HandleCookieReply(p: Datagram) returns (r: TunnResult)
      requires Valid() && p.CookieReply?
      modifies Repr()
      ensures Valid() && fresh(Repr() - old(Repr()))
      ensures (View(), r) == old(View()).HandleCookieReply(p)
    {
      var received := handshake.ReceiveCookieReply(p);
      match received {
        case Err(e) => return Failed(e);
        case Ok(_) =>
          TimerTick(TimeLastPacketReceived);
          TimerTick(TimeCookieReceived);
          return Done;
      }
    }

    method SetCurrentSession(newIdx: Index32)
      requires Valid()
      modifies this`current
      ensures View() == old(View()).SetCurrentSession(newIdx)
    {
      if current == newIdx {
        return;
      }
      var slot := current % N_SESSIONS;
      if sessions.IsEmpty(slot) || sessionTimers[newIdx % N_SESSIONS] >= sessionTimers[slot] {
        current := newIdx;
      }
    }

    method HandleData(receiverIdx: Index32, counter: ReplayWindow.Counter, cipher: Term) returns (r: TunnResult)
      requires Valid()
      modifies Repr()
      ensures Valid() && fresh(Repr() - old(Repr()))
      ensures (View(), r) == old(View()).HandleData(receiverIdx, counter, cipher)
    {
      var idx := receiverIdx % N_SESSIONS;
      if sessions.IsEmpty(idx) {
        return Failed(NoCurrentSession);
      }
      var plain := sessions.Open(idx, receiverIdx, counter, cipher);
      match plain {
        case Err(e) => return Failed(e);
        case Ok(packet) =>
          r := HandUp(receiverIdx, packet);
      }
    }

    /** A packet was opened on the session with this index. */
    method HandUp(receiverIdx: Index32, packet: Packet) returns (r: TunnResult)
      requires Valid()
      modifies this`current, this`wantKeepalive, this`wantHandshake, this`rxBytes, ticks
      ensures (View(), r) ==
        old(View()).SetCurrentSession(receiverIdx).TimerTick(TimeLastPacketReceived).ValidateDecapsulated(packet)
    {
      SetCurrentSession(receiverIdx);
      TimerTick(TimeLastPacketReceived);
      r := ValidateDecapsulatedPacket(packet);
    }

    method ValidateDecapsulatedPacket(packet: Packet) returns (r: TunnResult)
      requires Valid()
      modifies this`wantKeepalive, this`wantHandshake, this`rxBytes, ticks
      ensures (View(), r) == old(View()).ValidateDecapsulated(packet)
    {
      if packet == [] {
        return Done;
      }
      match IpHeader(packet) {
        case None => return Failed(InvalidPacket);
        case Some((computedLen, source)) =>
          if computedLen > |packet| {
            return Failed(InvalidPacket);
          }
          TimerTick(TimeLastDataPacketReceived);
          rxBytes := rxBytes + computedLen;
          return WriteToTunnel(packet[..computedLen], source);
      }
    }

    // --- the timer call ---

    method UpdateTimers(dstLen: nat, env: Env) returns (r: TunnResult)
      requires Valid()
      modifies Repr()
      ensures Valid() && fresh(Repr() - old(Repr()))
      ensures (View(), r) == old(View()).UpdateTimers(dstLen, env)
    {
      var now := Wake(env);
      if handshake.state.Expired? {
        return Failed(ConnectionExpired);
      }
      ClearOldCookie(now);
      var decision := Decide(now, env.late);
      match decision {
        case GiveUp =>
          handshake.SetExpired();
          ClearAll(env.late);
          return Failed(ConnectionExpired);
        case Initiate => r := FormatHandshakeInitiation(dstLen, true, env);
        case Keepalive => r := Encapsulate([], dstLen, env);
        case Nothing => return Done;
      }
    }

    method Wake(env: Env) returns (now: nat)
      requires Valid()
      modifies Repr()
      ensures Valid() && fresh(Repr() - old(Repr()))
      ensures View() == old(View()).Awake(env) && now == Since(env.now)
    {
      if shouldResetRr {
        limiter.ResetCount(env.late);
      }
      now := Since(env.now);
      ticks[Slot(TimeCurrent)] := now;
      UpdateSessionTimers(now);
    }

    method ClearOldCookie(now: nat)
      requires Valid()
      modifies handshake`cookies
      ensures View() == old(View()).DropOldCookie(now)
    {
      if handshake.cookies.writeCookie.Some? && now - ticks[Slot(TimeCookieReceived)] >= COOKIE_EXPIRATION_TIME {
        handshake.ClearCookie();
      }
    }

    /** The middle of the timer call: which of its three ends is due. */
    method Decide(now: nat, late: nat) returns (decision: Decision)
      requires Valid()
      modifies this`wantKeepalive, this`wantHandshake, ticks
      ensures (View(), decision) == old(View()).Decide(now, late)
    {
      var sessionEstablished := ticks[Slot(TimeSessionEstablished)];
      var handshakeStarted := ticks[Slot(TimeLastHandshakeStarted)];
      if now - sessionEstablished >= REJECT_AFTER_TIME * 3 {
        return GiveUp;
      }
      if handshake.state.InitSent? {
        if now - handshakeStarted >= REKEY_ATTEMPT_TIME {
          return GiveUp;
        }
        if late - handshake.state.sent.timeSent >= REKEY_TIMEOUT {
          return Initiate;
        }
        return Nothing;
      }
      decision := DecideIdle(now);
    }

    method DecideIdle(now: nat) returns (decision: Decision)
      requires Valid()
      modifies this`wantKeepalive, this`wantHandshake, ticks
      ensures (View(), decision) == old(View()).DecideIdle(now)
    {
      var sessionEstablished := ticks[Slot(TimeSessionEstablished)];
      var packetReceived := ticks[Slot(TimeLastPacketReceived)];
      var dataReceived, dataSent := ticks[Slot(TimeLastDataPacketReceived)], ticks[Slot(TimeLastDataPacketSent)];
      var initiationRequired := false;
      if isInitiator {
        if sessionEstablished < dataSent && now - sessionEstablished >= REKEY_AFTER_TIME {
          initiationRequired := true;
        }
        if sessionEstablished < dataReceived &&
           now - sessionEstablished >= REJECT_AFTER_TIME - KEEPALIVE_TIMEOUT - REKEY_TIMEOUT
        {
          initiationRequired := true;
        }
      }
      assert initiationRequired == View().RekeyDue(now);
      if dataSent > packetReceived && now - packetReceived >= KEEPALIVE_TIMEOUT + REKEY_TIMEOUT {
        if wantHandshake {
          initiationRequired := true;
        }
        wantHandshake := false;
      }
      if initiationRequired {
        return Initiate;
      }
      decision := DecideKeepalive(now);
    }

    method DecideKeepalive(now: nat) returns (decision: Decision)
      requires Valid()
      modifies this`wantKeepalive, this`wantHandshake, ticks
      ensures (View(), decision) == old(View()).DecideKeepalive(now)
    {
      var packetSent, dataReceived := ticks[Slot(TimeLastPacketSent)], ticks[Slot(TimeLastDataPacketReceived)];
      var keepaliveRequired := false;
      if dataReceived > packetSent && now - packetSent >= KEEPALIVE_TIMEOUT {
        if wantKeepalive {
          keepaliveRequired := true;
        }
        wantKeepalive := false;
      }
      if persistentKeepalive > 0 && now - ticks[Slot(TimePersistentKeepalive)] >= persistentKeepalive * SECOND {
        TimerTick(TimePersistentKeepalive);
        keepaliveRequired := true;
      }
      return if keepaliveRequired then Keepalive else Nothing;
    }

    // --- the whole interface ---

    /** Whatever is called on the object, its value makes that call; so a run of the object is a run of its value. */
    method Call(call: TunnelMoves.Call, dstLen: nat, env: Env) returns (r: TunnResult)
      requires Valid()
      modifies Repr()
      ensures Valid() && fresh(Repr() - old(Repr()))
      ensures (View(), r) == TunnelMoves.Apply(old(View()), call, dstLen, env)
    {
      match call {
        case Send(src) => r := Encapsulate(src, dstLen, env);
        case Receive(addr, datagram) => r := Decapsulate(addr, datagram, dstLen, env);
        case ReceiveVerified(datagram) => r := HandleVerifiedPacket(datagram, dstLen, env);
        case Flush => r := SendQueuedPacket(dstLen, env);
        case RunTimers => r := UpdateTimers(dstLen, env);
        case StartHandshake(force) => r := FormatHandshakeInitiation(dstLen, force, env);
      }
    }
  }
}
