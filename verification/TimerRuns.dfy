/**
 The timers of a tunnel over every run under a clock that never goes back: no subtraction of times
 underflows, no session outlives its slot's timer, an expired tunnel holds no session, and a handshake
 attempt that is not answered ends in time.
 */
module TimerRuns {
  import opened Wrappers
  import opened Crypto
  import opened Messages
  import opened Handshakes
  import opened RateLimiters
  import opened Tunnels
  import opened TunnelMoves

  // ---------------------------------------------------------------------------
  // Timers never run ahead
  // ---------------------------------------------------------------------------

  predicate NoneAhead(ts: Timers) {
    && (forall i :: 0 <= i < N_TIMERS ==> ts.ticks[i] <= ts.At(TimeCurrent))
    && (forall i :: 0 <= i < N_SESSIONS ==> ts.sessionTimers[i] <= ts.At(TimeCurrent))
  }

  predicate Behind(ts: Timers, clock: nat) {
    ts.timeStarted + ts.At(TimeCurrent) <= clock
  }

  /** An expired handshake holds no initiation that could still be answered. */
  predicate ExpiredForGood(h: Handshake) {
    h.IsExpired() ==> h.previous == Expired
  }

  /** The state of a tunnel when no clock reading so far exceeds `clock`. */
  predicate Timely(t: Tunn, clock: nat) {
    && NoneAhead(t.timers) && Behind(t.timers, clock)
    && (t.handshake.Timer().Some? ==> t.handshake.Timer().value <= clock)
    && ExpiredForGood(t.handshake)
    && (t.handshake.IsExpired() ==> NoSessions(t.sessions))
  }

  lemma TickKeeps(ts: Timers, name: TimerName)
    requires NoneAhead(ts)
    ensures NoneAhead(ts.Tick(name)) && ts.Tick(name).At(TimeCurrent) == ts.At(TimeCurrent)
    ensures ts.Tick(name).timeStarted == ts.timeStarted
  {}

  lemma EstablishedKeeps(ts: Timers, initiator: bool, index: nat)
    requires NoneAhead(ts)
    ensures NoneAhead(ts.SessionEstablished(initiator, index))
    ensures ts.SessionEstablished(initiator, index).At(TimeCurrent) == ts.At(TimeCurrent)
    ensures ts.SessionEstablished(initiator, index).timeStarted == ts.timeStarted
  {
    TickKeeps(ts, TimeSessionEstablished);
  }

  lemma ClearKeeps(ts: Timers, clock: nat)
    requires NoneAhead(ts) && Behind(ts, clock)
    ensures NoneAhead(ts.Clear(clock)) && Behind(ts.Clear(clock), clock)
  {}

  lemma InitiationKeeps(t: Tunn, clock: nat, dstLen: nat, force: bool, env: Env)
    requires Timely(t, clock) && clock <= env.late
    ensures Timely(t.FormatHandshakeInitiation(dstLen, force, env).0, env.late)
  {
    ClearKeeps(t.timers, env.late);
    var ts := if t.handshake.IsExpired() then t.timers.Clear(env.late) else t.timers;
    TickKeeps(ts, TimeLastHandshakeStarted);
    TickKeeps(ts, TimeLastPacketSent);
    TickKeeps(ts.Tick(TimeLastHandshakeStarted), TimeLastPacketSent);
  }

  lemma EncapsulateKeeps(t: Tunn, clock: nat, src: Packet, dstLen: nat, env: Env)
    requires Timely(t, clock) && clock <= env.late
    ensures Timely(t.Encapsulate(src, dstLen, env).0, env.late)
  {
    if t.CurrentSession().None? {
      InitiationKeeps(t.Queued(src), clock, dstLen, false, env);
    } else {
      TickKeeps(t.timers, TimeLastPacketSent);
      TickKeeps(t.timers.Tick(TimeLastPacketSent), TimeLastDataPacketSent);
    }
  }

  lemma FlushKeeps(t: Tunn, clock: nat, dstLen: nat, env: Env)
    requires Timely(t, clock) && clock <= env.late
    ensures Timely(t.SendQueued(dstLen, env).0, env.late)
  {
    if t.queue != [] {
      EncapsulateKeeps(t.(queue := t.queue[1..]), clock, t.queue[0], dstLen, env);
    }
  }

  /** Receiving an initiation leaves no initiation of its own and no expiry behind, or changes nothing. */
  lemma ReceivedHandshake(h: Handshake, msg: Datagram, ephemeral: nat, dstLen: nat)
    requires msg.HandshakeInit?
    ensures
      var (h', r) := h.ReceiveInitiation(msg, ephemeral, dstLen);
      && (h' == h || h'.state.NoHandshake? || h'.state.InitReceived?)
      && (r.Ok? ==> h'.state.NoHandshake?)
  {}

  lemma ResponderShape(t: Tunn, msg: Datagram, dstLen: nat, env: Env)
    requires msg.HandshakeInit?
    ensures
      var (h, r) := t.handshake.ReceiveInitiation(msg, env.ephemeral, dstLen);
      var t' := t.HandleHandshakeInit(msg, dstLen, env).0;
      && t'.handshake == h
      && (if r.Err? then t'.timers == t.timers && t'.sessions == t.sessions
          else t'.timers == t.timers.Tick(TimeLastPacketReceived).Tick(TimeLastPacketSent)
                            .SessionEstablished(false, r.value.1.receivingIndex))
  {}

  lemma ResponderKeeps(t: Tunn, clock: nat, msg: Datagram, dstLen: nat, env: Env)
    requires Timely(t, clock) && msg.HandshakeInit?
    ensures Timely(t.HandleHandshakeInit(msg, dstLen, env).0, clock)
  {
    ReceivedHandshake(t.handshake, msg, env.ephemeral, dstLen);
    ResponderShape(t, msg, dstLen, env);
    var (h, r) := t.handshake.ReceiveInitiation(msg, env.ephemeral, dstLen);
    if r.Ok? {
      EstablishingKeeps(t.timers, clock, r.value.1.receivingIndex);
    }
    StaysTimely(t, t.HandleHandshakeInit(msg, dstLen, env).0, clock);
  }

  lemma StaysTimely(t: Tunn, t': Tunn, clock: nat)
    requires Timely(t, clock) && NoneAhead(t'.timers) && Behind(t'.timers, clock)
    requires
      || (t'.handshake == t.handshake && t'.sessions == t.sessions)
      || t'.handshake.state.NoHandshake? || t'.handshake.state.InitReceived?
    ensures Timely(t', clock)
  {}

  lemma EstablishingKeeps(ts: Timers, clock: nat, index: Index32)
    requires NoneAhead(ts) && Behind(ts, clock)
    ensures
      var ts' := ts.Tick(TimeLastPacketReceived).Tick(TimeLastPacketSent).SessionEstablished(false, index);
      NoneAhead(ts') && Behind(ts', clock)
  {
    var ts1 := ts.Tick(TimeLastPacketReceived);
    TickKeeps(ts, TimeLastPacketReceived);
    TickKeeps(ts1, TimeLastPacketSent);
    EstablishedKeeps(ts1.Tick(TimeLastPacketSent), false, index);
  }

  lemma InitiatorKeeps(t: Tunn, clock: nat, msg: Datagram, dstLen: nat)
    requires Timely(t, clock) && msg.HandshakeResponse?
    ensures Timely(t.HandleHandshakeResponse(msg, dstLen).0, clock)
  {
    TickKeeps(t.timers, TimeLastPacketReceived);
    EstablishedKeeps(t.timers.Tick(TimeLastPacketReceived), true,
                     match t.handshake.ReceiveResponse(msg).1 case Ok(s) => s.receivingIndex case Err(_) => 0);
  }

  lemma CookieKeeps(t: Tunn, clock: nat, msg: Datagram)
    requires Timely(t, clock) && msg.CookieReply?
    ensures Timely(t.HandleCookieReply(msg).0, clock)
  {
    TickKeeps(t.timers, TimeLastPacketReceived);
    TickKeeps(t.timers.Tick(TimeLastPacketReceived), TimeCookieReceived);
  }

  lemma DataKeeps(t: Tunn, clock: nat, idx: Index32, counter: ReplayWindow.Counter, cipher: Term)
    requires Timely(t, clock)
    ensures Timely(t.HandleData(idx, counter, cipher).0, clock)
  {
    TickKeeps(t.timers, TimeLastPacketReceived);
    TickKeeps(t.timers.Tick(TimeLastPacketReceived), TimeLastDataPacketReceived);
  }

  lemma VerifiedKeeps(t: Tunn, clock: nat, d: Datagram, dstLen: nat, env: Env)
    requires Timely(t, clock)
    ensures Timely(t.HandleVerifiedPacket(d, dstLen, env).0, clock)
  {
    match d
    case HandshakeInit(_, _, _, _, _, _) => ResponderKeeps(t, clock, d, dstLen, env);
    case HandshakeResponse(_, _, _, _, _, _) => InitiatorKeeps(t, clock, d, dstLen);
    case CookieReply(_, _, _) => CookieKeeps(t, clock, d);
    case Data(idx, counter, cipher) => DataKeeps(t, clock, idx, counter, cipher);
    case Malformed =>
  }

  // --- the timer call itself ---

  lemma AwakeKeeps(t: Tunn, clock: nat, env: Env)
    requires Timely(t, clock) && clock <= env.now <= env.late
    ensures Timely(t.Awake(env), env.now) && t.Awake(env).timers.At(TimeCurrent) == t.timers.Since(env.now)
    ensures t.Awake(env).handshake == t.handshake
  {}

  /** A decision changes no more than the want flags and the persistent keepalive timer. */
  lemma IdleShape(t: Tunn, now: nat)
    ensures
      var ts, t' := t.timers, t.DecideIdle(now).0;
      && t' == t.(timers := t'.timers)
      && t'.timers.timeStarted == ts.timeStarted && t'.timers.sessionTimers == ts.sessionTimers
      && (|| t'.timers.ticks == ts.ticks
          || t'.timers.ticks == ts.ticks[Slot(TimePersistentKeepalive) := ts.At(TimeCurrent)])
  {
    KeepaliveShape(t, now);
    KeepaliveShape(t.(timers := t.timers.(wantHandshake := false)), now);
  }

  lemma KeepaliveShape(t: Tunn, now: nat)
    ensures
      var ts, t' := t.timers, t.DecideKeepalive(now).0;
      && t' == t.(timers := t'.timers)
      && t'.timers.timeStarted == ts.timeStarted && t'.timers.sessionTimers == ts.sessionTimers
      && (|| t'.timers.ticks == ts.ticks
          || t'.timers.ticks == ts.ticks[Slot(TimePersistentKeepalive) := ts.At(TimeCurrent)])
  {}

  lemma DecideKeeps(t: Tunn, clock: nat, now: nat, late: nat)
    requires Timely(t, clock)
    ensures Timely(t.Decide(now, late).0, clock) && t.Decide(now, late).0.handshake == t.handshake
    ensures t.Decide(now, late).0.sessions == t.sessions
  {
    IdleShape(t, now);
    var ts := t.DecideIdle(now).0.timers;
    assert NoneAhead(ts);
  }

  lemma GiveUpKeeps(t: Tunn, clock: nat, late: nat)
    requires Timely(t, clock) && clock <= late
    ensures Timely(t.ExpireTunnel(late), late)
  {
    ClearKeeps(t.timers, late);
  }

  lemma TimersKeep(t: Tunn, clock: nat, dstLen: nat, env: Env)
    requires Timely(t, clock) && clock <= env.now <= env.late
    ensures Timely(t.UpdateTimers(dstLen, env).0, env.late)
  {
    AwakeKeeps(t, clock, env);
    var awake, now := t.Awake(env), t.timers.Since(env.now);
    if !awake.handshake.IsExpired() {
      var t0 := awake.DropOldCookie(now);
      DecideKeeps(t0, env.now, now, env.late);
      var (t', decision) := t0.Decide(now, env.late);
      match decision
      case GiveUp => GiveUpKeeps(t', env.now, env.late);
      case Initiate => InitiationKeeps(t', env.now, dstLen, true, env);
      case Keepalive => EncapsulateKeeps(t', env.now, [], dstLen, env);
      case Nothing =>
    }
  }

  // ---------------------------------------------------------------------------
  // Runs under a clock that never goes back
  // ---------------------------------------------------------------------------

  /** The clock reading up to state `i`, if the first state was seen at `start`. */
  function ClockAt(start: nat, steps: seq<Step>, i: nat): nat
    requires i <= |steps|
  {
    if i == 0 then start else steps[i - 1].env.late
  }

  ghost predicate Monotone(start: nat, steps: seq<Step>) {
    forall i :: 0 <= i < |steps| ==> ClockAt(start, steps, i) <= steps[i].env.now <= steps[i].env.late
  }

  lemma CallKeepsTimely(t: Tunn, clock: nat, call: Call, dstLen: nat, env: Env)
    requires Timely(t, clock) && clock <= env.now <= env.late
    ensures Timely(TunnelMoves.Apply(t, call, dstLen, env).0, env.late)
  {
    match call
    case Send(src) => EncapsulateKeeps(t, clock, src, dstLen, env);
    case Receive(addr, d) =>
      VerifiedKeeps(t.(limiter := t.limiter.VerifyPacket(addr, d, env.now).0), clock, d, dstLen, env);
    case ReceiveVerified(d) => VerifiedKeeps(t, clock, d, dstLen, env);
    case Flush => FlushKeeps(t, clock, dstLen, env);
    case RunTimers => TimersKeep(t, clock, dstLen, env);
    case StartHandshake(force) => InitiationKeeps(t, clock, dstLen, force, env);
  }

  /** In every reachable state no timer runs ahead of the clock, and an expired tunnel holds no session. */
  lemma {:induction false} AlwaysTimely(start: nat, states: seq<Tunn>, steps: seq<Step>, i: nat)
    requires IsTunnelRun(states, steps) && Monotone(start, steps) && Timely(states[0], start) && i < |states|
    ensures Timely(states[i], ClockAt(start, steps, i))
  {
    if i > 0 {
      AlwaysTimely(start, states, steps, i - 1);
      var s := steps[i - 1];
      assert StepAt(states, steps, i - 1);
      CallKeepsTimely(states[i - 1], ClockAt(start, steps, i - 1), s.call, s.dstLen, s.env);
    }
  }

  /** The state of a new tunnel. */
  lemma NewIsTimely(staticPrivate: nat, peerStaticPublic: Term, psk: Option<Term>, persistentKeepalive: nat,
                    index: Index32, limiter: Limiter, ownLimiter: bool, stampOffset: nat, clock: nat)
    ensures Timely(NewTunn(staticPrivate, peerStaticPublic, psk, persistentKeepalive, index, limiter, ownLimiter,
                           stampOffset, clock), clock)
  {}

  /** In every run no subtraction of a timer from the time of a call underflows. */
  lemma NoUnderflow(start: nat, states: seq<Tunn>, steps: seq<Step>, i: nat)
    requires IsTunnelRun(states, steps) && Monotone(start, steps) && Timely(states[0], start) && i < |steps|
    ensures
      var t, env := states[i], steps[i].env;
      && (forall n :: 0 <= n < N_TIMERS ==> t.timers.ticks[n] <= t.timers.Since(env.now))
      && (forall n :: 0 <= n < N_SESSIONS ==> t.timers.sessionTimers[n] <= t.timers.Since(env.now))
      && (t.handshake.Timer().Some? ==> t.handshake.Timer().value <= env.now)
  {
    AlwaysTimely(start, states, steps, i);
    assert ClockAt(start, steps, i) <= steps[i].env.now;
  }

  /** In every reachable state an expired handshake comes with an empty ring. */
  lemma ExpiredHasNoSessions(start: nat, states: seq<Tunn>, steps: seq<Step>, i: nat)
    requires IsTunnelRun(states, steps) && Monotone(start, steps) && Timely(states[0], start) && i < |states|
    requires states[i].handshake.IsExpired()
    ensures NoSessions(states[i].sessions)
  {
    AlwaysTimely(start, states, steps, i);
  }

  predicate NoneOlderThan(t: Tunn, now: nat, age: nat) {
    forall i :: 0 <= i < N_SESSIONS && t.sessions[i].Some? ==> now - t.timers.sessionTimers[i] <= age
  }

  lemma AwakeDropsOld(t: Tunn, env: Env)
    ensures NoneOlderThan(t.Awake(env), t.timers.Since(env.now), REJECT_AFTER_TIME)
  {}

  /** Sending fills no slot and moves no session timer. */
  lemma EncapsulateStoresNothing(t: Tunn, src: Packet, dstLen: nat, env: Env, now: nat, age: nat)
    requires NoneOlderThan(t, now, age)
    ensures NoneOlderThan(t.Encapsulate(src, dstLen, env).0, now, age)
  {}

  lemma InitiationStoresNothing(t: Tunn, dstLen: nat, force: bool, env: Env, now: nat, age: nat)
    requires NoneOlderThan(t, now, age)
    ensures NoneOlderThan(t.FormatHandshakeInitiation(dstLen, force, env).0, now, age)
  {}

  /** After every timer call no stored session is older than 180 s by the timer of its slot. */
  lemma NoSessionOutlivesItsTimer(t: Tunn, dstLen: nat, env: Env)
    ensures NoneOlderThan(t.UpdateTimers(dstLen, env).0, t.timers.Since(env.now), REJECT_AFTER_TIME)
  {
    AwakeDropsOld(t, env);
    var awake, now := t.Awake(env), t.timers.Since(env.now);
    if !awake.handshake.IsExpired() {
      var t0 := awake.DropOldCookie(now);
      IdleShape(t0, now);
      var (t', decision) := t0.Decide(now, env.late);
      match decision
      case GiveUp =>
      case Initiate => InitiationStoresNothing(t', dstLen, true, env, now, REJECT_AFTER_TIME);
      case Keepalive => EncapsulateStoresNothing(t', [], dstLen, env, now, REJECT_AFTER_TIME);
      case Nothing =>
    }
  }

  // ---------------------------------------------------------------------------
  // A handshake attempt
  // ---------------------------------------------------------------------------

  /** A call that brings in nothing from the network and forces no initiation. */
  predicate Outgoing(call: Call) {
    match call
    case Send(_) => true
    case Flush => true
    case RunTimers => true
    case StartHandshake(force) => !force
    case _ => false
  }

  predicate SendsInit(r: TunnResult) {
    r.WriteToNetwork? && r.datagram.HandshakeInit?
  }

  /** An attempt that began at `started` has sent `count` initiations, each 5 s or more after the one before. */
  predicate Trying(t: Tunn, started: nat, count: nat) {
    && count >= 1
    && t.handshake.Timer().Some?
    && t.timers.At(TimeLastHandshakeStarted) == started
    && t.handshake.Timer().value >= t.timers.timeStarted + started + (count - 1) * REKEY_TIMEOUT
  }

  predicate GivenUp(t: Tunn) {
    t.handshake.IsExpired() && NoSessions(t.sessions) && t.queue == []
  }

  /** An attempt starts with its first initiation, at the time of the last timer call. */
  lemma AttemptStarts(t: Tunn, clock: nat, call: Call, dstLen: nat, env: Env)
    requires Timely(t, clock) && clock <= env.now <= env.late && Outgoing(call) && !t.handshake.IsInProgress()
    requires SendsInit(TunnelMoves.Apply(t, call, dstLen, env).1)
    ensures
      var t' := TunnelMoves.Apply(t, call, dstLen, env).0;
      Trying(t', t'.timers.At(TimeLastHandshakeStarted), 1)
  {
    match call
    case Send(src) => FirstInitiation(t.Queued(src), clock, dstLen, false, env);
    case Flush => FirstInitiation(t.(queue := t.queue[1..]).Queued(t.queue[0]), clock, dstLen, false, env);
    case StartHandshake(force) => FirstInitiation(t, clock, dstLen, force, env);
    case RunTimers =>
      var awake, now := t.Awake(env), t.timers.Since(env.now);
      AwakeKeeps(t, clock, env);
      var t0 := awake.DropOldCookie(now);
      DecideKeeps(t0, env.now, now, env.late);
      var (t', decision) := t0.Decide(now, env.late);
      if decision.Initiate? {
        FirstInitiation(t', env.now, dstLen, true, env);
      } else {
        FirstInitiation(t'.Queued([]), env.now, dstLen, false, env);
      }
  }

  lemma FirstInitiation(t: Tunn, clock: nat, dstLen: nat, force: bool, env: Env)
    requires Timely(t, clock) && clock <= env.late && !t.handshake.IsInProgress()
    ensures
      var (t', r) := t.FormatHandshakeInitiation(dstLen, force, env);
      SendsInit(r) ==> Trying(t', t'.timers.At(TimeLastHandshakeStarted), 1)
  {
    ClearKeeps(t.timers, env.late);
  }

  /** While an attempt goes on, sending packets starts no other and leaves it alone. */
  lemma SendingKeepsAttempt(t: Tunn, started: nat, count: nat, src: Packet, dstLen: nat, env: Env)
    requires Trying(t, started, count)
    ensures
      var (t', r) := t.Encapsulate(src, dstLen, env);
      Trying(t', started, count) && !SendsInit(r)
  {}

  lemma FlushingKeepsAttempt(t: Tunn, started: nat, count: nat, dstLen: nat, env: Env)
    requires Trying(t, started, count)
    ensures
      var (t', r) := t.SendQueued(dstLen, env);
      Trying(t', started, count) && !SendsInit(r)
  {
    if t.queue != [] {
      SendingKeepsAttempt(t.(queue := t.queue[1..]), started, count, t.queue[0], dstLen, env);
    }
  }

  /** A timer call 90 s into an attempt gives up; before that it may send one more initiation, 5 s after the last. */
  lemma TimersInAttempt(t: Tunn, started: nat, count: nat, dstLen: nat, env: Env)
    requires Trying(t, started, count)
    ensures
      var (t', r) := t.UpdateTimers(dstLen, env);
      || (GivenUp(t') && !SendsInit(r))
      || (&& t.timers.Since(env.now) < started + REKEY_ATTEMPT_TIME
          && if SendsInit(r)
             then Trying(t', started, count + 1) && env.late >= t.handshake.Timer().value + REKEY_TIMEOUT
             else Trying(t', started, count))
  {
    var awake, now := t.Awake(env), t.timers.Since(env.now);
    assert Trying(awake, started, count);
    var t0 := awake.DropOldCookie(now);
    assert Trying(t0, started, count);
    if t0.Decide(now, env.late).1.Initiate? {
      Retransmission(t0, started, count, dstLen, env);
    }
  }

  lemma Retransmission(t: Tunn, started: nat, count: nat, dstLen: nat, env: Env)
    requires Trying(t, started, count) && env.late >= t.handshake.Timer().value + REKEY_TIMEOUT
    ensures
      var (t', r) := t.FormatHandshakeInitiation(dstLen, true, env);
      if SendsInit(r) then Trying(t', started, count + 1) else Trying(t', started, count)
  {}

  /** One more call during an attempt: the attempt goes on, with one more initiation at most, or is given up. */
  lemma AttemptGoesOn(t: Tunn, clock: nat, started: nat, count: nat, call: Call, dstLen: nat, env: Env)
    requires Timely(t, clock) && clock <= env.now <= env.late && Trying(t, started, count) && Outgoing(call)
    ensures
      var (t', r) := TunnelMoves.Apply(t, call, dstLen, env);
      && (call.RunTimers? && t.timers.Since(env.now) >= started + REKEY_ATTEMPT_TIME ==> GivenUp(t'))
      && (|| (GivenUp(t') && !SendsInit(r))
          || (Trying(t', started, count) && !SendsInit(r))
          || (&& Trying(t', started, count + 1) && SendsInit(r)
              && count + 1 <= (if env.now == env.late then 18 else 19)))
  {
    match call
    case Send(src) => SendingKeepsAttempt(t, started, count, src, dstLen, env);
    case Flush => FlushingKeepsAttempt(t, started, count, dstLen, env);
    case StartHandshake(_) =>
    case RunTimers => TimersInAttempt(t, started, count, dstLen, env);
  }

  function InitsSent(results: seq<TunnResult>, n: nat): nat
    requires n <= |results|
  {
    if n == 0 then 0 else InitsSent(results, n - 1) + (if SendsInit(results[n - 1]) then 1 else 0)
  }

  /** A run of outgoing calls whose first starts an attempt. */
  ghost predicate IsAttempt(start: nat, states: seq<Tunn>, steps: seq<Step>, results: seq<TunnResult>) {
    && IsAnsweredRun(states, steps, results) && Monotone(start, steps) && Timely(states[0], start)
    && steps != [] && !states[0].handshake.IsInProgress() && SendsInit(results[0])
    && forall i :: 0 <= i < |steps| ==> Outgoing(steps[i].call)
  }

  /** No give-up in the first `n` steps. */
  ghost predicate NotGivenUp(states: seq<Tunn>, n: nat) {
    n < |states| && forall i :: 0 < i <= n ==> !states[i].handshake.IsExpired()
  }

  ghost predicate OneReading(steps: seq<Step>) {
    forall i :: 0 <= i < |steps| ==> steps[i].env.now == steps[i].env.late
  }

  lemma AttemptStartsAt(start: nat, states: seq<Tunn>, steps: seq<Step>, results: seq<TunnResult>)
    requires IsAttempt(start, states, steps, results)
    ensures Trying(states[1], states[1].timers.At(TimeLastHandshakeStarted), 1)
  {
    var s := steps[0];
    assert StepAt(states, steps, 0) && AnswerAt(states, steps, results, 0);
    AttemptStarts(states[0], start, s.call, s.dstLen, s.env);
  }

  /** What one more call does to an attempt, in a run. */
  lemma AttemptStep(start: nat, states: seq<Tunn>, steps: seq<Step>, results: seq<TunnResult>, n: nat, started: nat,
                    count: nat)
    requires IsAttempt(start, states, steps, results) && n < |steps| && Trying(states[n], started, count)
    ensures steps[n].call.RunTimers? && states[n].timers.Since(steps[n].env.now) >= started + REKEY_ATTEMPT_TIME ==>
      GivenUp(states[n + 1])
    ensures
      || (GivenUp(states[n + 1]) && !SendsInit(results[n]))
      || (Trying(states[n + 1], started, count) && !SendsInit(results[n]))
      || (&& Trying(states[n + 1], started, count + 1) && SendsInit(results[n])
          && count + 1 <= (if steps[n].env.now == steps[n].env.late then 18 else 19))
  {
    var s := steps[n];
    assert StepAt(states, steps, n) && AnswerAt(states, steps, results, n);
    AlwaysTimely(start, states, steps, n);
    AttemptGoesOn(states[n], ClockAt(start, steps, n), started, count, s.call, s.dstLen, s.env);
  }

  /**
   However it is driven from the inside, an attempt that gets no answer sends at most 18 initiations if
   the clock stands still during a call, and at most 19 if it does not; retransmission leaves the start of
   the attempt where it was.
   */
  lemma {:induction false} AttemptIsBounded(start: nat, states: seq<Tunn>, steps: seq<Step>, results: seq<TunnResult>,
                                            n: nat)
    requires IsAttempt(start, states, steps, results) && 1 <= n <= |steps| && NotGivenUp(states, n)
    ensures Trying(states[n], states[1].timers.At(TimeLastHandshakeStarted), InitsSent(results, n))
    ensures InitsSent(results, n) <= 19
    ensures OneReading(steps) ==> InitsSent(results, n) <= 18
  {
    if n == 1 {
      AttemptStartsAt(start, states, steps, results);
      assert InitsSent(results, 0) == 0;
    } else {
      AttemptIsBounded(start, states, steps, results, n - 1);
      AttemptStep(start, states, steps, results, n - 1, states[1].timers.At(TimeLastHandshakeStarted),
                  InitsSent(results, n - 1));
      assert !states[n].handshake.IsExpired();
    }
  }

  /** A timer call 90 s or more after the attempt started finds no excuse: expired, no sessions, empty queue. */
  lemma AttemptEnds(start: nat, states: seq<Tunn>, steps: seq<Step>, results: seq<TunnResult>, n: nat)
    requires IsAttempt(start, states, steps, results) && 1 <= n < |steps| && NotGivenUp(states, n)
    requires steps[n].call.RunTimers?
    requires states[n].timers.Since(steps[n].env.now)
          >= states[1].timers.At(TimeLastHandshakeStarted) + REKEY_ATTEMPT_TIME
    ensures GivenUp(states[n + 1])
  {
    AttemptIsBounded(start, states, steps, results, n);
    AttemptStep(start, states, steps, results, n, states[1].timers.At(TimeLastHandshakeStarted), InitsSent(results, n));
  }
}
