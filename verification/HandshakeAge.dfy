/**
 The age of the last handshake, as the control socket reports it: over every run of a tunnel under a clock
 that never goes back, the age is no negative duration, and as long as the timers are run it is at most
 180 s more than the time since the last timer call, because older sessions are dropped.
 */
module HandshakeAges {
  import opened Wrappers
  import opened Crypto
  import opened Messages
  import opened RateLimiters
  import opened Tunnels
  import opened TunnelMoves
  import opened TimerRuns

  /** The time since the last handshake, None without a session in use; 0 where the subtraction would underflow. */
  function HandshakeAge(t: Tunn, clock: nat): Option<nat> {
    var established := t.timers.At(TimeSessionEstablished);
    if t.CurrentSession().None? then None
    else Some(if t.timers.Since(clock) >= established then t.timers.Since(clock) - established else 0)
  }

  // ---------------------------------------------------------------------------
  // The invariant
  // ---------------------------------------------------------------------------

  /**
   No slot was filled after the last handshake; and the timers ran at time `b` (a duration) or later, so that
   without a handshake in the 180 s before `b` there is no session.
   */
  ghost predicate Aged(ring: Ring, ts: Timers, b: nat) {
    && ts.At(TimeCurrent) >= b
    && (forall i :: 0 <= i < N_SESSIONS && ring[i].Some? ==>
          && ts.sessionTimers[i] <= ts.At(TimeSessionEstablished)
          && b <= ts.At(TimeSessionEstablished) + REJECT_AFTER_TIME)
  }

  /** The tunnel `t` became `t'`, whose times are still counted from the same start. */
  ghost predicate AgedTo(t: Tunn, t': Tunn, b: nat) {
    t'.timers.timeStarted == t.timers.timeStarted && Aged(t'.sessions, t'.timers, b)
  }

  /** No slot is filled that was not. */
  predicate NoneAdded(ring: Ring, ring': Ring) {
    forall i :: 0 <= i < N_SESSIONS && ring'[i].Some? ==> ring[i].Some?
  }

  /** The time of the last handshake, the slots' times and the current time stand still. */
  predicate TimesStand(ts: Timers, ts': Timers) {
    && ts'.timeStarted == ts.timeStarted && ts'.At(TimeCurrent) == ts.At(TimeCurrent)
    && ts'.At(TimeSessionEstablished) == ts.At(TimeSessionEstablished)
    && ts'.sessionTimers == ts.sessionTimers
  }

  lemma StandingKeeps(ring: Ring, ts: Timers, ring': Ring, ts': Timers, b: nat)
    requires Aged(ring, ts, b) && NoneAdded(ring, ring') && TimesStand(ts, ts')
    ensures Aged(ring', ts', b)
  {}

  lemma ClearingKeepsAged(ring: Ring, ts: Timers, ring': Ring, clock: nat, b: nat)
    requires NoneAhead(ts) && Behind(ts, clock) && ts.At(TimeCurrent) >= b
    ensures Aged(ring', ts.Clear(clock), b)
  {}

  /** After a handshake its time is the current time, which no slot's time exceeds. */
  lemma EstablishingKeepsAged(ring: Ring, ts: Timers, initiator: bool, index: nat, b: nat)
    requires NoneAhead(ts) && ts.At(TimeCurrent) >= b
    ensures Aged(ring, ts.SessionEstablished(initiator, index), b)
  {}

  lemma InitiationKeepsAged(t: Tunn, clock: nat, dstLen: nat, force: bool, env: Env, b: nat)
    requires Timely(t, clock) && clock <= env.late && Aged(t.sessions, t.timers, b)
    ensures AgedTo(t, t.FormatHandshakeInitiation(dstLen, force, env).0, b)
  {
    var t' := t.FormatHandshakeInitiation(dstLen, force, env).0;
    var ts := if t.handshake.IsExpired() then t.timers.Clear(env.late) else t.timers;
    ClearingKeepsAged(t.sessions, t.timers, t.sessions, env.late, b);
    if t' != t {
      StandingKeeps(t.sessions, ts, t'.sessions, t'.timers, b);
    }
  }

  lemma EncapsulateKeepsAged(t: Tunn, clock: nat, src: Packet, dstLen: nat, env: Env, b: nat)
    requires Timely(t, clock) && clock <= env.late && Aged(t.sessions, t.timers, b)
    ensures AgedTo(t, t.Encapsulate(src, dstLen, env).0, b)
  {
    if t.CurrentSession().None? {
      InitiationKeepsAged(t.Queued(src), clock, dstLen, false, env, b);
    } else {
      var t' := t.Encapsulate(src, dstLen, env).0;
      StandingKeeps(t.sessions, t.timers, t'.sessions, t'.timers, b);
    }
  }

  lemma ResponderKeepsAged(t: Tunn, clock: nat, msg: Datagram, dstLen: nat, env: Env, b: nat)
    requires Timely(t, clock) && msg.HandshakeInit? && Aged(t.sessions, t.timers, b)
    ensures AgedTo(t, t.HandleHandshakeInit(msg, dstLen, env).0, b)
  {
    ResponderShape(t, msg, dstLen, env);
    var r := t.handshake.ReceiveInitiation(msg, env.ephemeral, dstLen).1;
    if r.Ok? {
      var ts1 := t.timers.Tick(TimeLastPacketReceived);
      TickKeeps(t.timers, TimeLastPacketReceived);
      TickKeeps(ts1, TimeLastPacketSent);
      EstablishingKeepsAged(t.HandleHandshakeInit(msg, dstLen, env).0.sessions, ts1.Tick(TimeLastPacketSent),
                            false, r.value.1.receivingIndex, b);
    }
  }

  lemma InitiatorShape(t: Tunn, msg: Datagram, dstLen: nat)
    requires msg.HandshakeResponse?
    ensures
      var r := t.handshake.ReceiveResponse(msg).1;
      var t' := t.HandleHandshakeResponse(msg, dstLen).0;
      if r.Err? || dstLen < DATA_OVERHEAD_SZ then t'.timers == t.timers && t'.sessions == t.sessions
      else t'.timers == t.timers.Tick(TimeLastPacketReceived).SessionEstablished(true, r.value.receivingIndex)
  {}

  lemma InitiatorKeepsAged(t: Tunn, clock: nat, msg: Datagram, dstLen: nat, b: nat)
    requires Timely(t, clock) && msg.HandshakeResponse? && Aged(t.sessions, t.timers, b)
    ensures AgedTo(t, t.HandleHandshakeResponse(msg, dstLen).0, b)
  {
    InitiatorShape(t, msg, dstLen);
    var r := t.handshake.ReceiveResponse(msg).1;
    if r.Ok? && dstLen >= DATA_OVERHEAD_SZ {
      TickKeeps(t.timers, TimeLastPacketReceived);
      EstablishingKeepsAged(t.HandleHandshakeResponse(msg, dstLen).0.sessions, t.timers.Tick(TimeLastPacketReceived),
                            true, r.value.receivingIndex, b);
    }
  }

  lemma CookieStands(t: Tunn, d: Datagram)
    requires d.CookieReply?
    ensures
      var t' := t.HandleCookieReply(d).0;
      NoneAdded(t.sessions, t'.sessions) && TimesStand(t.timers, t'.timers)
  {}

  lemma DataStands(t: Tunn, d: Datagram)
    requires d.Data?
    ensures
      var t' := t.HandleData(d.receiverIdx, d.counter, d.cipher).0;
      NoneAdded(t.sessions, t'.sessions) && TimesStand(t.timers, t'.timers)
  {}

  lemma OtherPacketsStand(t: Tunn, d: Datagram, dstLen: nat, env: Env)
    requires !d.HandshakeInit? && !d.HandshakeResponse?
    ensures
      var t' := t.HandleVerifiedPacket(d, dstLen, env).0;
      NoneAdded(t.sessions, t'.sessions) && TimesStand(t.timers, t'.timers)
  {
    if d.CookieReply? {
      CookieStands(t, d);
    } else if d.Data? {
      DataStands(t, d);
    }
  }

  lemma ReceivingKeepsAged(t: Tunn, clock: nat, d: Datagram, dstLen: nat, env: Env, b: nat)
    requires Timely(t, clock) && Aged(t.sessions, t.timers, b)
    ensures AgedTo(t, t.HandleVerifiedPacket(d, dstLen, env).0, b)
  {
    if d.HandshakeInit? {
      ResponderKeepsAged(t, clock, d, dstLen, env, b);
    } else if d.HandshakeResponse? {
      InitiatorKeepsAged(t, clock, d, dstLen, b);
    } else {
      OtherPacketsStand(t, d, dstLen, env);
      var t' := t.HandleVerifiedPacket(d, dstLen, env).0;
      StandingKeeps(t.sessions, t.timers, t'.sessions, t'.timers, b);
    }
  }

  // --- the timer call ---

  /** Waking up drops what is older than 180 s, so what is left is aged by the present. */
  lemma AwakeAges(t: Tunn, clock: nat, env: Env, b: nat)
    requires Timely(t, clock) && clock <= env.now && Aged(t.sessions, t.timers, b)
    ensures AgedTo(t, t.Awake(env), t.timers.Since(env.now))
  {}

  lemma DecisionStands(t: Tunn, now: nat, late: nat)
    ensures
      var t' := t.Decide(now, late).0;
      t'.sessions == t.sessions && t'.handshake == t.handshake && TimesStand(t.timers, t'.timers)
  {
    IdleShape(t, now);
  }

  lemma TimersAge(t: Tunn, clock: nat, dstLen: nat, env: Env, b: nat)
    requires Timely(t, clock) && clock <= env.now <= env.late && Aged(t.sessions, t.timers, b)
    ensures AgedTo(t, t.UpdateTimers(dstLen, env).0, t.timers.Since(env.now))
  {
    AwakeAges(t, clock, env, b);
    AwakeKeeps(t, clock, env);
    var awake, now := t.Awake(env), t.timers.Since(env.now);
    if !awake.handshake.IsExpired() {
      var t0 := awake.DropOldCookie(now);
      DecideKeeps(t0, env.now, now, env.late);
      DecisionStands(t0, now, env.late);
      var (t', decision) := t0.Decide(now, env.late);
      StandingKeeps(t0.sessions, t0.timers, t'.sessions, t'.timers, now);
      match decision
      case GiveUp => ClearingKeepsAged(t'.sessions, t'.timers, t'.ExpireTunnel(env.late).sessions, env.late, now);
      case Initiate => InitiationKeepsAged(t', env.now, dstLen, true, env, now);
      case Keepalive => EncapsulateKeepsAged(t', env.now, [], dstLen, env, now);
      case Nothing =>
    }
  }

  // ---------------------------------------------------------------------------
  // Every call
  // ---------------------------------------------------------------------------

  /** The bound that a call leaves: a timer call brings it to the present. */
  function BoundAfter(t: Tunn, call: Call, env: Env, b: nat): nat {
    if call.RunTimers? then t.timers.Since(env.now) else b
  }

  lemma CallKeepsAged(t: Tunn, clock: nat, call: Call, dstLen: nat, env: Env, b: nat)
    requires Timely(t, clock) && clock <= env.now <= env.late && Aged(t.sessions, t.timers, b)
    ensures AgedTo(t, TunnelMoves.Apply(t, call, dstLen, env).0, BoundAfter(t, call, env, b))
  {
    match call
    case Send(src) => EncapsulateKeepsAged(t, clock, src, dstLen, env, b);
    case Flush =>
      if t.queue != [] {
        EncapsulateKeepsAged(t.(queue := t.queue[1..]), clock, t.queue[0], dstLen, env, b);
      }
    case Receive(addr, d) =>
      ReceivingKeepsAged(t.(limiter := t.limiter.VerifyPacket(addr, d, env.now).0), clock, d, dstLen, env, b);
    case ReceiveVerified(d) => ReceivingKeepsAged(t, clock, d, dstLen, env, b);
    case RunTimers => TimersAge(t, clock, dstLen, env, b);
    case StartHandshake(force) => InitiationKeepsAged(t, clock, dstLen, force, env, b);
  }

  // ---------------------------------------------------------------------------
  // Runs
  // ---------------------------------------------------------------------------

  /** A tunnel that was just made, with the clock at `start`. */
  predicate Born(t: Tunn, start: nat) {
    Timely(t, start) && t.timers.timeStarted == start && NoSessions(t.sessions)
  }

  lemma NewIsBorn(staticPrivate: nat, peerStaticPublic: Term, psk: Option<Term>, persistentKeepalive: nat,
                  index: Index32, limiter: Limiter, ownLimiter: bool, stampOffset: nat, clock: nat)
    ensures
      var t := NewTunn(staticPrivate, peerStaticPublic, psk, persistentKeepalive, index, limiter, ownLimiter,
                       stampOffset, clock);
      Born(t, clock)
  {}

  /** The calls on a tunnel since it was made, under a clock that never goes back. */
  ghost predicate IsLife(start: nat, states: seq<Tunn>, steps: seq<Step>) {
    IsTunnelRun(states, steps) && Monotone(start, steps) && Born(states[0], start)
  }

  /** The clock at the last timer call of the first `k` calls, or at the start of the tunnel. */
  function LastTimers(start: nat, steps: seq<Step>, k: nat): nat
    requires k <= |steps|
  {
    if k == 0 then start
    else if steps[k - 1].call.RunTimers? then steps[k - 1].env.now
    else LastTimers(start, steps, k - 1)
  }

  lemma {:induction false} TimersInOrder(start: nat, steps: seq<Step>, k: nat)
    requires Monotone(start, steps) && k <= |steps|
    ensures start <= LastTimers(start, steps, k) <= ClockAt(start, steps, k)
  {
    if k > 0 {
      TimersInOrder(start, steps, k - 1);
      assert ClockAt(start, steps, k - 1) <= steps[k - 1].env.now <= steps[k - 1].env.late;
    }
  }

  /** The state before call `k + 1`, aged by the last timer call. */
  ghost predicate AgedAt(start: nat, states: seq<Tunn>, steps: seq<Step>, k: nat)
    requires |states| == |steps| + 1 && k <= |steps|
  {
    && LastTimers(start, steps, k) >= start && states[k].timers.timeStarted == start
    && Aged(states[k].sessions, states[k].timers, LastTimers(start, steps, k) - start)
  }

  lemma StepAges(start: nat, states: seq<Tunn>, steps: seq<Step>, k: nat)
    requires IsTunnelRun(states, steps) && Monotone(start, steps) && k < |steps|
    requires AgedAt(start, states, steps, k) && Timely(states[k], ClockAt(start, steps, k))
    ensures AgedAt(start, states, steps, k + 1)
  {
    var s := steps[k];
    TimersInOrder(start, steps, k + 1);
    assert StepAt(states, steps, k);
    assert ClockAt(start, steps, k) <= s.env.now <= s.env.late;
    CallKeepsAged(states[k], ClockAt(start, steps, k), s.call, s.dstLen, s.env, LastTimers(start, steps, k) - start);
  }

  lemma {:induction false} AlwaysAged(start: nat, states: seq<Tunn>, steps: seq<Step>, k: nat)
    requires IsLife(start, states, steps) && k <= |steps|
    ensures AgedAt(start, states, steps, k)
    decreases k
  {
    if k > 0 {
      AlwaysAged(start, states, steps, k - 1);
      AlwaysTimely(start, states, steps, k - 1);
      StepAges(start, states, steps, k - 1);
    }
  }

  /**
   In every run, a reported age is exactly the time from the last handshake to the present, and at most 180 s
   more than the time since the last timer call.
   */
  lemma AgeIsBounded(start: nat, states: seq<Tunn>, steps: seq<Step>, k: nat, clock: nat)
    requires IsLife(start, states, steps) && k <= |steps| && ClockAt(start, steps, k) <= clock
    ensures
      var age, established := HandshakeAge(states[k], clock), states[k].timers.At(TimeSessionEstablished);
      && (age.Some? ==> start + established + age.value == clock)
      && (age.Some? ==> LastTimers(start, steps, k) + age.value <= clock + REJECT_AFTER_TIME)
      && (start + established + REJECT_AFTER_TIME < LastTimers(start, steps, k) ==> age == None)
  {
    AlwaysAged(start, states, steps, k);
    AlwaysTimely(start, states, steps, k);
    TimersInOrder(start, steps, k);
  }
}
