/**
 Which peers the reaper spares. It compares the registered keys with what the control socket reported some
 time before: the age of each peer's last handshake, in whole seconds. Recent peers are meant to survive;
 they do so if and only if the device already had them when it was asked, and their handshake is a second
 old or their registration at most 600 s.
 */
module Reapers {
  import opened Wrappers
  import opened Crypto
  import opened Messages
  import opened Handshakes
  import opened RateLimiters
  import opened Tunnels
  import opened TunnelMoves
  import opened TimerRuns
  import opened HandshakeAges
  import opened Text
  import Uapi

  const STALE_PEER_SECS := 600
  const STALE_NEVER_CONNECTED_SECS := 600

  function Get<K, V>(m: map<K, V>, key: K): Option<V> {
    if key in m then Some(m[key]) else None
  }

  function Elapsed(since: nat, now: nat): nat {
    (if now >= since then now - since else 0) / SECOND
  }

  /**
   The reaper's test of a key: what was reported for it and when it was registered. An age of 0 counts as no
   handshake.
   */
  predicate Stale(report: Option<Option<nat>>, registered: Option<nat>, now: nat) {
    match report
    case None => true
    case Some(age) =>
      if age.Some? && age.value > 0 then age.value > STALE_PEER_SECS
      else registered.Some? && Elapsed(registered.value, now) > STALE_NEVER_CONNECTED_SECS
  }

  // ---------------------------------------------------------------------------
  // What is reported
  // ---------------------------------------------------------------------------

  /** The tunnel of a peer when the device printed it, and the clock it read for it. */
  datatype Sighting = Sighting(tunn: Tunn, at: nat)

  function AgeSecs(seen: Sighting): Option<nat> {
    match HandshakeAge(seen.tunn, seen.at)
    case Some(age) => Some(age / SECOND)
    case None => None
  }

  /** What is reported of a peer that the device had, or had not. */
  function Report(seen: Option<Sighting>): Option<Option<nat>> {
    match seen
    case Some(s) => Some(AgeSecs(s))
    case None => None
  }

  // --- through the control socket ---

  ghost predicate Distinct(keyBytes: Term -> seq<Byte>) {
    forall a, b {:trigger keyBytes(a), keyBytes(b)} :: keyBytes(a) == keyBytes(b) ==> a == b
  }

  /** The key as it is printed. */
  function KeyName(keyBytes: Term -> seq<Byte>, key: Term): string {
    Hex(keyBytes(key))
  }

  predicate Shows(keyBytes: Term -> seq<Byte>, key: Term, seen: Sighting, info: Uapi.PeerInfo) {
    info.key == keyBytes(key) && Uapi.HandshakeOf(info) == AgeSecs(seen)
  }

  /** The printed peers are those that were seen, in any order. */
  ghost predicate Listed(keyBytes: Term -> seq<Byte>, seen: map<Term, Sighting>, order: seq<Term>,
                         infos: seq<Uapi.PeerInfo>) {
    && |order| == |infos| && (forall k :: k in order <==> k in seen)
    && (forall i, j :: 0 <= i < j < |order| ==> order[i] != order[j])
    && (forall i :: 0 <= i < |order| ==> order[i] in seen && Shows(keyBytes, order[i], seen[order[i]], infos[i]))
  }

  /** The table that is read back reports every key as it was seen, and no other key. */
  lemma TableReports(keyBytes: Term -> seq<Byte>, seen: map<Term, Sighting>, order: seq<Term>,
                     infos: seq<Uapi.PeerInfo>, key: Term)
    requires Distinct(keyBytes) && Listed(keyBytes, seen, order, infos)
    ensures Get(Uapi.Table(infos), KeyName(keyBytes, key)) == Report(Get(seen, key))
  {
    Uapi.TableIsExact(infos);
    var table, name := Uapi.Table(infos), KeyName(keyBytes, key);
    if key in seen {
      var i :| 0 <= i < |order| && order[i] == key;
      assert Uapi.Found(table, infos[i]);
    } else if name in table {
      var i :| 0 <= i < |infos| && Uapi.HasKey(infos[i], name);
      HexInjective(keyBytes(order[i]), keyBytes(key));
      assert false;
    }
  }

  // ---------------------------------------------------------------------------
  // Recent peers that are not spared
  // ---------------------------------------------------------------------------

  /** A key that was registered after the device was asked is reaped at any age, even 0 s. */
  lemma NewcomerReaped(now: nat)
    ensures Elapsed(now, now) == 0 && Stale(Report(None), Some(now), now)
  {}

  /** The call is given a response that completes a handshake, while no session is in use. */
  predicate Completes(t: Tunn, s: Step) {
    && s.call.ReceiveVerified? && s.call.datagram.HandshakeResponse? && s.dstLen >= DATA_OVERHEAD_SZ
    && t.handshake.ReceiveResponse(s.call.datagram).1.Ok? && t.CurrentSession().None?
  }

  /** The session is then in use, and the time of its handshake is that of the last timer call or later. */
  lemma CompletionIsCurrent(t: Tunn, s: Step)
    requires Completes(t, s)
    ensures
      var t' := TunnelMoves.Apply(t, s.call, s.dstLen, s.env).0;
      t'.CurrentSession().Some? && t'.timers.At(TimeSessionEstablished) == t.timers.At(TimeCurrent)
  {}

  /**
   In every life: a peer that completes a handshake and is printed less than 1 s after the last timer call is
   reaped, if its registration is older than 600 s.
   */
  lemma JustShakenReaped(start: nat, states: seq<Tunn>, steps: seq<Step>, k: nat, at: nat, registered: nat, now: nat)
    requires IsLife(start, states, steps) && k < |steps| && Completes(states[k], steps[k])
    requires ClockAt(start, steps, k + 1) <= at < LastTimers(start, steps, k) + SECOND
    requires Elapsed(registered, now) > STALE_NEVER_CONNECTED_SECS
    ensures
      var seen := Sighting(states[k + 1], at);
      AgeSecs(seen) == Some(0) && Stale(Report(Some(seen)), Some(registered), now)
  {
    assert StepAt(states, steps, k);
    CompletionIsCurrent(states[k], steps[k]);
    AlwaysAged(start, states, steps, k);
    AgeIsBounded(start, states, steps, k + 1, at);
  }

  /** The tunnel has done nothing for 540 s or more. */
  predicate Idle(t: Tunn, env: Env) {
    && Fresh(t) && t.timers.At(TimeSessionEstablished) == 0
    && t.timers.Since(env.now) >= REJECT_AFTER_TIME * 3
  }

  /** The two are configured for each other, and the peer has seen no later timestamp. */
  predicate Expects(h: Handshake, peer: Handshake, clock: nat) {
    && Paired(h.params, peer.params) && h.params.Psk() == peer.params.Psk()
    && StampAt(clock + h.stampOffset).After(peer.lastTimestamp)
  }

  lemma NewExpires(t: Tunn, env: Env)
    requires Idle(t, env)
    ensures
      var t' := t.UpdateTimers(HANDSHAKE_INIT_SZ, env).0;
      && NoSessions(t'.sessions) && t'.current == t.current && t'.handshake.state == Expired
      && t'.handshake.params == t.handshake.params && t'.handshake.stampOffset == t.handshake.stampOffset
  {}

  lemma InitiatingShape(t: Tunn, env: Env)
    ensures
      var t' := t.FormatHandshakeInitiation(HANDSHAKE_INIT_SZ, true, env).0;
      && t'.handshake == t.handshake.FormatInitiation(env.ephemeral, env.late).0
      && t'.sessions == t.sessions && t'.current == t.current
  {}

  /** The peer's response to the initiation `initiator` sends. */
  function Response(initiator: Handshake, peer: Handshake, ephemeral: nat, clock: nat, answer: nat): Datagram {
    match peer.ReceiveInitiation(initiator.FormatInitiation(ephemeral, clock).1, answer, HANDSHAKE_INIT_SZ).1
    case Ok((d, _)) => d
    case Err(_) => Malformed
  }

  /** It completes the handshake, if the peer expects the initiation. */
  lemma ResponseCompletes(h: Handshake, peer: Handshake, ephemeral: nat, clock: nat, answer: nat)
    requires Expects(h, peer, clock)
    ensures
      var response := Response(h, peer, ephemeral, clock, answer);
      response.HandshakeResponse? && h.FormatInitiation(ephemeral, clock).0.ReceiveResponse(response).1.Ok?
  {
    InitiationAccepted(h, peer, ephemeral, clock, answer, HANDSHAKE_INIT_SZ);
    ResponseAccepted(h, peer, h.FormatInitiation(ephemeral, clock).0, ephemeral, clock, answer, HANDSHAKE_INIT_SZ);
  }

  lemma WaitingIsAnswered(t: Tunn, h: Handshake, env: Env, peer: Handshake, answer: nat) returns (s: Step)
    requires NoSessions(t.sessions) && Expects(h, peer, env.late)
    requires t.handshake == h.FormatInitiation(env.ephemeral, env.late).0
    ensures s.env == env && Completes(t, s)
  {
    ResponseCompletes(h, peer, env.ephemeral, env.late, answer);
    s := Step(ReceiveVerified(Response(h, peer, env.ephemeral, env.late, answer)), HANDSHAKE_INIT_SZ, env);
  }

  /** A timer call and an initiation. */
  predicate WakesAndInitiates(steps: seq<Step>, env: Env) {
    && |steps| == 2 && steps[0] == Step(RunTimers, HANDSHAKE_INIT_SZ, env)
    && steps[1] == Step(StartHandshake(true), HANDSHAKE_INIT_SZ, env)
  }

  lemma TwoCalls(t: Tunn, env: Env) returns (states: seq<Tunn>, steps: seq<Step>)
    ensures WakesAndInitiates(steps, env) && IsTunnelRun(states, steps) && states[0] == t
  {
    var t1 := t.UpdateTimers(HANDSHAKE_INIT_SZ, env).0;
    states := [t, t1, t1.FormatHandshakeInitiation(HANDSHAKE_INIT_SZ, true, env).0];
    steps := [Step(RunTimers, HANDSHAKE_INIT_SZ, env), Step(StartHandshake(true), HANDSHAKE_INIT_SZ, env)];
    assert StepAt(states, steps, 0) && StepAt(states, steps, 1);
  }

  /** A tunnel that was idle for 540 s or more expires. */
  lemma IdleExpires(states: seq<Tunn>, steps: seq<Step>, env: Env, peer: Handshake)
    requires WakesAndInitiates(steps, env) && IsTunnelRun(states, steps)
    requires Idle(states[0], env) && Expects(states[0].handshake, peer, env.late)
    ensures NoSessions(states[1].sessions) && Expects(states[1].handshake, peer, env.late)
  {
    assert StepAt(states, steps, 0);
    NewExpires(states[0], env);
  }

  /** Then it initiates and is answered. */
  lemma InitiatorIsAnswered(states: seq<Tunn>, steps: seq<Step>, env: Env, peer: Handshake, answer: nat)
    returns (s: Step)
    requires WakesAndInitiates(steps, env) && IsTunnelRun(states, steps)
    requires NoSessions(states[1].sessions) && Expects(states[1].handshake, peer, env.late)
    ensures s.env == env && Completes(states[2], s)
  {
    assert StepAt(states, steps, 1);
    InitiatingShape(states[1], env);
    s := WaitingIsAnswered(states[2], states[1].handshake, env, peer, answer);
  }

  lemma ShakenRun(t: Tunn, env: Env, peer: Handshake, answer: nat) returns (states: seq<Tunn>, steps: seq<Step>)
    requires Idle(t, env) && Expects(t.handshake, peer, env.late)
    ensures IsTunnelRun(states, steps) && states[0] == t && |steps| == 3 && Completes(states[2], steps[2])
    ensures WakesAndInitiates(steps[..2], env) && steps[2].env == env
  {
    states, steps := TwoCalls(t, env);
    IdleExpires(states, steps, env, peer);
    var s := InitiatorIsAnswered(states, steps, env, peer, answer);
    states := ExtendRun(states, steps, s);
    assert (steps + [s])[..2] == steps;
    steps := steps + [s];
  }

  lemma OneClockIsMonotone(start: nat, steps: seq<Step>, clock: nat)
    requires start <= clock && forall i :: 0 <= i < |steps| ==> steps[i].env.now == steps[i].env.late == clock
    ensures Monotone(start, steps)
  {}

  /**
   There is such a life, whatever the keys: a peer that shakes hands 601 s after it was made and registered is
   reaped at once.
   */
  lemma JustShakenReached(staticPrivate: nat, peer: Handshake, psk: Option<Term>, persistentKeepalive: nat,
                          index: Index32, limiter: Limiter, ownLimiter: bool, stampOffset: nat, start: nat,
                          ephemeral: nat, answer: nat)
    returns (states: seq<Tunn>, steps: seq<Step>)
    requires peer.params.peerStaticPublic == Public(staticPrivate) && peer.params.presharedKey == psk
    requires StampAt(start + 601 * SECOND + stampOffset).After(peer.lastTimestamp)
    ensures IsLife(start, states, steps) && |steps| == 3 && Completes(states[2], steps[2])
    ensures states[0] == NewTunn(staticPrivate, peer.params.StaticPublic(), psk, persistentKeepalive, index, limiter,
                                 ownLimiter, stampOffset, start)
    ensures
      var at := start + 601 * SECOND;
      ClockAt(start, steps, 3) == at && Stale(Report(Some(Sighting(states[3], at))), Some(start), at)
  {
    var at := start + 601 * SECOND;
    var t := NewTunn(staticPrivate, peer.params.StaticPublic(), psk, persistentKeepalive, index, limiter, ownLimiter,
                     stampOffset, start);
    NewIsBorn(staticPrivate, peer.params.StaticPublic(), psk, persistentKeepalive, index, limiter, ownLimiter,
              stampOffset, start);
    states, steps := ShakenRun(t, Env(at, at, ephemeral), peer, answer);
    assert steps[..2][0] == steps[0] && steps[..2][1] == steps[1];
    OneClockIsMonotone(start, steps, at);
    assert LastTimers(start, steps, 1) == at && LastTimers(start, steps, 2) == at;
    JustShakenReaped(start, states, steps, 2, at, start, at);
  }

  /**
   A handshake more than 180 s before the last timer call is forgotten, and the peer treated like one that
   never had any.
   */
  lemma ForgottenReaped(start: nat, states: seq<Tunn>, steps: seq<Step>, k: nat, at: nat, registered: nat, now: nat)
    requires IsLife(start, states, steps) && k <= |steps| && ClockAt(start, steps, k) <= at
    requires start + states[k].timers.At(TimeSessionEstablished) + REJECT_AFTER_TIME < LastTimers(start, steps, k)
    ensures Stale(Report(Some(Sighting(states[k], at))), Some(registered), now)
       <==> Elapsed(registered, now) > STALE_NEVER_CONNECTED_SECS
  {
    AgeIsBounded(start, states, steps, k, at);
  }

  // ---------------------------------------------------------------------------
  // Which peers are spared
  // ---------------------------------------------------------------------------

  /**
   A key whose handshake was at most 600 s old is spared exactly when it was 1 s old or the registration is
   recent.
   */
  lemma RecentHandshake(seen: Sighting, registered: nat, now: nat)
    requires AgeSecs(seen).Some? && AgeSecs(seen).value <= STALE_PEER_SECS
    ensures !Stale(Report(Some(seen)), Some(registered), now)
       <==> AgeSecs(seen).value >= 1 || Elapsed(registered, now) <= STALE_NEVER_CONNECTED_SECS
  {}

  /**
   The tunnel had no session in use when it was seen, or its timers ran in the 420 s before, or it was made in
   the 600 s before.
   */
  ghost predicate Attended(start: nat, states: seq<Tunn>, steps: seq<Step>, k: nat, at: nat)
    requires |states| == |steps| + 1 && k <= |steps|
  {
    || states[k].CurrentSession().None?
    || at + REJECT_AFTER_TIME <= LastTimers(start, steps, k) + STALE_PEER_SECS * SECOND
    || at <= start + STALE_PEER_SECS * SECOND
  }

  /**
   For every life of an attended tunnel: it is spared if and only if the registration is at most 600 s old, or
   the last handshake was at least 1 s ago and its session not yet dropped. So a peer registered earlier is
   only spared if it had a handshake in the 180 s before the last timer call, or after it.
   */
  lemma SparedIff(start: nat, states: seq<Tunn>, steps: seq<Step>, k: nat, at: nat, registered: nat, now: nat)
    requires IsLife(start, states, steps) && k <= |steps| && ClockAt(start, steps, k) <= at
    requires Attended(start, states, steps, k, at)
    ensures
      var age := HandshakeAge(states[k], at);
      var spared := !Stale(Report(Some(Sighting(states[k], at))), Some(registered), now);
      && (spared <==> Elapsed(registered, now) <= STALE_NEVER_CONNECTED_SECS || (age.Some? && age.value >= SECOND))
      && (spared && Elapsed(registered, now) > STALE_NEVER_CONNECTED_SECS ==>
            start + states[k].timers.At(TimeSessionEstablished) + REJECT_AFTER_TIME >= LastTimers(start, steps, k))
  {
    AgeIsBounded(start, states, steps, k, at);
  }

  /** The sighting is of the state after `k` calls of the life of an attended tunnel. */
  ghost predicate SeenIn(seen: Sighting, start: nat, states: seq<Tunn>, steps: seq<Step>, k: nat) {
    && IsLife(start, states, steps) && k <= |steps| && ClockAt(start, steps, k) <= seen.at
    && seen.tunn == states[k] && Attended(start, states, steps, k, seen.at)
  }

  /** A key registered at most 600 s ago is spared exactly when the device already had it. */
  lemma RecentRegistration(seen: Option<Sighting>, start: nat, states: seq<Tunn>, steps: seq<Step>, k: nat,
                           registered: nat, now: nat)
    requires Elapsed(registered, now) <= STALE_NEVER_CONNECTED_SECS
    requires seen.Some? ==> SeenIn(seen.value, start, states, steps, k)
    ensures !Stale(Report(seen), Some(registered), now) <==> seen.Some?
  {
    if seen.Some? {
      SparedIff(start, states, steps, k, seen.value.at, registered, now);
      assert seen.value == Sighting(states[k], seen.value.at);
    }
  }
}
