/**
 When a tunnel sends on a session. The initiator of a handshake uses its session at once; the responder is
 meant to wait for a first packet on it, which confirms that the other side has the keys. The tunnel sends
 on whatever lies in the slot of `current`, so a responder's session is used unconfirmed if and only if it
 was put into that very slot.
 */
module Confirmation {
  import opened Wrappers
  import opened Crypto
  import opened Messages
  import opened Sessions
  import opened Handshakes
  import opened RateLimiters
  import opened Tunnels
  import opened TunnelMoves
  import ReplayWindow

  function CurrentSlot(t: Tunn): nat {
    t.current % N_SESSIONS
  }

  /** The slot of the session that answering an initiation would establish. */
  function AnswerSlot(t: Tunn): nat {
    IncIndex(t.handshake.nextIndex) % N_SESSIONS
  }

  /** A move that opens a packet in the slot, or puts a session that this side initiated there. */
  predicate Confirms(m: Move, slot: nat) {
    match m
    case OpenData(idx, _, _) => idx % N_SESSIONS == slot
    case Complete(msg) => msg.HandshakeResponse? && msg.receiverIdx % N_SESSIONS == slot
    case _ => false
  }

  // ---------------------------------------------------------------------------
  // One call
  // ---------------------------------------------------------------------------

  lemma SendKeepsCurrent(t: Tunn, src: Packet, dstLen: nat, env: Env)
    ensures t.Encapsulate(src, dstLen, env).0.current == t.current
  {}

  lemma DecidingKeepsCurrent(t: Tunn, now: nat, late: nat)
    ensures t.Decide(now, late).0.current == t.current
  {}

  lemma TimersKeepCurrent(t: Tunn, dstLen: nat, env: Env)
    ensures t.UpdateTimers(dstLen, env).0.current == t.current
    ensures var m := MoveOf(t, RunTimers, env); m.SealData? ==> m.slot == CurrentSlot(t)
  {
    var awake, now := t.Awake(env), t.timers.Since(env.now);
    if !awake.handshake.IsExpired() {
      var t' := awake.DropOldCookie(now).Decide(now, env.late).0;
      DecidingKeepsCurrent(awake.DropOldCookie(now), now, env.late);
      SendKeepsCurrent(t', [], dstLen, env);
    }
  }

  lemma ReceivingMovesCurrent(t: Tunn, d: Datagram, dstLen: nat, env: Env)
    requires dstLen >= HANDSHAKE_INIT_SZ
    ensures
      var t', m := t.HandleVerifiedPacket(d, dstLen, env).0, ReceiveMove(t, d, env);
      CurrentSlot(t') != CurrentSlot(t) ==> Confirms(m, CurrentSlot(t'))
  {}

  /** The slot in use changes only to one that the call confirms; what is sealed is sealed in the slot in use. */
  lemma CurrentMoves(t: Tunn, call: Call, dstLen: nat, env: Env)
    requires Roomy(t, call, dstLen)
    ensures
      var t', m := TunnelMoves.Apply(t, call, dstLen, env).0, MoveOf(t, call, env);
      && (CurrentSlot(t') != CurrentSlot(t) ==> Confirms(m, CurrentSlot(t')))
      && (m.SealData? ==> m.slot == CurrentSlot(t))
  {
    match call
    case Send(src) => SendKeepsCurrent(t, src, dstLen, env);
    case Flush =>
      if t.queue != [] {
        SendKeepsCurrent(t.(queue := t.queue[1..]), t.queue[0], dstLen, env);
      }
    case Receive(addr, d) =>
      var t0 := t.(limiter := t.limiter.VerifyPacket(addr, d, env.now).0);
      ReceivingMovesCurrent(t0, d, dstLen, env);
      assert ReceiveMove(t0, d, env) == ReceiveMove(t, d, env);
    case ReceiveVerified(d) => ReceivingMovesCurrent(t, d, dstLen, env);
    case RunTimers => TimersKeepCurrent(t, dstLen, env);
    case StartHandshake(_) =>
  }

  /** The call answers an initiation, with a session in this slot. */
  predicate AnswersInto(t: Tunn, s: Step, slot: nat) {
    MoveOf(t, s.call, s.env).Respond? && AnswerSlot(t) == slot
  }

  /** The call neither confirms the session in the slot nor puts another one there. */
  predicate LeavesWaiting(t: Tunn, s: Step, slot: nat) {
    !Confirms(MoveOf(t, s.call, s.env), slot) && !AnswersInto(t, s, slot)
  }

  /** A session under which nothing was received yet, with the index that this tunnel issued last. */
  predicate Unheard(s: Session, index: Index32) {
    s.receivingIndex == index && s.window == ReplayWindow.EmptyWindow
  }

  /** From `t` to `t'` a session was stored in the slot, and the slot in use was not changed to it. */
  predicate Started(t: Tunn, t': Tunn, slot: nat) {
    && slot < N_SESSIONS && t'.sessions[slot].Some? && Unheard(t'.sessions[slot].value, t'.handshake.nextIndex)
    && (CurrentSlot(t') == slot ==> CurrentSlot(t) == slot)
  }

  lemma AnsweringStarts(t: Tunn, s: Step, t': Tunn, slot: nat)
    requires Roomy(t, s.call, s.dstLen) && t' == TunnelMoves.Apply(t, s.call, s.dstLen, s.env).0
    requires AnswersInto(t, s, slot)
    ensures Started(t, t', slot)
  {
    CallIsMove(t, s.call, s.dstLen, s.env);
    CurrentMoves(t, s.call, s.dstLen, s.env);
    RespondEffect(Before(t, s.call, s.env), MoveOf(t, s.call, s.env));
  }

  /** Of a session that is left waiting only the send counter moves, and only if the call seals in its slot. */
  lemma MoveLeavesWaiting(c: Core, m: Move, slot: nat)
    requires Enabled(c, m) && slot < N_SESSIONS && !Confirms(m, slot)
    requires m.Respond? ==> IncIndex(c.handshake.nextIndex) % N_SESSIONS != slot
    ensures
      var s, s' := c.ring[slot], Perform(c, m).0.ring[slot];
      && (s'.Some? ==> s.Some? && s'.value == s.value.(sendCounter := s'.value.sendCounter))
      && (s'.Some? && s'.value.sendCounter != s.value.sendCounter ==> m.SealData? && m.slot == slot)
  {
    match m
    case Respond(_, _) => RespondEffect(c, m);
    case Complete(_) => CompleteEffect(c, m);
    case _ =>
  }

  /** The call seals a packet on the session in the slot. */
  predicate SealsIn(t: Tunn, t': Tunn, slot: nat) {
    && slot < N_SESSIONS && t.sessions[slot].Some? && t'.sessions[slot].Some?
    && t'.sessions[slot].value.sendCounter != t.sessions[slot].value.sendCounter
  }

  /** From `t` to `t'` only the send counter in the slot moved, if at all, and only if the slot is in use. */
  predicate Kept(t: Tunn, t': Tunn, slot: nat) {
    && slot < N_SESSIONS
    && (t'.sessions[slot].Some? ==>
          && t.sessions[slot].Some?
          && t'.sessions[slot].value == t.sessions[slot].value.(sendCounter := t'.sessions[slot].value.sendCounter))
    && (SealsIn(t, t', slot) || CurrentSlot(t') == slot ==> CurrentSlot(t) == slot)
  }

  lemma WaitingKeeps(t: Tunn, s: Step, t': Tunn, slot: nat)
    requires Roomy(t, s.call, s.dstLen) && t' == TunnelMoves.Apply(t, s.call, s.dstLen, s.env).0
    requires slot < N_SESSIONS && LeavesWaiting(t, s, slot)
    ensures Kept(t, t', slot)
  {
    CallIsMove(t, s.call, s.dstLen, s.env);
    CurrentMoves(t, s.call, s.dstLen, s.env);
    MoveLeavesWaiting(Before(t, s.call, s.env), MoveOf(t, s.call, s.env), slot);
  }

  lemma SendSeals(t: Tunn, src: Packet, dstLen: nat, env: Env)
    requires Roomy(t, Send(src), dstLen) && t.CurrentSession().Some?
    ensures SealsIn(t, t.Encapsulate(src, dstLen, env).0, CurrentSlot(t))
  {}

  // ---------------------------------------------------------------------------
  // Chains of states
  // ---------------------------------------------------------------------------

  /** The session was stored on the way to state `j + 1` and kept up to state `k`. */
  ghost predicate Chained(states: seq<Tunn>, j: nat, k: nat, slot: nat) {
    && j < k < |states| && Started(states[j], states[j + 1], slot)
    && forall i :: j < i < k ==> Kept(states[i], states[i + 1], slot)
  }

  /** The slot is in use in state `k` and has been since state `j`. */
  ghost predicate InUse(states: seq<Tunn>, j: nat, k: nat, slot: nat) {
    j <= k < |states| && forall i :: j <= i <= k ==> CurrentSlot(states[i]) == slot
  }

  lemma {:induction false} ChainKeeps(states: seq<Tunn>, j: nat, k: nat, slot: nat)
    requires Chained(states, j, k, slot)
    ensures states[k].sessions[slot].Some? ==>
      Unheard(states[k].sessions[slot].value, states[j + 1].handshake.nextIndex)
    ensures CurrentSlot(states[k]) == slot ==> InUse(states, j, k, slot)
    decreases k
  {
    if k > j + 1 {
      ChainKeeps(states, j, k - 1, slot);
      assert Kept(states[k - 1], states[k - 1 + 1], slot);
    }
  }

  // ---------------------------------------------------------------------------
  // Runs
  // ---------------------------------------------------------------------------

  predicate AnswersAt(states: seq<Tunn>, steps: seq<Step>, j: nat, slot: nat)
    requires j < |steps| && |states| == |steps| + 1
  {
    slot < N_SESSIONS && AnswersInto(states[j], steps[j], slot)
  }

  predicate LeavesWaitingAt(states: seq<Tunn>, steps: seq<Step>, i: nat, slot: nat)
    requires i < |steps| && |states| == |steps| + 1
  {
    slot < N_SESSIONS && LeavesWaiting(states[i], steps[i], slot)
  }

  /** Call `j` answered an initiation into the slot, and nothing since then confirmed or replaced that session. */
  ghost predicate Unconfirmed(states: seq<Tunn>, steps: seq<Step>, j: nat, k: nat, slot: nat)
    requires |states| == |steps| + 1
  {
    && j < k <= |steps| && AnswersAt(states, steps, j, slot)
    && forall i :: j < i < k ==> LeavesWaitingAt(states, steps, i, slot)
  }

  lemma StepStarts(states: seq<Tunn>, steps: seq<Step>, j: nat, slot: nat)
    requires IsTunnelRun(states, steps) && WithRoom(states, steps) && j < |steps| && AnswersAt(states, steps, j, slot)
    ensures Started(states[j], states[j + 1], slot) && slot == AnswerSlot(states[j])
  {
    assert StepAt(states, steps, j) && RoomAt(states, steps, j);
    AnsweringStarts(states[j], steps[j], states[j + 1], slot);
  }

  lemma StepKeeps(states: seq<Tunn>, steps: seq<Step>, i: nat, slot: nat)
    requires IsTunnelRun(states, steps) && WithRoom(states, steps) && i < |steps|
    requires LeavesWaitingAt(states, steps, i, slot)
    ensures Kept(states[i], states[i + 1], slot)
  {
    assert StepAt(states, steps, i) && RoomAt(states, steps, i);
    WaitingKeeps(states[i], steps[i], states[i + 1], slot);
  }

  lemma RunIsChained(states: seq<Tunn>, steps: seq<Step>, j: nat, k: nat, slot: nat)
    requires IsTunnelRun(states, steps) && WithRoom(states, steps) && Unconfirmed(states, steps, j, k, slot)
    ensures Chained(states, j, k, slot)
  {
    StepStarts(states, steps, j, slot);
    forall i | j < i < k
      ensures Kept(states[i], states[i + 1], slot)
    {
      StepKeeps(states, steps, i, slot);
    }
  }

  /** The session in the slot is then the one of call `j`, and nothing was received on it. */
  lemma UnconfirmedSession(states: seq<Tunn>, steps: seq<Step>, j: nat, k: nat, slot: nat)
    requires IsTunnelRun(states, steps) && WithRoom(states, steps) && Unconfirmed(states, steps, j, k, slot)
    requires states[k].sessions[slot].Some?
    ensures Unheard(states[k].sessions[slot].value, states[j + 1].handshake.nextIndex)
  {
    RunIsChained(states, steps, j, k, slot);
    ChainKeeps(states, j, k, slot);
  }

  /** An offered packet goes out on the session in use. */
  lemma StepSeals(states: seq<Tunn>, steps: seq<Step>, k: nat)
    requires IsTunnelRun(states, steps) && WithRoom(states, steps) && k < |steps|
    requires steps[k].call.Send? && states[k].CurrentSession().Some?
    ensures SealsIn(states[k], states[k + 1], CurrentSlot(states[k]))
  {
    assert StepAt(states, steps, k) && RoomAt(states, steps, k);
    SendSeals(states[k], steps[k].call.src, steps[k].dstLen, steps[k].env);
  }

  /**
   In every run: a call seals on a responder's session that no packet has confirmed only if the session was
   stored in the slot of `current`, and `current` has not moved to another slot since; and then every packet
   that is offered goes out on it.
   */
  lemma UnconfirmedUse(states: seq<Tunn>, steps: seq<Step>, j: nat, k: nat, slot: nat)
    requires IsTunnelRun(states, steps) && WithRoom(states, steps) && Unconfirmed(states, steps, j, k, slot)
    requires k < |steps| && states[k].sessions[slot].Some? && LeavesWaitingAt(states, steps, k, slot)
    ensures SealsIn(states[k], states[k + 1], slot) ==> InUse(states, j, k, slot)
    ensures steps[k].call.Send? ==> (SealsIn(states[k], states[k + 1], slot) <==> InUse(states, j, k, slot))
    ensures InUse(states, j, k, slot) ==> AnswerSlot(states[j]) == CurrentSlot(states[j])
  {
    RunIsChained(states, steps, j, k, slot);
    ChainKeeps(states, j, k, slot);
    StepStarts(states, steps, j, slot);
    StepKeeps(states, steps, k, slot);
    if steps[k].call.Send? && CurrentSlot(states[k]) == slot {
      StepSeals(states, steps, k);
    }
  }

  // ---------------------------------------------------------------------------
  // A session that is used unconfirmed
  // ---------------------------------------------------------------------------

  /** Call `k` is a packet that goes out on the session with which call `j` answered, before anything confirmed it. */
  ghost predicate UsedUnconfirmed(states: seq<Tunn>, steps: seq<Step>, j: nat, k: nat, slot: nat) {
    && IsTunnelRun(states, steps) && WithRoom(states, steps) && k < |steps| && steps[k].call.Send?
    && Unconfirmed(states, steps, j, k, slot) && InUse(states, j, k, slot)
    && SealsIn(states[k], states[k + 1], slot)
  }

  /** An initiation that the tunnel accepts is answered. */
  lemma AcceptedIsAnswered(t: Tunn, msg: Datagram, env: Env)
    requires msg.HandshakeInit? && t.handshake.ReceiveInitiation(msg, env.ephemeral, HANDSHAKE_INIT_SZ).1.Ok?
    ensures AnswersInto(t, Step(ReceiveVerified(msg), HANDSHAKE_INIT_SZ, env), AnswerSlot(t))
  {}

  lemma AnsweringKeepsCurrent(t: Tunn, s: Step)
    requires Roomy(t, s.call, s.dstLen) && AnswersInto(t, s, AnswerSlot(t))
    ensures CurrentSlot(TunnelMoves.Apply(t, s.call, s.dstLen, s.env).0) == CurrentSlot(t)
  {
    CurrentMoves(t, s.call, s.dstLen, s.env);
  }

  /**
   After any run: if the next answer goes into the slot in use, then answering an initiation that the tunnel
   accepts and sending a packet uses the new session unconfirmed.
   */
  lemma AnswerIsUsedAtOnce(states: seq<Tunn>, steps: seq<Step>, msg: Datagram, src: Packet, env: Env)
    returns (states': seq<Tunn>, steps': seq<Step>)
    requires IsTunnelRun(states, steps) && WithRoom(states, steps)
    requires AnswerSlot(states[|steps|]) == CurrentSlot(states[|steps|]) && msg.HandshakeInit?
    requires states[|steps|].handshake.ReceiveInitiation(msg, env.ephemeral, HANDSHAKE_INIT_SZ).1.Ok?
    ensures states <= states' && steps <= steps' && |steps'| == |steps| + 2
    ensures steps'[|steps|].call == ReceiveVerified(msg) && steps'[|steps| + 1].call == Send(src)
    ensures UsedUnconfirmed(states', steps', |steps|, |steps| + 1, CurrentSlot(states[|steps|]))
  {
    var n := |steps|;
    var states1, steps1 := AnswerNext(states, steps, msg, env);
    states', steps' := Continue(states1, steps1, Step(Send(src), HANDSHAKE_INIT_SZ + |src|, env));
    StillAnswers(states1, steps1, states', steps', n, CurrentSlot(states[n]));
    SendFollowsAnswer(states', steps', n, CurrentSlot(states[n]));
  }

  lemma AnswerNext(states: seq<Tunn>, steps: seq<Step>, msg: Datagram, env: Env)
    returns (states': seq<Tunn>, steps': seq<Step>)
    requires IsTunnelRun(states, steps) && WithRoom(states, steps)
    requires AnswerSlot(states[|steps|]) == CurrentSlot(states[|steps|]) && msg.HandshakeInit?
    requires states[|steps|].handshake.ReceiveInitiation(msg, env.ephemeral, HANDSHAKE_INIT_SZ).1.Ok?
    ensures IsTunnelRun(states', steps') && WithRoom(states', steps')
    ensures steps' == steps + [Step(ReceiveVerified(msg), HANDSHAKE_INIT_SZ, env)]
    ensures |states'| == |states| + 1 && states <= states'
    ensures AnswersAt(states', steps', |steps|, CurrentSlot(states[|steps|]))
    ensures CurrentSlot(states'[|steps| + 1]) == CurrentSlot(states[|steps|])
  {
    var answer := Step(ReceiveVerified(msg), HANDSHAKE_INIT_SZ, env);
    AcceptedIsAnswered(states[|steps|], msg, env);
    AnsweringKeepsCurrent(states[|steps|], answer);
    states', steps' := Continue(states, steps, answer);
  }

  lemma StillAnswers(states: seq<Tunn>, steps: seq<Step>, states': seq<Tunn>, steps': seq<Step>, j: nat, slot: nat)
    requires |states| == |steps| + 1 && |states'| == |steps'| + 1 && states <= states' && steps <= steps'
    requires j < |steps| && AnswersAt(states, steps, j, slot)
    ensures AnswersAt(states', steps', j, slot)
  {}

  lemma SendFollowsAnswer(states: seq<Tunn>, steps: seq<Step>, j: nat, slot: nat)
    requires IsTunnelRun(states, steps) && WithRoom(states, steps) && j + 1 < |steps| && steps[j + 1].call.Send?
    requires AnswersAt(states, steps, j, slot) && slot == CurrentSlot(states[j]) == CurrentSlot(states[j + 1])
    ensures UsedUnconfirmed(states, steps, j, j + 1, slot)
  {
    StepStarts(states, steps, j, slot);
    StepSeals(states, steps, j + 1);
  }

  /** One more call with a documented buffer. */
  lemma Continue(states: seq<Tunn>, steps: seq<Step>, s: Step) returns (states': seq<Tunn>, steps': seq<Step>)
    requires IsTunnelRun(states, steps) && WithRoom(states, steps) && Roomy(states[|steps|], s.call, s.dstLen)
    ensures IsTunnelRun(states', steps') && WithRoom(states', steps')
    ensures steps' == steps + [s] && |states'| == |states| + 1 && states <= states'
    ensures states'[|steps| + 1] == TunnelMoves.Apply(states[|steps|], s.call, s.dstLen, s.env).0
  {
    states' := ExtendRun(states, steps, s);
    steps' := steps + [s];
    assert StepAt(states', steps', |steps|);
    forall i | 0 <= i < |steps'|
      ensures RoomAt(states', steps', i)
    {
      if i < |steps| {
        assert RoomAt(states, steps, i);
      }
    }
  }

  // --- such a state is reached ---

  lemma InitiatingIssues(t: Tunn, env: Env)
    ensures
      var t' := t.FormatHandshakeInitiation(HANDSHAKE_INIT_SZ, true, env).0;
      && t'.current == t.current && t'.handshake.nextIndex == IncIndex(t.handshake.nextIndex)
      && t'.handshake.params == t.handshake.params && t'.handshake.lastTimestamp == t.handshake.lastTimestamp
  {}

  /** Initiations that nobody answers move the index on, and nothing else that an answer depends on. */
  lemma {:induction false} InitiatingRun(t: Tunn, n: nat, clock: nat) returns (states: seq<Tunn>, steps: seq<Step>)
    requires t.handshake.nextIndex % 256 == 0 && n < 256
    ensures IsTunnelRun(states, steps) && WithRoom(states, steps) && |steps| == n && states[0] == t
    ensures forall i :: 0 <= i < n ==> steps[i] == Step(StartHandshake(true), HANDSHAKE_INIT_SZ, Env(clock, clock, i))
    ensures
      var t' := states[n];
      && t'.current == t.current && t'.handshake.nextIndex == t.handshake.nextIndex + n
      && t'.handshake.params == t.handshake.params && t'.handshake.lastTimestamp == t.handshake.lastTimestamp
    decreases n
  {
    if n == 0 {
      states, steps := [t], [];
    } else {
      states, steps := InitiatingRun(t, n - 1, clock);
      var env := Env(clock, clock, n - 1);
      InitiatingIssues(states[n - 1], env);
      states, steps := Continue(states, steps, Step(StartHandshake(true), HANDSHAKE_INIT_SZ, env));
    }
  }

  /** A new tunnel uses slot 0, and seven indices later an answer goes there. */
  lemma SlotsMeet(t: Tunn)
    requires t.current == 0 && t.handshake.nextIndex % 256 == 7
    ensures AnswerSlot(t) == CurrentSlot(t) == 0
  {}

  /**
   Whatever its keys and those of its peer: a new tunnel that sends seven initiations in vain, answers an
   initiation of the peer and sends a packet, sends it on a session that nothing has confirmed.
   */
  lemma UnconfirmedReached(staticPrivate: nat, peer: Handshake, psk: Option<Term>, persistentKeepalive: nat,
                           index: Index32, limiter: Limiter, ownLimiter: bool, stampOffset: nat, clock: nat,
                           ephemeral: nat, src: Packet)
    returns (states: seq<Tunn>, steps: seq<Step>)
    requires peer.params.peerStaticPublic == Public(staticPrivate)
    ensures |states| == 10 && |steps| == 9
    ensures states[0] == NewTunn(staticPrivate, peer.params.StaticPublic(), psk, persistentKeepalive, index, limiter,
                                 ownLimiter, stampOffset, clock)
    ensures steps[7].call == ReceiveVerified(peer.FormatInitiation(ephemeral, clock).1) && steps[8].call == Send(src)
    ensures UsedUnconfirmed(states, steps, 7, 8, 0)
  {
    var t := NewTunn(staticPrivate, peer.params.StaticPublic(), psk, persistentKeepalive, index, limiter, ownLimiter,
                     stampOffset, clock);
    ShiftedIndex(index);
    states, steps := InitiatingRun(t, 7, clock);
    SlotsMeet(states[7]);
    var env := Env(clock, clock, 7);
    InitiationAccepted(peer, states[7].handshake, ephemeral, clock, env.ephemeral, HANDSHAKE_INIT_SZ);
    states, steps := AnswerIsUsedAtOnce(states, steps, peer.FormatInitiation(ephemeral, clock).1, src, env);
  }

  lemma ShiftedIndex(index: Index32)
    ensures index * 256 % U32 % 256 == 0
  {
    assert index * 256 % U32 == 256 * (index % 0x100_0000);
  }
}
