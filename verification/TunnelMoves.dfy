/**
 Every call on a tunnel, seen from the handshake and the session ring only: first some sessions and
 perhaps the cookie are dropped, then one move of a small vocabulary is made. The invariants of the
 ring and of two tunnels on a network are proved move by move.
 */
module TunnelMoves {
  import opened Wrappers
  import opened Crypto
  import opened Messages
  import opened Sessions
  import opened Handshakes
  import opened Tunnels
  import ReplayWindow

  // ---------------------------------------------------------------------------
  // Calls
  // ---------------------------------------------------------------------------

  datatype Call =
    | Send(src: Packet)
    | Receive(addr: Option<IpAddr>, datagram: Datagram)
    | ReceiveVerified(datagram: Datagram)
    | Flush
    | RunTimers
    | StartHandshake(force: bool)

  function Apply(t: Tunn, call: Call, dstLen: nat, env: Env): (Tunn, TunnResult) {
    match call
    case Send(src) => t.Encapsulate(src, dstLen, env)
    case Receive(addr, datagram) => t.Decapsulate(addr, datagram, dstLen, env)
    case ReceiveVerified(datagram) => t.HandleVerifiedPacket(datagram, dstLen, env)
    case Flush => t.SendQueued(dstLen, env)
    case RunTimers => t.UpdateTimers(dstLen, env)
    case StartHandshake(force) => t.FormatHandshakeInitiation(dstLen, force, env)
  }

  /** The buffer is as long as the documentation of the calls asks for. */
  predicate Roomy(t: Tunn, call: Call, dstLen: nat) {
    && dstLen >= HANDSHAKE_INIT_SZ
    && (call.Send? ==> dstLen >= |call.src| + DATA_OVERHEAD_SZ)
    && (call.Flush? && t.queue != [] ==> dstLen >= |t.queue[0]| + DATA_OVERHEAD_SZ)
  }

  /** With such a buffer no call aborts. */
  lemma NeverPanics(t: Tunn, call: Call, dstLen: nat, env: Env)
    requires Roomy(t, call, dstLen)
    ensures !Apply(t, call, dstLen, env).1.Panicked?
  {}

  // ---------------------------------------------------------------------------
  // Runs of one tunnel
  // ---------------------------------------------------------------------------

  datatype Step = Step(call: Call, dstLen: nat, env: Env)

  predicate StepAt(states: seq<Tunn>, steps: seq<Step>, i: nat)
    requires i < |steps| && |states| == |steps| + 1
  {
    states[i + 1] == Apply(states[i], steps[i].call, steps[i].dstLen, steps[i].env).0
  }

  /** The states before, between and after the calls of one tunnel. */
  ghost predicate IsTunnelRun(states: seq<Tunn>, steps: seq<Step>) {
    && |states| == |steps| + 1
    && forall i :: 0 <= i < |steps| ==> StepAt(states, steps, i)
  }

  /** A run can go on with any call. */
  lemma ExtendRun(states: seq<Tunn>, steps: seq<Step>, s: Step) returns (states': seq<Tunn>)
    requires IsTunnelRun(states, steps)
    ensures IsTunnelRun(states', steps + [s]) && states <= states'
  {
    states' := states + [Apply(states[|steps|], s.call, s.dstLen, s.env).0];
    forall i | 0 <= i < |steps + [s]|
      ensures StepAt(states', steps + [s], i)
    {
      if i < |steps| {
        assert StepAt(states, steps, i);
      }
    }
  }

  predicate AnswerAt(states: seq<Tunn>, steps: seq<Step>, results: seq<TunnResult>, i: nat)
    requires i < |steps| == |results| && |states| == |steps| + 1
  {
    results[i] == Apply(states[i], steps[i].call, steps[i].dstLen, steps[i].env).1
  }

  /** A run together with what its calls returned. */
  ghost predicate IsAnsweredRun(states: seq<Tunn>, steps: seq<Step>, results: seq<TunnResult>) {
    && IsTunnelRun(states, steps) && |results| == |steps|
    && forall i :: 0 <= i < |steps| ==> AnswerAt(states, steps, results, i)
  }

  predicate RoomAt(states: seq<Tunn>, steps: seq<Step>, i: nat)
    requires i < |steps| && |states| == |steps| + 1
  {
    Roomy(states[i], steps[i].call, steps[i].dstLen)
  }

  /** All calls have documented buffers. */
  ghost predicate WithRoom(states: seq<Tunn>, steps: seq<Step>)
    requires |states| == |steps| + 1
  {
    forall i :: 0 <= i < |steps| ==> RoomAt(states, steps, i)
  }

  predicate NoSessions(ring: Ring) {
    forall i :: 0 <= i < N_SESSIONS ==> ring[i] == None
  }

  /** No handshake was ever started and no session established. */
  predicate Fresh(t: Tunn) {
    t.handshake.state == NoHandshake && t.handshake.previous == NoHandshake && NoSessions(t.sessions)
  }

  // ---------------------------------------------------------------------------
  // Moves
  // ---------------------------------------------------------------------------

  datatype Core = Core(handshake: Handshake, ring: Ring)

  function CoreOf(t: Tunn): Core {
    Core(t.handshake, t.sessions)
  }

  datatype Move =
    | Rest
    | GiveUpAll
    | Initiate(ephemeral: nat, now: nat)
    | Respond(msg: Datagram, ephemeral: nat)
    | Complete(msg: Datagram)
    | SealData(slot: nat, src: Packet)
    | OpenData(receiverIdx: Index32, counter: ReplayWindow.Counter, cipher: Term)

  /** The move can be made: the message is one the handshake accepts, the slot holds a session, the packet opens. */
  predicate Enabled(c: Core, m: Move) {
    match m
    case Rest => true
    case GiveUpAll => true
    case Initiate(_, _) => true
    case Respond(msg, ephemeral) =>
      msg.HandshakeInit? && c.handshake.ReceiveInitiation(msg, ephemeral, HANDSHAKE_INIT_SZ).1.Ok?
    case Complete(msg) => msg.HandshakeResponse? && c.handshake.ReceiveResponse(msg).1.Ok?
    case SealData(slot, _) => slot < N_SESSIONS && c.ring[slot].Some?
    case OpenData(idx, counter, cipher) =>
      c.ring[idx % N_SESSIONS].Some? && c.ring[idx % N_SESSIONS].value.ReceivePacketData(idx, counter, cipher).Ok?
  }

  /** The state after a move, and the datagram it sends. */
  function Perform(c: Core, m: Move): (Core, Option<Datagram>)
    requires Enabled(c, m)
  {
    match m
    case Rest => (c, None)
    case GiveUpAll => (Core(c.handshake.SetExpired(), seq(N_SESSIONS, _ => None)), None)
    case Initiate(ephemeral, now) => var (c', d) := Initiating(c, ephemeral, now); (c', Some(d))
    case Respond(msg, ephemeral) => var (c', d) := Responding(c, msg, ephemeral); (c', Some(d))
    case Complete(msg) => var (c', d) := Completing(c, msg); (c', Some(d))
    case SealData(slot, src) => var (c', d) := Sealing(c, slot, src); (c', Some(d))
    case OpenData(idx, counter, cipher) => (Opening(c, idx, counter, cipher), None)
  }

  function Initiating(c: Core, ephemeral: nat, now: nat): (Core, Datagram) {
    var (h, d) := c.handshake.FormatInitiation(ephemeral, now);
    (c.(handshake := h), d)
  }

  function Responding(c: Core, msg: Datagram, ephemeral: nat): (Core, Datagram)
    requires Enabled(c, Respond(msg, ephemeral))
  {
    var (h, r) := c.handshake.ReceiveInitiation(msg, ephemeral, HANDSHAKE_INIT_SZ);
    (Core(h, Stored(c.ring, r.value.1)), r.value.0)
  }

  function Completing(c: Core, msg: Datagram): (Core, Datagram)
    requires Enabled(c, Complete(msg))
  {
    var (h, r) := c.handshake.ReceiveResponse(msg);
    var (session, keepalive) := r.value.FormatPacketData([]);
    (Core(h, Stored(c.ring, session)), keepalive)
  }

  function Sealing(c: Core, slot: nat, src: Packet): (Core, Datagram)
    requires Enabled(c, SealData(slot, src))
  {
    var (session, d) := c.ring[slot].value.FormatPacketData(src);
    (c.(ring := c.ring[slot := Some(session)]), d)
  }

  function Opening(c: Core, idx: Index32, counter: ReplayWindow.Counter, cipher: Term): Core
    requires Enabled(c, OpenData(idx, counter, cipher))
  {
    var session := c.ring[idx % N_SESSIONS].value.ReceivePacketData(idx, counter, cipher).value.0;
    c.(ring := c.ring[idx % N_SESSIONS := Some(session)])
  }

  /** From `c` to `c'` an index was issued and a session stored under it. */
  predicate Responded(c: Core, c': Core) {
    var index := IncIndex(c.handshake.nextIndex);
    && c'.handshake.nextIndex == index
    && c'.handshake.previous == c.handshake.state && c'.handshake.state == NoHandshake
    && c'.ring[index % N_SESSIONS].Some?
    && c'.ring[index % N_SESSIONS].value.receivingIndex == index
    && c'.ring[index % N_SESSIONS].value.window == ReplayWindow.EmptyWindow
    && c'.ring == c.ring[index % N_SESSIONS := c'.ring[index % N_SESSIONS]]
  }

  /** Answering an initiation issues an index and stores a session under it. */
  lemma RespondEffect(c: Core, m: Move)
    requires Enabled(c, m) && m.Respond?
    ensures Responded(c, Perform(c, m).0)
  {}

  /** From `c` to `c'` the initiation with this index was completed and a session stored under the index. */
  predicate Completed(c: Core, c': Core, index: Index32) {
    && c'.handshake.nextIndex == c.handshake.nextIndex
    && c'.ring[index % N_SESSIONS].Some?
    && c'.ring[index % N_SESSIONS].value.receivingIndex == index
    && c'.ring == c.ring[index % N_SESSIONS := c'.ring[index % N_SESSIONS]]
    && if c.handshake.state.InitSent? && c.handshake.state.sent.localIndex == index
       then c'.handshake.state == NoHandshake && c'.handshake.previous == c.handshake.previous
       else && c.handshake.previous.InitSent? && c.handshake.previous.sent.localIndex == index
            && c'.handshake.previous == NoHandshake && c'.handshake.state == c.handshake.state
  }

  /** A response completes the initiation it answers and stores a session under that initiation's index. */
  lemma CompleteEffect(c: Core, m: Move)
    requires Enabled(c, m) && m.Complete?
    ensures Completed(c, Perform(c, m).0, m.msg.receiverIdx)
  {}

  /** The moves that establish no session, on the handshake. */
  lemma OtherEffect(c: Core, m: Move)
    requires Enabled(c, m) && !m.Respond? && !m.Complete?
    ensures
      var (h, h') := (c.handshake, Perform(c, m).0.handshake);
      if m.Initiate? then
        && h'.nextIndex == IncIndex(h.nextIndex) && h'.previous == h.state
        && h'.state.InitSent? && h'.state.sent.localIndex == h'.nextIndex
      else if m.GiveUpAll? then h' == h.SetExpired()
      else h' == h
  {}

  function Stored(ring: Ring, session: Session): Ring {
    ring[session.receivingIndex % N_SESSIONS := Some(session)]
  }

  /** Some sessions may be gone and the cookie may be another; everything else is as before. */
  predicate Dropped(c: Core, c0: Core) {
    && c0.handshake == c.handshake.(cookies := c0.handshake.cookies)
    && forall i :: 0 <= i < N_SESSIONS ==> c0.ring[i] == None || c0.ring[i] == c.ring[i]
  }

  /** The move that a call makes. */
  function MoveOf(t: Tunn, call: Call, env: Env): Move {
    match call
    case Send(src) => SendMove(t, src, env)
    case Receive(addr, datagram) =>
      if t.limiter.VerifyPacket(addr, datagram, env.now).1.Passed? then ReceiveMove(t, datagram, env) else Rest
    case ReceiveVerified(datagram) => ReceiveMove(t, datagram, env)
    case Flush => if t.queue == [] then Rest else SendMove(t, t.queue[0], env)
    case RunTimers =>
      var awake := t.Awake(env);
      if awake.handshake.IsExpired() then Rest
      else
        var now := t.timers.Since(env.now);
        var (t', decision) := awake.DropOldCookie(now).Decide(now, env.late);
        (match decision
         case GiveUp => GiveUpAll
         case Initiate => Move.Initiate(env.ephemeral, env.late)
         case Keepalive => SendMove(t', [], env)
         case Nothing => Rest)
    case StartHandshake(force) =>
      if t.handshake.IsInProgress() && !force then Rest else Move.Initiate(env.ephemeral, env.late)
  }

  function SendMove(t: Tunn, src: Packet, env: Env): Move {
    if t.CurrentSession().Some? then SealData(t.current % N_SESSIONS, src)
    else if t.handshake.IsInProgress() then Rest
    else Move.Initiate(env.ephemeral, env.late)
  }

  function ReceiveMove(t: Tunn, d: Datagram, env: Env): Move {
    match d
    case HandshakeInit(_, _, _, _, _, _) =>
      if t.handshake.ReceiveInitiation(d, env.ephemeral, HANDSHAKE_INIT_SZ).1.Ok?
      then Respond(d, env.ephemeral)
      else Rest
    case HandshakeResponse(_, _, _, _, _, _) =>
      if t.handshake.ReceiveResponse(d).1.Ok? then Complete(d) else Rest
    case CookieReply(_, _, _) => Rest
    case Data(idx, counter, cipher) =>
      var session := t.sessions[idx % N_SESSIONS];
      if session.Some? && session.value.ReceivePacketData(idx, counter, cipher).Ok?
      then OpenData(idx, counter, cipher)
      else Rest
    case Malformed => Rest
  }

  /** The tunnel as it is when the move of a call begins. */
  function Before(t: Tunn, call: Call, env: Env): Core {
    match call
    case RunTimers =>
      var awake := t.Awake(env);
      CoreOf(if awake.handshake.IsExpired() then awake else awake.DropOldCookie(t.timers.Since(env.now)))
    case Receive(addr, datagram) =>
      if datagram.CookieReply? then Core(Apply(t, call, HANDSHAKE_INIT_SZ, env).0.handshake, t.sessions) else CoreOf(t)
    case ReceiveVerified(datagram) =>
      if datagram.CookieReply? then Core(t.HandleCookieReply(datagram).0.handshake, t.sessions) else CoreOf(t)
    case _ => CoreOf(t)
  }

  // ---------------------------------------------------------------------------
  // Every call is one move
  // ---------------------------------------------------------------------------

  /** What is asked of the caller agrees with the move that was made. */
  predicate Reports(c: Core, m: Move, r: TunnResult)
    requires Enabled(c, m)
  {
    && (r.WriteToNetwork? ==> Perform(c, m).1 == Some(r.datagram) || (m.Rest? && r.datagram.CookieReply?))
    && (r.WriteToTunnel? ==> m.OpenData? && HandsUp(c, m, r))
    && (Perform(c, m).1.Some? ==> r == WriteToNetwork(Perform(c, m).1.value))
  }

  /** `packet` is the prefix of `plain` of the length that its IP header states. */
  predicate IpPrefix(plain: Packet, packet: Packet, source: IpAddr) {
    && plain != [] && IpHeader(plain).Some?
    && IpHeader(plain).value.0 <= |plain|
    && packet == plain[..IpHeader(plain).value.0]
    && source == IpHeader(plain).value.1
  }

  /** The packet handed up is the prefix, of the length it claims, of the packet that was opened. */
  predicate HandsUp(c: Core, m: Move, r: TunnResult)
    requires m.OpenData? && Enabled(c, m) && r.WriteToTunnel?
  {
    var plain := c.ring[m.receiverIdx % N_SESSIONS].value.ReceivePacketData(m.receiverIdx, m.counter, m.cipher).value.1;
    IpPrefix(plain, r.packet, r.source)
  }

  lemma SendMoves(t: Tunn, src: Packet, dstLen: nat, env: Env)
    requires dstLen >= HANDSHAKE_INIT_SZ && dstLen >= |src| + DATA_OVERHEAD_SZ
    ensures
      var m := SendMove(t, src, env);
      var (t', r) := t.Encapsulate(src, dstLen, env);
      Enabled(CoreOf(t), m) && Perform(CoreOf(t), m).0 == CoreOf(t') && Reports(CoreOf(t), m, r) && !r.Failed?
  {}

  lemma RoomForResponse(h: Handshake, msg: Datagram, ephemeral: nat, dstLen: nat)
    requires msg.HandshakeInit? && dstLen >= HANDSHAKE_RESP_SZ
    ensures h.ReceiveInitiation(msg, ephemeral, dstLen) == h.ReceiveInitiation(msg, ephemeral, HANDSHAKE_INIT_SZ)
    ensures h.ReceiveInitiation(msg, ephemeral, dstLen).1.Err? ==> h.ReceiveInitiation(msg, ephemeral, dstLen).0 == h
  {}

  lemma InitMoves(t: Tunn, d: Datagram, dstLen: nat, env: Env)
    requires d.HandshakeInit? && dstLen >= HANDSHAKE_INIT_SZ
    ensures
      var m := ReceiveMove(t, d, env);
      var (t', r) := t.HandleHandshakeInit(d, dstLen, env);
      Enabled(CoreOf(t), m) && Perform(CoreOf(t), m).0 == CoreOf(t') && Reports(CoreOf(t), m, r)
  {
    RoomForResponse(t.handshake, d, env.ephemeral, dstLen);
  }

  lemma ResponseMoves(t: Tunn, d: Datagram, dstLen: nat, env: Env)
    requires d.HandshakeResponse? && dstLen >= HANDSHAKE_INIT_SZ
    ensures
      var m := ReceiveMove(t, d, env);
      var (t', r) := t.HandleHandshakeResponse(d, dstLen);
      Enabled(CoreOf(t), m) && Perform(CoreOf(t), m).0 == CoreOf(t') && Reports(CoreOf(t), m, r)
  {}

  lemma DataMoves(t: Tunn, d: Datagram, env: Env)
    requires d.Data?
    ensures
      var m := ReceiveMove(t, d, env);
      var (t', r) := t.HandleData(d.receiverIdx, d.counter, d.cipher);
      Enabled(CoreOf(t), m) && Perform(CoreOf(t), m).0 == CoreOf(t') && Reports(CoreOf(t), m, r)
  {}

  lemma CookieKeepsCore(h: Handshake, d: Datagram)
    requires d.CookieReply?
    ensures h.ReceiveCookieReply(d).0 == h.(cookies := h.ReceiveCookieReply(d).0.cookies)
  {}

  /** One call on a tunnel: sessions and the cookie may be dropped, then the call's move is made and reported. */
  lemma CallIsMove(t: Tunn, call: Call, dstLen: nat, env: Env)
    requires Roomy(t, call, dstLen)
    ensures
      var c, m := Before(t, call, env), MoveOf(t, call, env);
      var (t', r) := Apply(t, call, dstLen, env);
      Dropped(CoreOf(t), c) && Enabled(c, m) && Perform(c, m).0 == CoreOf(t') && Reports(c, m, r)
  {
    match call
    case Send(src) => SendMoves(t, src, dstLen, env);
    case Flush => FlushMoves(t, dstLen, env);
    case Receive(addr, d) => ReceiveMoves(t, addr, d, dstLen, env);
    case ReceiveVerified(d) => ReceiveVerifiedMoves(t, d, dstLen, env);
    case RunTimers => TimersMove(t, dstLen, env);
    case StartHandshake(force) => StartMoves(t, force, dstLen, env);
  }

  lemma FlushMoves(t: Tunn, dstLen: nat, env: Env)
    requires Roomy(t, Flush, dstLen)
    ensures
      var m := MoveOf(t, Flush, env);
      var (t', r) := t.SendQueued(dstLen, env);
      Enabled(CoreOf(t), m) && Perform(CoreOf(t), m).0 == CoreOf(t') && Reports(CoreOf(t), m, r)
  {
    if t.queue != [] {
      SendMoves(t.(queue := t.queue[1..]), t.queue[0], dstLen, env);
    }
  }

  lemma StartMoves(t: Tunn, force: bool, dstLen: nat, env: Env)
    requires dstLen >= HANDSHAKE_INIT_SZ
    ensures
      var m := MoveOf(t, StartHandshake(force), env);
      var (t', r) := t.FormatHandshakeInitiation(dstLen, force, env);
      Enabled(CoreOf(t), m) && Perform(CoreOf(t), m).0 == CoreOf(t') && Reports(CoreOf(t), m, r)
  {}

  lemma ReceiveMoves(t: Tunn, addr: Option<IpAddr>, d: Datagram, dstLen: nat, env: Env)
    requires dstLen >= HANDSHAKE_INIT_SZ
    ensures
      var call := Receive(addr, d);
      var c, m := Before(t, call, env), MoveOf(t, call, env);
      var (t', r) := t.Decapsulate(addr, d, dstLen, env);
      Dropped(CoreOf(t), c) && Enabled(c, m) && Perform(c, m).0 == CoreOf(t') && Reports(c, m, r)
  {
    var t0 := t.(limiter := t.limiter.VerifyPacket(addr, d, env.now).0);
    if t.limiter.VerifyPacket(addr, d, env.now).1.Passed? {
      ReceiveVerifiedMoves(t0, d, dstLen, env);
      assert ReceiveMove(t0, d, env) == ReceiveMove(t, d, env);
    }
  }

  lemma ReceiveVerifiedMoves(t: Tunn, d: Datagram, dstLen: nat, env: Env)
    requires dstLen >= HANDSHAKE_INIT_SZ
    ensures
      var c, m := Before(t, ReceiveVerified(d), env), ReceiveMove(t, d, env);
      var (t', r) := t.HandleVerifiedPacket(d, dstLen, env);
      Dropped(CoreOf(t), c) && Enabled(c, m) && Perform(c, m).0 == CoreOf(t') && Reports(c, m, r)
  {
    match d
    case HandshakeInit(_, _, _, _, _, _) => InitMoves(t, d, dstLen, env);
    case HandshakeResponse(_, _, _, _, _, _) => ResponseMoves(t, d, dstLen, env);
    case CookieReply(_, _, _) => CookieKeepsCore(t.handshake, d);
    case Data(_, _, _) => DataMoves(t, d, env);
    case Malformed =>
  }

  lemma TimersMove(t: Tunn, dstLen: nat, env: Env)
    requires dstLen >= HANDSHAKE_INIT_SZ
    ensures
      var c, m := Before(t, RunTimers, env), MoveOf(t, RunTimers, env);
      var (t', r) := t.UpdateTimers(dstLen, env);
      Dropped(CoreOf(t), c) && Enabled(c, m) && Perform(c, m).0 == CoreOf(t') && Reports(c, m, r)
  {
    var now := t.timers.Since(env.now);
    var awake := t.Awake(env);
    if !awake.handshake.IsExpired() {
      var (t', decision) := awake.DropOldCookie(now).Decide(now, env.late);
      assert CoreOf(t') == CoreOf(awake.DropOldCookie(now));
      if decision.Keepalive? {
        SendMoves(t', [], dstLen, env);
      }
    }
  }
}
