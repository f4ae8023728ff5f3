/**
 The packets that a tunnel accepts: each is sent on a session, or waits in the queue, or is lost for
 one of two reasons. And the loop with which the device empties the queue.
 */
module PacketQueue {
  import opened Crypto
  import opened Messages
  import opened Tunnels
  import opened TunnelMoves

  // ---------------------------------------------------------------------------
  // The account of one call
  // ---------------------------------------------------------------------------

  /** A timer call that calls for a keepalive. */
  predicate WantsKeepalive(t: Tunn, env: Env) {
    && !t.Awake(env).handshake.IsExpired()
    && t.Awake(env).DropOldCookie(t.timers.Since(env.now)).Decide(t.timers.Since(env.now), env.late).1.Keepalive?
  }

  /** The packets that a call is asked to send: the caller's, or the empty packet of a keepalive. */
  function Offered(t: Tunn, call: Call, env: Env): multiset<Packet> {
    match call
    case Send(src) => multiset{src}
    case RunTimers => if WantsKeepalive(t, env) then multiset{[]} else multiset{}
    case _ => multiset{}
  }

  /** The packet inside the datagram that a sending call returns. */
  function Transmitted(call: Call, r: TunnResult): multiset<Packet> {
    if (call.Send? || call.Flush? || call.RunTimers?) && r.WriteToNetwork? && r.datagram.Data?
       && r.datagram.cipher.Seal? && r.datagram.cipher.plain.Payload?
    then multiset{r.datagram.cipher.plain.bytes}
    else multiset{}
  }

  /** The packets gone from the account. */
  function Lost(t: Tunn, call: Call, env: Env, t': Tunn): multiset<Packet> {
    match call
    case Send(src) => if t.CurrentSession().None? && |t.queue| >= MAX_QUEUE_DEPTH then multiset{src} else multiset{}
    case RunTimers =>
      if t'.handshake.IsExpired() && !t.handshake.IsExpired() then multiset(t.queue)
      else if WantsKeepalive(t, env) && t.Awake(env).CurrentSession().None? && |t.queue| >= MAX_QUEUE_DEPTH
      then multiset{[]}
      else multiset{}
    case _ => multiset{}
  }

  /** What is left, sent and lost is what was there and what was offered. */
  predicate Balanced(t: Tunn, call: Call, env: Env, t': Tunn, r: TunnResult) {
    Even(multiset(t.queue), Offered(t, call, env), multiset(t'.queue), Transmitted(call, r), Lost(t, call, env, t'))
  }

  predicate Even<T>(before: multiset<T>, offered: multiset<T>, after: multiset<T>, sent: multiset<T>,
                    lost: multiset<T>) {
    after + sent + lost == before + offered
  }

  // ---------------------------------------------------------------------------
  // Each call balances
  // ---------------------------------------------------------------------------

  function Pushed(queue: seq<Packet>, packet: Packet): seq<Packet> {
    if |queue| < MAX_QUEUE_DEPTH then queue + [packet] else queue
  }

  /** What sending one packet does to the queue. */
  lemma EncapsulateQueue(t: Tunn, src: Packet, dstLen: nat, env: Env)
    requires dstLen >= HANDSHAKE_INIT_SZ && dstLen >= |src| + DATA_OVERHEAD_SZ
    ensures
      var (t', r) := t.Encapsulate(src, dstLen, env);
      && t'.queue == (if t.CurrentSession().None? then Pushed(t.queue, src) else t.queue)
      && Transmitted(Flush, r) == (if t.CurrentSession().Some? then multiset{src} else multiset{})
      && !r.Failed?
      && (t'.handshake.IsExpired() ==> t.handshake.IsExpired())
  {}

  lemma SendBalances(t: Tunn, src: Packet, dstLen: nat, env: Env)
    requires Roomy(t, Send(src), dstLen)
    ensures var (t', r) := t.Encapsulate(src, dstLen, env); Balanced(t, Send(src), env, t', r)
  {
    EncapsulateQueue(t, src, dstLen, env);
    var (t', r) := t.Encapsulate(src, dstLen, env);
    SendBalance(t, src, env, t', r);
  }

  lemma SendBalance(t: Tunn, src: Packet, env: Env, t': Tunn, r: TunnResult)
    requires t'.queue == (if t.CurrentSession().None? then Pushed(t.queue, src) else t.queue)
    requires Transmitted(Flush, r) == (if t.CurrentSession().Some? then multiset{src} else multiset{})
    ensures Balanced(t, Send(src), env, t', r)
  {}

  /** Without a session, flushing moves the first packet to the end; with one, it sends the first packet. */
  lemma FlushQueue(t: Tunn, dstLen: nat, env: Env)
    requires Roomy(t, Flush, dstLen) && 0 < |t.queue| <= MAX_QUEUE_DEPTH
    ensures
      var (t', r) := t.SendQueued(dstLen, env);
      && t'.queue == (if t.CurrentSession().None? then t.queue[1..] + [t.queue[0]] else t.queue[1..])
      && Transmitted(Flush, r) == (if t.CurrentSession().Some? then multiset{t.queue[0]} else multiset{})
  {
    EncapsulateQueue(t.(queue := t.queue[1..]), t.queue[0], dstLen, env);
  }

  lemma FlushBalances(t: Tunn, dstLen: nat, env: Env)
    requires Roomy(t, Flush, dstLen) && |t.queue| <= MAX_QUEUE_DEPTH
    ensures var (t', r) := t.SendQueued(dstLen, env); Balanced(t, Flush, env, t', r)
  {
    if t.queue != [] {
      FlushQueue(t, dstLen, env);
      Parted(t.queue);
    }
  }

  lemma Parted(queue: seq<Packet>)
    requires queue != []
    ensures multiset(queue[1..]) + multiset{queue[0]} == multiset(queue)
    ensures multiset(queue[1..] + [queue[0]]) == multiset(queue)
  {
    assert queue == [queue[0]] + queue[1..];
  }

  lemma QuietQueue(t: Tunn, d: Datagram, dstLen: nat, env: Env)
    ensures t.HandleVerifiedPacket(d, dstLen, env).0.queue == t.queue
  {}

  lemma IdleKeepsQueue(t: Tunn, now: nat, late: nat)
    ensures
      var t' := t.Decide(now, late).0;
      t'.queue == t.queue && t'.handshake == t.handshake && t'.sessions == t.sessions && t'.current == t.current
  {}

  /** The queue after a timer call, by what the timers called for. */
  lemma TimersQueue(t: Tunn, dstLen: nat, env: Env)
    requires dstLen >= HANDSHAKE_INIT_SZ
    ensures
      var (t', r) := t.UpdateTimers(dstLen, env);
      && t'.queue == (if t'.handshake.IsExpired() && !t.handshake.IsExpired() then []
                      else if WantsKeepalive(t, env) && t.Awake(env).CurrentSession().None? then Pushed(t.queue, [])
                      else t.queue)
      && Transmitted(RunTimers, r) ==
         (if WantsKeepalive(t, env) && t.Awake(env).CurrentSession().Some? then multiset{[]} else multiset{})
      && (WantsKeepalive(t, env) ==> !t'.handshake.IsExpired())
  {
    var awake, now := t.Awake(env), t.timers.Since(env.now);
    if !awake.handshake.IsExpired() {
      var t0 := awake.DropOldCookie(now);
      IdleKeepsQueue(t0, now, env.late);
      var (t1, decision) := t0.Decide(now, env.late);
      if decision.Keepalive? {
        EncapsulateQueue(t1, [], dstLen, env);
      }
    }
  }

  lemma TimersBalance(t: Tunn, dstLen: nat, env: Env)
    requires dstLen >= HANDSHAKE_INIT_SZ
    ensures var (t', r) := t.UpdateTimers(dstLen, env); Balanced(t, RunTimers, env, t', r)
  {
    TimersQueue(t, dstLen, env);
  }

  /** Every call with documented buffers accounts for every packet. */
  lemma CallBalances(t: Tunn, call: Call, dstLen: nat, env: Env)
    requires Roomy(t, call, dstLen) && |t.queue| <= MAX_QUEUE_DEPTH
    ensures var (t', r) := TunnelMoves.Apply(t, call, dstLen, env); Balanced(t, call, env, t', r)
  {
    match call
    case Send(src) => SendBalances(t, src, dstLen, env);
    case Flush => FlushBalances(t, dstLen, env);
    case RunTimers => TimersBalance(t, dstLen, env);
    case Receive(addr, d) => QuietQueue(t.(limiter := t.limiter.VerifyPacket(addr, d, env.now).0), d, dstLen, env);
    case ReceiveVerified(d) => QuietQueue(t, d, dstLen, env);
    case StartHandshake(_) =>
  }

  // ---------------------------------------------------------------------------
  // The account of a run
  // ---------------------------------------------------------------------------

  lemma EncapsulateStaysShort(t: Tunn, src: Packet, dstLen: nat, env: Env)
    requires |t.queue| <= MAX_QUEUE_DEPTH
    ensures |t.Encapsulate(src, dstLen, env).0.queue| <= MAX_QUEUE_DEPTH
  {}

  lemma TimersStayShort(t: Tunn, dstLen: nat, env: Env)
    requires |t.queue| <= MAX_QUEUE_DEPTH
    ensures |t.UpdateTimers(dstLen, env).0.queue| <= MAX_QUEUE_DEPTH
  {
    var awake, now := t.Awake(env), t.timers.Since(env.now);
    var t0 := awake.DropOldCookie(now);
    IdleKeepsQueue(t0, now, env.late);
    EncapsulateStaysShort(t0.Decide(now, env.late).0, [], dstLen, env);
  }

  /** The queue never holds more than 256 packets, whatever the buffers. */
  lemma QueueStaysShort(t: Tunn, call: Call, dstLen: nat, env: Env)
    requires |t.queue| <= MAX_QUEUE_DEPTH
    ensures |TunnelMoves.Apply(t, call, dstLen, env).0.queue| <= MAX_QUEUE_DEPTH
  {
    match call
    case Send(src) => EncapsulateStaysShort(t, src, dstLen, env);
    case Flush =>
      if t.queue != [] {
        EncapsulateStaysShort(t.(queue := t.queue[1..]), t.queue[0], dstLen, env);
      }
    case Receive(addr, d) => QuietQueue(t.(limiter := t.limiter.VerifyPacket(addr, d, env.now).0), d, dstLen, env);
    case ReceiveVerified(d) => QuietQueue(t, d, dstLen, env);
    case RunTimers => TimersStayShort(t, dstLen, env);
    case StartHandshake(_) =>
  }

  function Sum<T>(parts: seq<multiset<T>>, n: nat): multiset<T>
    requires n <= |parts|
  {
    if n == 0 then multiset{} else Sum(parts, n - 1) + parts[n - 1]
  }

  /** An account of some goods: what is in stock after each step, and what each step brings in, sends and loses. */
  datatype Account<T> = Account(
    stock: seq<multiset<T>>, offered: seq<multiset<T>>, sent: seq<multiset<T>>, lost: seq<multiset<T>>) {

    predicate Shaped() {
      |stock| == |offered| + 1 && |sent| == |lost| == |offered|
    }

    predicate BalancedAt(k: nat)
      requires Shaped() && k < |offered|
    {
      Even(stock[k], offered[k], stock[k + 1], sent[k], lost[k])
    }

    predicate Conserved(n: nat)
      requires Shaped() && n <= |offered|
    {
      Even(stock[0], Sum(offered, n), stock[n], Sum(sent, n), Sum(lost, n))
    }
  }

  /** If every step balances, the whole account does. */
  lemma {:induction false} AccountConserved<T>(a: Account<T>, n: nat)
    requires a.Shaped() && n <= |a.offered| && forall k :: 0 <= k < n ==> a.BalancedAt(k)
    ensures a.Conserved(n)
  {
    if n > 0 {
      AccountConserved(a, n - 1);
      assert a.BalancedAt(n - 1);
      Carried(a.stock[0], a.stock[n - 1], a.stock[n], Sum(a.sent, n - 1), a.sent[n - 1],
              Sum(a.lost, n - 1), a.lost[n - 1], Sum(a.offered, n - 1), a.offered[n - 1]);
    }
  }

  lemma Carried<T>(q0: multiset<T>, q1: multiset<T>, q2: multiset<T>, sent: multiset<T>, sent1: multiset<T>,
                   lost: multiset<T>, lost1: multiset<T>, offered: multiset<T>, offered1: multiset<T>)
    requires Even(q0, offered, q1, sent, lost) && Even(q1, offered1, q2, sent1, lost1)
    ensures Even(q0, offered + offered1, q2, sent + sent1, lost + lost1)
  {
    forall x
      ensures (q2 + (sent + sent1) + (lost + lost1))[x] == (q0 + (offered + offered1))[x]
    {
      assert (q1 + sent + lost)[x] == (q0 + offered)[x];
      assert (q2 + sent1 + lost1)[x] == (q1 + offered1)[x];
    }
  }

  /** The packets of a run. */
  function AccountOf(states: seq<Tunn>, steps: seq<Step>, results: seq<TunnResult>): (a: Account<Packet>)
    requires |states| == |steps| + 1 && |results| == |steps|
    ensures a.Shaped() && |a.offered| == |steps|
  {
    Account(
      seq(|states|, i requires 0 <= i < |states| => multiset(states[i].queue)),
      seq(|steps|, i requires 0 <= i < |steps| => Offered(states[i], steps[i].call, steps[i].env)),
      seq(|steps|, i requires 0 <= i < |steps| => Transmitted(steps[i].call, results[i])),
      seq(|steps|, i requires 0 <= i < |steps| => Lost(states[i], steps[i].call, steps[i].env, states[i + 1])))
  }

  lemma {:induction false} QueueShortInRun(states: seq<Tunn>, steps: seq<Step>, n: nat)
    requires IsTunnelRun(states, steps) && n <= |steps| && |states[0].queue| <= MAX_QUEUE_DEPTH
    ensures |states[n].queue| <= MAX_QUEUE_DEPTH
  {
    if n > 0 {
      QueueShortInRun(states, steps, n - 1);
      assert StepAt(states, steps, n - 1);
      QueueStaysShort(states[n - 1], steps[n - 1].call, steps[n - 1].dstLen, steps[n - 1].env);
    }
  }

  lemma StepBalances(states: seq<Tunn>, steps: seq<Step>, results: seq<TunnResult>, k: nat)
    requires IsAnsweredRun(states, steps, results) && WithRoom(states, steps) && k < |steps|
    requires |states[0].queue| <= MAX_QUEUE_DEPTH
    ensures Balanced(states[k], steps[k].call, steps[k].env, states[k + 1], results[k])
  {
    QueueShortInRun(states, steps, k);
    assert StepAt(states, steps, k) && AnswerAt(states, steps, results, k) && RoomAt(states, steps, k);
    CallBalances(states[k], steps[k].call, steps[k].dstLen, steps[k].env);
  }

  lemma EntryBalances(states: seq<Tunn>, steps: seq<Step>, results: seq<TunnResult>, k: nat)
    requires |states| == |steps| + 1 && k < |steps| == |results|
    requires Balanced(states[k], steps[k].call, steps[k].env, states[k + 1], results[k])
    ensures AccountOf(states, steps, results).BalancedAt(k)
  {}

  /** In every run with documented buffers, packets are conserved: queued, sent or accounted for as lost. */
  lemma PacketsConserved(states: seq<Tunn>, steps: seq<Step>, results: seq<TunnResult>, n: nat)
    requires IsAnsweredRun(states, steps, results) && WithRoom(states, steps) && n <= |steps|
    requires |states[0].queue| <= MAX_QUEUE_DEPTH
    ensures |states[n].queue| <= MAX_QUEUE_DEPTH
    ensures AccountOf(states, steps, results).Conserved(n)
  {
    QueueShortInRun(states, steps, n);
    forall k | 0 <= k < n
      ensures AccountOf(states, steps, results).BalancedAt(k)
    {
      StepBalances(states, steps, results, k);
      EntryBalances(states, steps, results, k);
    }
    AccountConserved(AccountOf(states, steps, results), n);
  }

  /** The packet was offered while there was no session and the queue was full. */
  predicate Overflowed(t: Tunn, s: Step, packet: Packet) {
    && |t.queue| == MAX_QUEUE_DEPTH && packet in Offered(t, s.call, s.env)
    && (if s.call.RunTimers? then t.Awake(s.env) else t).CurrentSession().None?
  }

  /** The packet was waiting when a timer call expired the tunnel and emptied the queue. */
  predicate ExpiredWith(t: Tunn, s: Step, t': Tunn, packet: Packet) {
    && s.call.RunTimers? && !t.handshake.IsExpired() && t'.handshake.IsExpired()
    && packet in t.queue && t'.queue == []
  }

  lemma LostInCall(t: Tunn, s: Step, t': Tunn, packet: Packet)
    requires t' == TunnelMoves.Apply(t, s.call, s.dstLen, s.env).0
    requires Roomy(t, s.call, s.dstLen) && |t.queue| <= MAX_QUEUE_DEPTH && packet in Lost(t, s.call, s.env, t')
    ensures Overflowed(t, s, packet) || ExpiredWith(t, s, t', packet)
  {
    if s.call.RunTimers? {
      TimersQueue(t, s.dstLen, s.env);
    }
  }

  /** Why call `k` lost the packet. */
  ghost predicate LostAt(states: seq<Tunn>, steps: seq<Step>, k: nat, packet: Packet)
    requires k < |steps| && |states| == |steps| + 1
  {
    Overflowed(states[k], steps[k], packet) || ExpiredWith(states[k], steps[k], states[k + 1], packet)
  }

  lemma LostInRun(states: seq<Tunn>, steps: seq<Step>, results: seq<TunnResult>, k: nat, packet: Packet)
    requires IsAnsweredRun(states, steps, results) && WithRoom(states, steps) && k < |steps|
    requires |states[0].queue| <= MAX_QUEUE_DEPTH
    requires packet in Lost(states[k], steps[k].call, steps[k].env, states[k + 1])
    ensures LostAt(states, steps, k, packet)
  {
    QueueShortInRun(states, steps, k);
    assert StepAt(states, steps, k) && RoomAt(states, steps, k);
    LostInCall(states[k], steps[k], states[k + 1], packet);
  }

  lemma {:induction false} InSomePart<T>(parts: seq<multiset<T>>, n: nat, x: T) returns (k: nat)
    requires n <= |parts| && x in Sum(parts, n)
    ensures k < n && x in parts[k]
  {
    k := n - 1;
    if x in Sum(parts, n - 1) {
      k := InSomePart(parts, n - 1, x);
    }
  }

  /** In every run, whatever was lost was offered to a full queue, or was waiting when the tunnel expired. */
  lemma LossHasReason(states: seq<Tunn>, steps: seq<Step>, results: seq<TunnResult>, n: nat, packet: Packet)
    returns (k: nat)
    requires IsAnsweredRun(states, steps, results) && WithRoom(states, steps) && n <= |steps|
    requires |states[0].queue| <= MAX_QUEUE_DEPTH && packet in Sum(AccountOf(states, steps, results).lost, n)
    ensures k < n && LostAt(states, steps, k, packet)
  {
    k := InSomePart(AccountOf(states, steps, results).lost, n, packet);
    LostInRun(states, steps, results, k, packet);
  }

  // ---------------------------------------------------------------------------
  // Emptying the queue
  // ---------------------------------------------------------------------------

  /** The buffer is long enough for an initiation and for every waiting packet. */
  predicate RoomForAll(queue: seq<Packet>, dstLen: nat) {
    dstLen >= HANDSHAKE_INIT_SZ && forall i :: 0 <= i < |queue| ==> dstLen >= |queue[i]| + DATA_OVERHEAD_SZ
  }

  /** The datagram carries this packet. */
  predicate Carries(d: Datagram, packet: Packet) {
    d.Data? && d.cipher.Seal? && d.cipher.plain == Payload(packet)
  }

  function Rotated(queue: seq<Packet>): seq<Packet> {
    if queue == [] then [] else queue[1..] + [queue[0]]
  }

  lemma FlushOnSession(t: Tunn, dstLen: nat, env: Env)
    requires t.CurrentSession().Some? && RoomForAll(t.queue, dstLen)
    ensures
      var (t', r) := t.SendQueued(dstLen, env);
      && t'.CurrentSession().Some? && t'.current == t.current
      && (t.queue == [] ==> r == Done && t' == t)
      && (t.queue != [] ==> t'.queue == t.queue[1..] && r.WriteToNetwork? && Carries(r.datagram, t.queue[0]))
  {}

  lemma FlushWithoutSession(t: Tunn, dstLen: nat, env: Env)
    requires t.CurrentSession().None? && RoomForAll(t.queue, dstLen) && |t.queue| <= MAX_QUEUE_DEPTH
    ensures
      var (t', r) := t.SendQueued(dstLen, env);
      && t'.CurrentSession().None? && t'.current == t.current && t'.queue == Rotated(t.queue)
      && (t.queue == [] || t.handshake.IsInProgress() ==> r == Done && t'.handshake == t.handshake)
      && (t.queue != [] && !t.handshake.IsInProgress() ==>
            r.WriteToNetwork? && r.datagram.HandshakeInit? && t'.handshake.IsInProgress())
  {
    if t.queue != [] {
      FlushQueue(t, dstLen, env);
    }
  }

  /** The tunnel after sending `sent`, on a session: the packets so far went out in order. */
  predicate FlushedSome(start: Tunn, t: Tunn, sent: seq<Datagram>) {
    && t.current == start.current && t.CurrentSession().Some? && start.CurrentSession().Some?
    && |sent| <= |start.queue| && t.queue == start.queue[|sent|..]
    && forall i :: 0 <= i < |sent| ==> Carries(sent[i], start.queue[i])
  }

  /** The tunnel after sending `sent`, without a session: at most an initiation, and every packet still waits. */
  predicate FlushedNone(start: Tunn, t: Tunn, sent: seq<Datagram>, dstLen: nat) {
    && t.current == start.current && t.CurrentSession().None? && start.CurrentSession().None?
    && |t.queue| == |start.queue| && multiset(t.queue) == multiset(start.queue) && RoomForAll(t.queue, dstLen)
    && if sent == [] then t.handshake == start.handshake
       else && |sent| == 1 && sent[0].HandshakeInit? && t.handshake.IsInProgress()
            && start.queue != [] && !start.handshake.IsInProgress()
  }

  lemma FlushSomeStep(start: Tunn, t: Tunn, sent: seq<Datagram>, dstLen: nat, env: Env)
    requires FlushedSome(start, t, sent) && RoomForAll(start.queue, dstLen)
    ensures
      var (t', r) := t.SendQueued(dstLen, env);
      if r.WriteToNetwork? then |sent| < |start.queue| && FlushedSome(start, t', sent + [r.datagram])
      else |sent| == |start.queue| && FlushedSome(start, t', sent)
  {
    FlushOnSession(t, dstLen, env);
  }

  lemma FlushNoneStep(start: Tunn, t: Tunn, sent: seq<Datagram>, dstLen: nat, env: Env)
    requires FlushedNone(start, t, sent, dstLen) && |start.queue| <= MAX_QUEUE_DEPTH
    ensures
      var (t', r) := t.SendQueued(dstLen, env);
      if r.WriteToNetwork? then sent == [] && FlushedNone(start, t', sent + [r.datagram], dstLen)
      else FlushedNone(start, t', sent, dstLen) && (sent == [] ==> start.queue == [] || start.handshake.IsInProgress())
  {
    FlushWithoutSession(t, dstLen, env);
    RotatedKeeps(t.queue, dstLen);
  }

  /**
   The loop in which the device repeats the call with an empty datagram until there is nothing to send.
   `envs` gives the clock and the random numbers of each round. On a session it sends the whole queue in
   order; without one it sends at most one initiation and keeps every packet.
   */
  method FlushLoop(start: Tunn, dstLen: nat, envs: nat -> Env) returns (t: Tunn, sent: seq<Datagram>)
    requires RoomForAll(start.queue, dstLen) && |start.queue| <= MAX_QUEUE_DEPTH
    ensures |sent| <= |start.queue|
    ensures start.CurrentSession().Some? ==>
              && t.queue == [] && |sent| == |start.queue|
              && forall i :: 0 <= i < |sent| ==> Carries(sent[i], start.queue[i])
    ensures start.CurrentSession().None? ==>
              && multiset(t.queue) == multiset(start.queue)
              && |sent| == (if start.queue != [] && !start.handshake.IsInProgress() then 1 else 0)
              && forall i :: 0 <= i < |sent| ==> sent[i].HandshakeInit?
  {
    t, sent := start, [];
    while true
      invariant start.CurrentSession().Some? ==> FlushedSome(start, t, sent)
      invariant start.CurrentSession().None? ==> FlushedNone(start, t, sent, dstLen)
      decreases if start.CurrentSession().Some? then |start.queue| - |sent| else 1 - |sent|
    {
      if start.CurrentSession().Some? {
        FlushSomeStep(start, t, sent, dstLen, envs(|sent|));
      } else {
        FlushNoneStep(start, t, sent, dstLen, envs(|sent|));
      }
      var (t', r) := t.SendQueued(dstLen, envs(|sent|));
      t := t';
      if !r.WriteToNetwork? {
        break;
      }
      sent := sent + [r.datagram];
    }
  }

  lemma RotatedKeeps(queue: seq<Packet>, dstLen: nat)
    requires RoomForAll(queue, dstLen)
    ensures |Rotated(queue)| == |queue| && multiset(Rotated(queue)) == multiset(queue)
    ensures RoomForAll(Rotated(queue), dstLen)
  {
    if queue != [] {
      Parted(queue);
    }
  }

  // ---------------------------------------------------------------------------
  // What does not hold
  // ---------------------------------------------------------------------------

  /**
   Flushing keeps the multiset of packets that are queued or sent exactly when the queue is empty or full,
   or there is a session, or a handshake is in progress, or the buffer has room for an initiation. In every
   other case it duplicates the first packet.
   */
  lemma FlushDuplicates(t: Tunn, dstLen: nat, env: Env)
    requires |t.queue| <= MAX_QUEUE_DEPTH
    requires t.queue != [] && t.CurrentSession().Some? ==> dstLen >= |t.queue[0]| + DATA_OVERHEAD_SZ
    ensures
      var (t', r) := t.SendQueued(dstLen, env);
      var safe := t.queue == [] || |t.queue| == MAX_QUEUE_DEPTH || t.CurrentSession().Some?
               || t.handshake.IsInProgress() || dstLen >= HANDSHAKE_INIT_SZ;
      && (safe <==> multiset(t'.queue) + Transmitted(Flush, r) == multiset(t.queue))
      && (!safe ==> multiset(t'.queue) == multiset(t.queue) + multiset{t.queue[0]})
  {
    if t.queue != [] {
      Parted(t.queue);
      FlushShape(t, dstLen, env);
    }
  }

  lemma FlushShape(t: Tunn, dstLen: nat, env: Env)
    requires 0 < |t.queue| <= MAX_QUEUE_DEPTH
    requires t.CurrentSession().Some? ==> dstLen >= |t.queue[0]| + DATA_OVERHEAD_SZ
    ensures
      var (t', r) := t.SendQueued(dstLen, env);
      var (first, rest) := (t.queue[0], t.queue[1..]);
      if t.CurrentSession().Some? then t'.queue == rest && Transmitted(Flush, r) == multiset{first}
      else
        && Transmitted(Flush, r) == multiset{}
        && t'.queue == (if !t.handshake.IsInProgress() && dstLen < HANDSHAKE_INIT_SZ && |t.queue| < MAX_QUEUE_DEPTH
                        then [first] + rest + [first] else rest + [first])
  {}

  /** The queue is no first-in first-out queue while there is no session: each flush takes it round by one. */
  lemma FlushRotates(t: Tunn, dstLen: nat, env: Env)
    requires RoomForAll(t.queue, dstLen) && |t.queue| <= MAX_QUEUE_DEPTH
    ensures t.CurrentSession().None? <==> t.SendQueued(dstLen, env).0.CurrentSession().None?
    ensures t.CurrentSession().None? ==> t.SendQueued(dstLen, env).0.queue == Rotated(t.queue)
    ensures t.CurrentSession().Some? ==> t.SendQueued(dstLen, env).0.queue == t.queue[if t.queue == [] then 0 else 1..]
  {
    if t.CurrentSession().None? {
      FlushWithoutSession(t, dstLen, env);
    } else {
      FlushOnSession(t, dstLen, env);
    }
  }
}
