/**
 Every run of two tunnels over a network that drops, duplicates, reorders, reflects and tampers.

 A run is a sequence of calls, each on one of the two tunnels. What a call receives was sent by an
 earlier call of either side, up to tampering, or was made up. The theorems speak of the calls and
 their results alone; the ledger is the proof's.
 */
module TunnelRuns {
  import opened Wrappers
  import opened Crypto
  import opened Messages
  import opened Sessions
  import opened Tunnels
  import opened TunnelMoves
  import opened Exchanges
  import opened NetworkLedger
  import opened TunnelNetwork
  import ReplayWindow

  // ---------------------------------------------------------------------------
  // Runs
  // ---------------------------------------------------------------------------

  datatype Action = Action(side: Side, call: Call, dstLen: nat, env: Env)

  /** The states of the two tunnels before, between and after the actions, and what each action returned. */
  datatype Trace = Trace(tunnels: seq<Pair<Tunn>>, actions: seq<Action>, results: seq<TunnResult>) {

    predicate Shaped() {
      |tunnels| == |actions| + 1 && |results| == |actions|
    }

    /** The tunnel that action `i` is about to change. */
    function Caller(i: nat): Tunn
      requires Shaped() && i < |actions|
    {
      tunnels[i].At(actions[i].side)
    }

    /** A datagram around the same box was sent before action `i`, with the same handshake indices if `intact`. */
    ghost predicate Sent(i: nat, d: Datagram, intact: bool)
      requires Shaped() && i < |actions|
    {
      exists j :: 0 <= j < i && results[j].WriteToNetwork? && MadeFrom(results[j].datagram, d)
                  && (intact ==> SameIndices(results[j].datagram, d))
    }

    /** The network may deliver `d` to action `i`. */
    ghost predicate Delivers(i: nat, d: Datagram, intact: bool)
      requires Shaped() && i < |actions|
    {
      MadeUp(d) || Sent(i, d, intact)
    }
  }

  ghost predicate KeptAt(tr: Trace, i: nat)
    requires tr.Shaped() && i < |tr.actions|
  {
    Delivered(tr.actions[i].call).Some? ==> tr.Delivers(i, Delivered(tr.actions[i].call).value, true)
  }

  /** No handshake message reached its receiver with other indices than it was sent with. */
  ghost predicate IndicesKept(tr: Trace)
    requires tr.Shaped()
  {
    forall i :: 0 <= i < |tr.actions| ==> KeptAt(tr, i)
  }

  /** An action as seen from outside: who acted, its rings before and after, what it was given and what it returned. */
  datatype Event = Event(side: Side, before: Ring, after: Ring, delivered: Option<Datagram>, result: TunnResult) {

    /** The session that reads the data packet that was delivered. */
    function Reader(): Option<Session> {
      match delivered
      case Some(Data(idx, _, _)) => before[idx % N_SESSIONS]
      case _ => None
    }

    /** The key and the counter of the data packet that was delivered. */
    function Opened(): Option<Nonce> {
      match Reader()
      case Some(s) => Some(Nonce(s.receiver, delivered.value.counter))
      case None => None
    }

    predicate SendsData() {
      result.WriteToNetwork? && result.datagram.Data?
    }

    /** The key and the counter of the data packet that was sent. */
    function Used(): Option<Nonce> {
      if result.WriteToNetwork? && result.datagram.Data? && result.datagram.cipher.Seal?
      then Some(Nonce(result.datagram.cipher.key, result.datagram.counter))
      else None
    }
  }

  function EventAt(tr: Trace, i: nat): Event
    requires tr.Shaped() && i < |tr.actions|
  {
    Event(tr.actions[i].side, tr.Caller(i).sessions, tr.tunnels[i + 1].At(tr.actions[i].side).sessions,
          Delivered(tr.actions[i].call), tr.results[i])
  }

  function Delivered(call: Call): Option<Datagram> {
    match call
    case Receive(_, d) => Some(d)
    case ReceiveVerified(d) => Some(d)
    case _ => None
  }

  /** Fewer packets than the counter can count were sent on every session. */
  predicate CountersLeft(ring: Ring) {
    forall i :: 0 <= i < N_SESSIONS && ring[i].Some? ==> ring[i].value.sendCounter < ReplayWindow.SAFE_COUNTERS
  }

  /** Action `i` is a call with a documented buffer, a fresh ephemeral key and a deliverable datagram. */
  ghost predicate StepOk(tr: Trace, i: nat)
    requires tr.Shaped() && i < |tr.actions|
  {
    var a := tr.actions[i];
    && tr.tunnels[i + 1] == tr.tunnels[i].Set(a.side, TunnelMoves.Apply(tr.Caller(i), a.call, a.dstLen, a.env).0)
    && tr.results[i] == TunnelMoves.Apply(tr.Caller(i), a.call, a.dstLen, a.env).1
    && Roomy(tr.Caller(i), a.call, a.dstLen)
    && CountersLeft(tr.Caller(i).sessions)
    && (forall j :: 0 <= j < i ==> tr.actions[j].env.ephemeral != a.env.ephemeral)
    && (Delivered(a.call).Some? ==> tr.Delivers(i, Delivered(a.call).value, false))
  }

  ghost predicate IsRun(keys: Keys, tr: Trace) {
    && keys.Distinct()
    && tr.Shaped()
    && (forall side: Side ::
          Fresh(tr.tunnels[0].At(side)) && Configured(keys, side, tr.tunnels[0].At(side).handshake.params))
    && (forall i :: 0 <= i < |tr.actions| ==> StepOk(tr, i))
  }

  // ---------------------------------------------------------------------------
  // The ledger of a run
  // ---------------------------------------------------------------------------

  function LedgerAfter(l: Ledger, side: Side, c: Core, m: Move): Ledger
    requires Enabled(c, m)
  {
    match m
    case Rest => l
    case GiveUpAll => l
    case Initiate(ephemeral, now) => AfterInitiating(l, side, c, ephemeral, now)
    case Respond(msg, ephemeral) => AfterResponding(l, side, c, msg, ephemeral)
    case Complete(msg) => AfterCompleting(l, side, c, msg)
    case SealData(slot, src) => AfterSealing(l, side, c, slot, src)
    case OpenData(idx, counter, cipher) => AfterOpening(l, side, c, idx, counter, cipher)
  }

  const NO_SLOTS: Slots := [NO_HALF, NO_HALF, NO_HALF, NO_HALF, NO_HALF, NO_HALF, NO_HALF, NO_HALF]

  function EmptyLedger(intact: bool): Ledger {
    Ledger(intact, {}, map[], map[], map[], map[], map[], map[], Pair(NO_SLOTS, NO_SLOTS))
  }

  /** What the move needs from the network and from its random numbers. */
  ghost predicate Supplied(l: Ledger, c: Core, m: Move) {
    match m
    case Rest => true
    case GiveUpAll => true
    case Initiate(ephemeral, _) => ephemeral !in l.drawn
    case Respond(msg, ephemeral) => Deliverable(l, msg) && ephemeral !in l.drawn
    case Complete(msg) => Deliverable(l, msg)
    case SealData(slot, _) =>
      slot < N_SESSIONS && c.ring[slot].Some? ==> c.ring[slot].value.sendCounter < ReplayWindow.SAFE_COUNTERS
    case OpenData(idx, counter, cipher) => Deliverable(l, Data(idx, counter, cipher))
  }

  lemma GivingUpKeepsOk(k: Schedule, l: Ledger, side: Side, c: Core, other: Core)
    requires AllOk(k, l, side, c, other)
    ensures AllOk(k, l, side, Perform(c, GiveUpAll).0, other)
  {
    var c' := Perform(c, GiveUpAll).0;
    assert forall i :: 0 <= i < N_SESSIONS ==> SlotOk(k, l, side, c'.ring, i);
  }

  lemma ExtendsItself(l: Ledger)
    ensures Extends(l, l)
  {}

  /** Every move keeps the ledger and both tunnels in order, and only adds to the ledger. */
  lemma MoveKeepsOk(keys: Keys, k: Schedule, l: Ledger, side: Side, c: Core, other: Core, m: Move)
    requires SetUp(keys, k, side, c, other) && AllOk(k, l, side, c, other)
    requires Enabled(c, m) && Supplied(l, c, m)
    ensures AllOk(k, LedgerAfter(l, side, c, m), side, Perform(c, m).0, other)
    ensures Extends(l, LedgerAfter(l, side, c, m))
  {
    match m
    case Rest => ExtendsItself(l);
    case GiveUpAll => GivingUpKeepsOk(k, l, side, c, other); ExtendsItself(l);
    case Initiate(ephemeral, now) => InitiatingKeepsOk(keys, k, l, side, c, other, ephemeral, now);
    case Respond(msg, ephemeral) => RespondingKeepsOk(keys, k, l, side, c, other, msg, ephemeral);
    case Complete(msg) => CompletingKeepsOk(keys, k, l, side, c, other, msg);
    case SealData(slot, src) => SealingKeepsOk(k, l, side, c, other, slot, src);
    case OpenData(idx, counter, cipher) => OpeningKeepsOk(k, l, side, c, other, idx, counter, cipher);
  }

  // ---------------------------------------------------------------------------
  // What a call's move takes from the call
  // ---------------------------------------------------------------------------

  /** The move of a call uses the call's datagram and its ephemeral key. */
  lemma MoveInput(t: Tunn, call: Call, env: Env)
    ensures
      var m := MoveOf(t, call, env);
      && (m.Initiate? || m.Respond? ==> m.ephemeral == env.ephemeral)
      && (m.Respond? || m.Complete? ==> Delivered(call) == Some(m.msg))
      && (m.OpenData? ==>
            Delivered(call) == Some(Data(m.receiverIdx, m.counter, m.cipher)) && Before(t, call, env) == CoreOf(t))
  {}

  lemma MoveKeepsParams(c: Core, m: Move)
    requires Enabled(c, m)
    ensures Perform(c, m).0.handshake.params == c.handshake.params
  {}

  /** A move puts what it sends on the wire and draws no ephemeral key but its own. */
  lemma MoveRecords(l: Ledger, side: Side, c: Core, m: Move, ephemeral: nat)
    requires Enabled(c, m) && (m.Initiate? || m.Respond? ==> m.ephemeral == ephemeral)
    ensures
      var l' := LedgerAfter(l, side, c, m);
      && l'.drawn <= l.drawn + {ephemeral}
      && l.wire.Keys <= l'.wire.Keys
      && (Perform(c, m).1.Some? ==> Perform(c, m).1.value in l'.wire)
  {}

  // ---------------------------------------------------------------------------
  // The ledger along a run
  // ---------------------------------------------------------------------------

  /** The tunnel as the move of action `i` finds it. */
  function CoreAt(tr: Trace, i: nat): Core
    requires tr.Shaped() && i < |tr.actions|
  {
    Before(tr.Caller(i), tr.actions[i].call, tr.actions[i].env)
  }

  function MoveAt(tr: Trace, i: nat): Move
    requires tr.Shaped() && i < |tr.actions|
  {
    MoveOf(tr.Caller(i), tr.actions[i].call, tr.actions[i].env)
  }

  ghost predicate InOrder(keys: Keys, k: Schedule, l: Ledger, tunnels: Pair<Tunn>) {
    && AllOk(k, l, Left, CoreOf(tunnels.left), CoreOf(tunnels.right))
    && Configured(keys, Left, tunnels.left.handshake.params)
    && Configured(keys, Right, tunnels.right.handshake.params)
  }

  /** The ephemeral keys still to come were not drawn. */
  ghost predicate Unspent(tr: Trace, i: nat, l: Ledger) {
    forall j :: i <= j < |tr.actions| ==> tr.actions[j].env.ephemeral !in l.drawn
  }

  /** What was sent is on the wire. */
  ghost predicate OnWire(tr: Trace, i: nat, l: Ledger)
    requires tr.Shaped() && i <= |tr.actions|
  {
    forall j :: 0 <= j < i && tr.results[j].WriteToNetwork? && !tr.results[j].datagram.CookieReply? ==>
      tr.results[j].datagram in l.wire
  }

  /** The ledger accounts for the tunnels, for what was sent and for the ephemeral keys still to come. */
  ghost predicate Accounted(keys: Keys, k: Schedule, tr: Trace, i: nat, l: Ledger)
    requires tr.Shaped() && i <= |tr.actions|
  {
    InOrder(keys, k, l, tr.tunnels[i]) && Unspent(tr, i, l) && OnWire(tr, i, l) && l.intact == IndicesKept(tr)
  }

  lemma DeliverableFromRun(tr: Trace, i: nat, l: Ledger, d: Datagram)
    requires tr.Shaped() && i < |tr.actions| && OnWire(tr, i, l)
    requires tr.Delivers(i, d, l.intact)
    ensures Deliverable(l, d)
  {
    if !MadeUp(d) {
      var j :| 0 <= j < i && tr.results[j].WriteToNetwork? && MadeFrom(tr.results[j].datagram, d)
               && (l.intact ==> SameIndices(tr.results[j].datagram, d));
      assert tr.results[j].datagram in l.wire;
    }
  }

  lemma SuppliedByRun(tr: Trace, i: nat, l: Ledger)
    requires tr.Shaped() && i < |tr.actions| && StepOk(tr, i) && Unspent(tr, i, l) && OnWire(tr, i, l)
    requires Dropped(CoreOf(tr.Caller(i)), CoreAt(tr, i)) && l.intact == IndicesKept(tr)
    ensures Supplied(l, CoreAt(tr, i), MoveAt(tr, i))
  {
    var a := tr.actions[i];
    MoveInput(tr.Caller(i), a.call, a.env);
    if Delivered(a.call).Some? {
      assert l.intact ==> KeptAt(tr, i);
      DeliverableFromRun(tr, i, l, Delivered(a.call).value);
    }
  }

  /** The call of action `i` makes its move: the states and the result are the move's. */
  lemma StepIsMove(tr: Trace, i: nat)
    requires tr.Shaped() && i < |tr.actions| && StepOk(tr, i)
    ensures
      var side, c, m := tr.actions[i].side, CoreAt(tr, i), MoveAt(tr, i);
      && Dropped(CoreOf(tr.Caller(i)), c) && Enabled(c, m) && Reports(c, m, tr.results[i])
      && CoreOf(tr.tunnels[i + 1].At(side)) == Perform(c, m).0
      && tr.tunnels[i + 1].At(side.Other()) == tr.tunnels[i].At(side.Other())
  {
    var a := tr.actions[i];
    CallIsMove(tr.Caller(i), a.call, a.dstLen, a.env);
  }

  // ---------------------------------------------------------------------------
  // What a step shows in the ledger
  // ---------------------------------------------------------------------------

  /** The data packet of a session. */
  function Packed(s: Session, counter: ReplayWindow.Counter, plain: Packet): Datagram {
    Data(s.sendingIndex, counter, Seal(s.sender, Number(counter), Payload(plain), Empty))
  }

  /** The result sends the recorded packet, on the session in this slot, which is the recorded half. */
  ghost predicate SealedBy(k: Schedule, ring: Ring, r: TunnResult, slot: nat, nonce: Nonce, record: Sealed) {
    && slot < N_SESSIONS && ring[slot].Some?
    && KeyedBy(k, record.writer, ring[slot].value) && ring[slot].value.sender == nonce.key
    && r == WriteToNetwork(Packed(ring[slot].value, nonce.counter, record.packet))
  }

  /** A data packet that is sent uses a counter never used before under its key. */
  ghost predicate SendsFresh(l: Ledger, l': Ledger, r: TunnResult) {
    r.WriteToNetwork? && r.datagram.Data? ==>
      && r.datagram.cipher.Seal?
      && Nonce(r.datagram.cipher.key, r.datagram.counter) !in l.sealed
      && Nonce(r.datagram.cipher.key, r.datagram.counter) in l'.sealed
  }

  /** The half `writer` is on the other end of the session. */
  ghost predicate WritesTo(k: Schedule, writer: Half, s: Session, intact: bool) {
    && k.send(writer) == s.receiver && k.receive(writer) == s.sender
    && (intact ==> writer.local == s.sendingIndex && writer.peer == s.receivingIndex)
  }

  /** A packet that is handed up was sealed by the other side, for this session, and is accepted for the first time. */
  ghost predicate HandsUpSealed(k: Schedule, l: Ledger, l': Ledger, side: Side, ring: Ring, d: Option<Datagram>,
                                r: TunnResult) {
    r.WriteToTunnel? ==>
      && d.Some? && d.value.Data? && ring[d.value.receiverIdx % N_SESSIONS].Some?
      && var s := ring[d.value.receiverIdx % N_SESSIONS].value;
      && var nonce := Nonce(s.receiver, d.value.counter);
      && nonce in l.sealed && nonce !in l.accepted && nonce in l'.accepted
      && l.sealed[nonce].writer.side == side.Other() && WritesTo(k, l.sealed[nonce].writer, s, l.intact)
      && IpPrefix(l.sealed[nonce].packet, r.packet, r.source)
  }

  /** A move that adds to the sealed counters sends what it adds, on a session of the ring. */
  lemma NewlySealed(k: Schedule, l: Ledger, side: Side, c: Core, m: Move, r: TunnResult, nonce: Nonce)
    returns (slot: nat)
    requires Enabled(c, m) && Reports(c, m, r) && RingOk(k, LedgerAfter(l, side, c, m), side, Perform(c, m).0.ring)
    requires nonce in LedgerAfter(l, side, c, m).sealed && nonce !in l.sealed
    ensures
      var record := LedgerAfter(l, side, c, m).sealed[nonce];
      SealedBy(k, Perform(c, m).0.ring, r, slot, nonce, record) && record.writer.side == side
  {
    if m.SealData? {
      slot := m.slot;
      SealSent(k, l, side, c, m.slot, m.src, nonce);
    } else {
      slot := CompletingHalf(side, c, m.msg).local % N_SESSIONS;
      KeepaliveSent(k, l, side, c, m.msg, nonce);
    }
  }

  lemma SealSent(k: Schedule, l: Ledger, side: Side, c: Core, slot: nat, src: Packet, nonce: Nonce)
    requires Enabled(c, SealData(slot, src))
    requires RingOk(k, AfterSealing(l, side, c, slot, src), side, Sealing(c, slot, src).0.ring)
    requires nonce in AfterSealing(l, side, c, slot, src).sealed && nonce !in l.sealed
    ensures
      var record := AfterSealing(l, side, c, slot, src).sealed[nonce];
      && SealedBy(k, Sealing(c, slot, src).0.ring, WriteToNetwork(Sealing(c, slot, src).1), slot, nonce, record)
      && record.writer.side == side
  {
    assert SlotOk(k, AfterSealing(l, side, c, slot, src), side, Sealing(c, slot, src).0.ring, slot);
  }

  lemma KeepaliveSent(k: Schedule, l: Ledger, side: Side, c: Core, msg: Datagram, nonce: Nonce)
    requires Enabled(c, Complete(msg)) && RingOk(k, AfterCompleting(l, side, c, msg), side, Completing(c, msg).0.ring)
    requires nonce in AfterCompleting(l, side, c, msg).sealed && nonce !in l.sealed
    ensures
      var record := AfterCompleting(l, side, c, msg).sealed[nonce];
      var slot := CompletingHalf(side, c, msg).local % N_SESSIONS;
      && SealedBy(k, Completing(c, msg).0.ring, WriteToNetwork(Completing(c, msg).1), slot, nonce, record)
      && record.writer.side == side
  {
    var slot := CompletingHalf(side, c, msg).local % N_SESSIONS;
    assert SlotOk(k, AfterCompleting(l, side, c, msg), side, Completing(c, msg).0.ring, slot);
  }

  lemma MoveSendsFresh(keys: Keys, k: Schedule, l: Ledger, side: Side, c: Core, other: Core, m: Move, r: TunnResult)
    requires SetUp(keys, k, side, c, other) && AllOk(k, l, side, c, other)
    requires Enabled(c, m) && Supplied(l, c, m) && Reports(c, m, r)
    ensures SendsFresh(l, LedgerAfter(l, side, c, m), r)
  {
    if m.SealData? {
      SealingKeepsOk(k, l, side, c, other, m.slot, m.src);
    } else if m.Complete? {
      CompletedPairs(keys, k, l, side, c, m.msg);
      CompletionRecorded(k, l, CompletingHalf(side, c, m.msg), Completing(c, m.msg).1);
    }
  }

  lemma MoveHandsUpSealed(k: Schedule, l: Ledger, side: Side, c: Core, other: Core, m: Move, r: TunnResult)
    requires Sound(k) && AllOk(k, l, side, c, other)
    requires Enabled(c, m) && Supplied(l, c, m) && Reports(c, m, r)
    ensures
      var d := if m.OpenData? then Some(Data(m.receiverIdx, m.counter, m.cipher)) else None;
      HandsUpSealed(k, l, LedgerAfter(l, side, c, m), side, c.ring, d, r)
  {
    if m.OpenData? {
      var slot := m.receiverIdx % N_SESSIONS;
      var half := l.slots.At(side)[slot];
      assert SlotOk(k, l, side, c.ring, slot);
      OpenedIsAuthentic(k, l, side, c.ring[slot].value, half, m.receiverIdx, m.counter, m.cipher);
      WriterReadsBack(k, l.sealed[Nonce(c.ring[slot].value.receiver, m.counter)].writer, half);
    }
  }

  lemma WriterReadsBack(k: Schedule, writer: Half, reader: Half)
    requires Sound(k) && writer.Faces(reader)
    ensures k.receive(writer) == k.send(reader) && k.receive(reader) == k.send(writer)
  {}

  // ---------------------------------------------------------------------------
  // The ledgers of a run
  // ---------------------------------------------------------------------------

  /** The event sent the recorded packet on the session it left in this slot. */
  ghost predicate SealedIn(k: Schedule, e: Event, slot: nat, nonce: Nonce, record: Sealed) {
    e.side == record.writer.side && SealedBy(k, e.after, e.result, slot, nonce, record)
  }

  ghost predicate NewSealsSent(k: Schedule, e: Event, l: Ledger, l': Ledger) {
    forall nonce :: nonce in l'.sealed && nonce !in l.sealed ==>
      exists slot :: SealedIn(k, e, slot, nonce, l'.sealed[nonce])
  }

  /**
   From one ledger to the next: everything sealed was sent, everything sent is fresh, everything handed up was
   sealed.
   */
  ghost predicate Follows(k: Schedule, e: Event, l: Ledger, l': Ledger) {
    && Extends(l, l')
    && NewSealsSent(k, e, l, l')
    && SendsFresh(l, l', e.result)
    && HandsUpSealed(k, l, l', e.side, e.before, e.delivered, e.result)
  }

  /** A move of either tunnel keeps both in order. */
  lemma MoveKeepsOrder(keys: Keys, k: Schedule, l: Ledger, side: Side, tunnels: Pair<Tunn>, c: Core, m: Move,
                       tunnels': Pair<Tunn>)
    requires keys.Distinct() && Sound(k) && Computes(keys, k) && InOrder(keys, k, l, tunnels)
    requires Dropped(CoreOf(tunnels.At(side)), c) && Enabled(c, m) && Supplied(l, c, m)
    requires CoreOf(tunnels'.At(side)) == Perform(c, m).0 && tunnels'.At(side.Other()) == tunnels.At(side.Other())
    ensures SetUp(keys, k, side, c, CoreOf(tunnels.At(side.Other())))
    ensures AllOk(k, l, side, c, CoreOf(tunnels.At(side.Other())))
    ensures InOrder(keys, k, LedgerAfter(l, side, c, m), tunnels') && Extends(l, LedgerAfter(l, side, c, m))
  {
    DroppingKeepsSide(k, l, side, CoreOf(tunnels.At(side)), c);
    MoveKeepsOk(keys, k, l, side, c, CoreOf(tunnels.At(side.Other())), m);
    MoveKeepsParams(c, m);
  }

  lemma StepKeepsUnspent(keys: Keys, tr: Trace, i: nat, l: Ledger, c: Core, m: Move)
    requires IsRun(keys, tr) && i < |tr.actions| && Unspent(tr, i, l)
    requires Enabled(c, m) && (m.Initiate? || m.Respond? ==> m.ephemeral == tr.actions[i].env.ephemeral)
    ensures Unspent(tr, i + 1, LedgerAfter(l, tr.actions[i].side, c, m))
  {
    var a := tr.actions[i];
    MoveRecords(l, a.side, c, m, a.env.ephemeral);
    forall j | i + 1 <= j < |tr.actions|
      ensures tr.actions[j].env.ephemeral !in LedgerAfter(l, a.side, c, m).drawn
    {
      assert StepOk(tr, j);
    }
  }

  lemma StepKeepsOnWire(tr: Trace, i: nat, l: Ledger, c: Core, m: Move)
    requires tr.Shaped() && i < |tr.actions| && OnWire(tr, i, l)
    requires Enabled(c, m) && Reports(c, m, tr.results[i])
    requires m.Initiate? || m.Respond? ==> m.ephemeral == tr.actions[i].env.ephemeral
    ensures OnWire(tr, i + 1, LedgerAfter(l, tr.actions[i].side, c, m))
  {
    MoveRecords(l, tr.actions[i].side, c, m, tr.actions[i].env.ephemeral);
  }

  lemma MoveSealsSent(k: Schedule, e: Event, l: Ledger, c: Core, m: Move)
    requires Enabled(c, m) && Reports(c, m, e.result) && e.after == Perform(c, m).0.ring
    requires RingOk(k, LedgerAfter(l, e.side, c, m), e.side, Perform(c, m).0.ring)
    ensures NewSealsSent(k, e, l, LedgerAfter(l, e.side, c, m))
  {
    var l' := LedgerAfter(l, e.side, c, m);
    forall nonce | nonce in l'.sealed && nonce !in l.sealed
      ensures exists slot :: SealedIn(k, e, slot, nonce, l'.sealed[nonce])
    {
      var slot := NewlySealed(k, l, e.side, c, m, e.result, nonce);
      assert SealedIn(k, e, slot, nonce, l'.sealed[nonce]);
    }
  }

  /** Each action has a next ledger, which accounts for what it did. */
  lemma NextLedger(keys: Keys, k: Schedule, tr: Trace, i: nat, l: Ledger) returns (l': Ledger)
    requires IsRun(keys, tr) && Sound(k) && Computes(keys, k) && i < |tr.actions| && Accounted(keys, k, tr, i, l)
    ensures Accounted(keys, k, tr, i + 1, l') && Follows(k, EventAt(tr, i), l, l')
  {
    var c, m := CoreAt(tr, i), MoveAt(tr, i);
    assert StepOk(tr, i);
    StepIsMove(tr, i);
    SuppliedByRun(tr, i, l);
    MoveInput(tr.Caller(i), tr.actions[i].call, tr.actions[i].env);
    l' := NextLedgerOf(keys, k, tr, i, l, c, m);
  }

  lemma NextLedgerOf(keys: Keys, k: Schedule, tr: Trace, i: nat, l: Ledger, c: Core, m: Move) returns (l': Ledger)
    requires IsRun(keys, tr) && Sound(k) && Computes(keys, k) && i < |tr.actions| && Accounted(keys, k, tr, i, l)
    requires Dropped(CoreOf(tr.Caller(i)), c) && Enabled(c, m) && Supplied(l, c, m) && Reports(c, m, tr.results[i])
    requires CoreOf(tr.tunnels[i + 1].At(tr.actions[i].side)) == Perform(c, m).0
    requires tr.tunnels[i + 1].At(tr.actions[i].side.Other()) == tr.tunnels[i].At(tr.actions[i].side.Other())
    requires m.Initiate? || m.Respond? ==> m.ephemeral == tr.actions[i].env.ephemeral
    requires m.OpenData? ==>
      Delivered(tr.actions[i].call) == Some(Data(m.receiverIdx, m.counter, m.cipher)) && c == CoreOf(tr.Caller(i))
    ensures Accounted(keys, k, tr, i + 1, l') && Follows(k, EventAt(tr, i), l, l')
  {
    var side := tr.actions[i].side;
    var other := CoreOf(tr.tunnels[i].At(side.Other()));
    l' := LedgerAfter(l, side, c, m);
    MoveKeepsOrder(keys, k, l, side, tr.tunnels[i], c, m, tr.tunnels[i + 1]);
    StepKeepsUnspent(keys, tr, i, l, c, m);
    StepKeepsOnWire(tr, i, l, c, m);
    MoveSealsSent(k, EventAt(tr, i), l, c, m);
    MoveSendsFresh(keys, k, l, side, c, other, m, tr.results[i]);
    MoveHandsUpSealed(k, l, side, c, other, m, tr.results[i]);
  }

  /** One ledger before the first event and one after each, each following from the one before. */
  ghost predicate Ledgers(k: Schedule, es: seq<Event>, ls: seq<Ledger>, intact: bool) {
    && |ls| == |es| + 1
    && ls[0] == EmptyLedger(intact)
    && forall i :: 0 <= i < |es| ==> Follows(k, es[i], ls[i], ls[i + 1])
  }

  lemma FreshIsOk(k: Schedule, side: Side, t: Tunn, intact: bool)
    requires Fresh(t)
    ensures SideOk(k, EmptyLedger(intact), side, CoreOf(t))
  {
    assert forall i :: 0 <= i < N_SESSIONS ==> SlotOk(k, EmptyLedger(intact), side, CoreOf(t).ring, i);
  }

  lemma StartIsAccounted(keys: Keys, k: Schedule, tr: Trace)
    requires IsRun(keys, tr)
    ensures Accounted(keys, k, tr, 0, EmptyLedger(IndicesKept(tr)))
  {
    FreshIsOk(k, Left, tr.tunnels[0].At(Left), IndicesKept(tr));
    FreshIsOk(k, Right, tr.tunnels[0].At(Right), IndicesKept(tr));
  }

  /** The first `n` events of a run. */
  function EventsOf(tr: Trace, n: nat): (es: seq<Event>)
    requires tr.Shaped() && n <= |tr.actions|
    ensures |es| == n && forall i :: 0 <= i < n ==> es[i] == EventAt(tr, i)
  {
    if n == 0 then [] else EventsOf(tr, n - 1) + [EventAt(tr, n - 1)]
  }

  /** Every run has its ledgers. */
  lemma {:induction false} RunHasLedgers(keys: Keys, k: Schedule, tr: Trace, n: nat) returns (ls: seq<Ledger>)
    requires IsRun(keys, tr) && Sound(k) && Computes(keys, k) && n <= |tr.actions|
    ensures Ledgers(k, EventsOf(tr, n), ls, IndicesKept(tr)) && Accounted(keys, k, tr, n, ls[n])
  {
    if n == 0 {
      StartIsAccounted(keys, k, tr);
      ls := [EmptyLedger(IndicesKept(tr))];
    } else {
      ls := RunHasLedgers(keys, k, tr, n - 1);
      var l' := NextLedger(keys, k, tr, n - 1, ls[n - 1]);
      LedgersExtend(k, EventsOf(tr, n - 1), ls, IndicesKept(tr), EventAt(tr, n - 1), l');
      ls := ls + [l'];
    }
  }

  lemma LedgersExtend(k: Schedule, es: seq<Event>, ls: seq<Ledger>, intact: bool, e: Event, l': Ledger)
    requires Ledgers(k, es, ls, intact) && Follows(k, e, ls[|es|], l')
    ensures Ledgers(k, es + [e], ls + [l'], intact)
  {}

  lemma ExtendsTransitively(l: Ledger, l': Ledger, l'': Ledger)
    requires Extends(l, l') && Extends(l', l'')
    ensures Extends(l, l'')
  {}

  lemma {:induction false} LedgersGrow(k: Schedule, es: seq<Event>, ls: seq<Ledger>, intact: bool, i: nat, j: nat)
    requires Ledgers(k, es, ls, intact) && i <= j <= |es|
    ensures Extends(ls[i], ls[j])
  {
    if i < j {
      LedgersGrow(k, es, ls, intact, i, j - 1);
      assert Follows(k, es[j - 1], ls[j - 1], ls[j - 1 + 1]);
      ExtendsTransitively(ls[i], ls[j - 1], ls[j]);
    }
  }

  /** Whatever a ledger holds as sealed, an earlier event sent. */
  lemma {:induction false} SealedEarlier(k: Schedule, es: seq<Event>, ls: seq<Ledger>, intact: bool, i: nat,
                                         nonce: Nonce)
    returns (j: nat, slot: nat)
    requires Ledgers(k, es, ls, intact) && i <= |es| && nonce in ls[i].sealed
    ensures j < i && SealedIn(k, es[j], slot, nonce, ls[i].sealed[nonce])
  {
    assert i > 0;
    j := i - 1;
    assert Follows(k, es[j], ls[j], ls[j + 1]);
    if nonce in ls[j].sealed {
      j, slot := SealedEarlier(k, es, ls, intact, j, nonce);
    } else {
      slot :| SealedIn(k, es[j], slot, nonce, ls[i].sealed[nonce]);
    }
  }

  // ---------------------------------------------------------------------------
  // The theorems
  // ---------------------------------------------------------------------------

  /** Event `e` sent `plain` under `nonce` on the session it left in `slot`. */
  ghost predicate Carries(e: Event, slot: nat, nonce: Nonce, plain: Packet) {
    && slot < N_SESSIONS && e.after[slot].Some? && e.after[slot].value.sender == nonce.key
    && e.result == WriteToNetwork(Packed(e.after[slot].value, nonce.counter, plain))
  }

  lemma EventIsAuthentic(k: Schedule, es: seq<Event>, ls: seq<Ledger>, intact: bool, i: nat)
    returns (j: nat, slot: nat, plain: Packet)
    requires Ledgers(k, es, ls, intact) && i < |es| && es[i].result.WriteToTunnel?
    ensures es[i].Reader().Some? && j < i && es[j].side == es[i].side.Other()
    ensures Carries(es[j], slot, es[i].Opened().value, plain)
    ensures KeysMirrored(es[j].after[slot].value, es[i].Reader().value)
    ensures intact ==> Mirrored(es[j].after[slot].value, es[i].Reader().value)
    ensures IpPrefix(plain, es[i].result.packet, es[i].result.source)
  {
    assert Follows(k, es[i], ls[i], ls[i + 1]);
    var nonce := es[i].Opened().value;
    plain := ls[i].sealed[nonce].packet;
    LedgersGrow(k, es, ls, intact, 0, i);
    j, slot := SealedEarlier(k, es, ls, intact, i, nonce);
  }

  /**
   In every run, each packet handed up is the prefix, of the length in its IP header, of a packet that an
   earlier action of the other side sealed under the same key and counter, on a session with the reading
   session's keys mirrored. Its indices are mirrored too if the network left those of the handshakes alone.
   */
  lemma HandedUpIsAuthentic(keys: Keys, tr: Trace, i: nat) returns (j: nat, slot: nat, plain: Packet)
    requires IsRun(keys, tr) && i < |tr.actions| && tr.results[i].WriteToTunnel?
    ensures EventAt(tr, i).Reader().Some?
    ensures j < i && tr.actions[j].side == tr.actions[i].side.Other()
    ensures Carries(EventAt(tr, j), slot, EventAt(tr, i).Opened().value, plain)
    ensures KeysMirrored(EventAt(tr, j).after[slot].value, EventAt(tr, i).Reader().value)
    ensures IndicesKept(tr) ==> Mirrored(EventAt(tr, j).after[slot].value, EventAt(tr, i).Reader().value)
    ensures IpPrefix(plain, tr.results[i].packet, tr.results[i].source)
  {
    var k := ScheduleIsSound(keys);
    var ls := RunHasLedgers(keys, k, tr, i + 1);
    j, slot, plain := EventIsAuthentic(k, EventsOf(tr, i + 1), ls, IndicesKept(tr), i);
  }

  lemma EventsDiffer(k: Schedule, es: seq<Event>, ls: seq<Ledger>, intact: bool, i: nat, j: nat)
    requires Ledgers(k, es, ls, intact) && i < j < |es|
    ensures es[i].result.WriteToTunnel? && es[j].result.WriteToTunnel? ==>
              es[i].Opened().Some? && es[j].Opened().Some? && es[i].Opened() != es[j].Opened()
    ensures es[i].SendsData() && es[j].SendsData() ==>
              es[i].Used().Some? && es[j].Used().Some? && es[i].Used() != es[j].Used()
  {
    assert Follows(k, es[i], ls[i], ls[i + 1]);
    assert Follows(k, es[j], ls[j], ls[j + 1]);
    LedgersGrow(k, es, ls, intact, i + 1, j);
  }

  /** In every run no key and counter is handed up twice, by either side. */
  lemma HandedUpOnce(keys: Keys, tr: Trace, i: nat, j: nat)
    requires IsRun(keys, tr) && i < j < |tr.actions| && tr.results[i].WriteToTunnel? && tr.results[j].WriteToTunnel?
    ensures EventAt(tr, i).Opened().Some? && EventAt(tr, j).Opened().Some?
    ensures EventAt(tr, i).Opened() != EventAt(tr, j).Opened()
  {
    var k := ScheduleIsSound(keys);
    var ls := RunHasLedgers(keys, k, tr, j + 1);
    EventsDiffer(k, EventsOf(tr, j + 1), ls, IndicesKept(tr), i, j);
  }

  /** In every run no key and counter seals two packets, whichever sides send them. */
  lemma NonceNeverReused(keys: Keys, tr: Trace, i: nat, j: nat)
    requires IsRun(keys, tr) && i < j < |tr.actions|
    requires tr.results[i].WriteToNetwork? && tr.results[i].datagram.Data?
    requires tr.results[j].WriteToNetwork? && tr.results[j].datagram.Data?
    ensures EventAt(tr, i).Used().Some? && EventAt(tr, j).Used().Some? && EventAt(tr, i).Used() != EventAt(tr, j).Used()
  {
    var k := ScheduleIsSound(keys);
    var ls := RunHasLedgers(keys, k, tr, j + 1);
    EventsDiffer(k, EventsOf(tr, j + 1), ls, IndicesKept(tr), i, j);
  }
}
