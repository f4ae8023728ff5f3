/**
 The peers of a device and the three tables that find them: by public key, by index and by network. A
 datagram finds its peer by the index it is addressed to.
 */
module Devices {
  import opened Wrappers
  import opened Crypto
  import opened Messages
  import opened Handshakes
  import opened RateLimiters
  import opened Tunnels
  import opened TunnelMoves
  import opened IndexLfsrs

  // ---------------------------------------------------------------------------
  // The indices of a peer
  // ---------------------------------------------------------------------------

  /** The peer that an index belongs to: its upper 24 bits. */
  function PeerOf(index: Index32): nat {
    index / 256
  }

  predicate StateOwned(state: HandshakeState, peer: nat) {
    state.InitSent? ==> PeerOf(state.sent.localIndex) == peer
  }

  predicate HandshakeOwned(h: Handshake, peer: nat) {
    && PeerOf(h.nextIndex) == peer && StateOwned(h.state, peer) && StateOwned(h.previous, peer)
    && (h.cookies.lastMac1.Some? ==> PeerOf(h.cookies.index) == peer)
  }

  predicate RingOwned(ring: Ring, peer: nat) {
    forall i :: 0 <= i < N_SESSIONS && ring[i].Some? ==> PeerOf(ring[i].value.receivingIndex) == peer
  }

  /** Every index that the tunnel uses is one of its peer's. */
  predicate Owned(t: Tunn, peer: nat) {
    HandshakeOwned(t.handshake, peer) && RingOwned(t.sessions, peer)
  }

  /** The tunnel waits for a message to this index: a response, a cookie or data. */
  predicate Listens(t: Tunn, index: Index32) {
    || (t.handshake.state.InitSent? && t.handshake.state.sent.localIndex == index)
    || (t.handshake.previous.InitSent? && t.handshake.previous.sent.localIndex == index)
    || (t.handshake.cookies.lastMac1.Some? && t.handshake.cookies.index == index)
    || (t.sessions[index % N_SESSIONS].Some? && t.sessions[index % N_SESSIONS].value.receivingIndex == index)
  }

  lemma NextIndexOwned(index: Index32)
    ensures PeerOf(IncIndex(index)) == PeerOf(index)
  {}

  lemma InitiationOwned(t: Tunn, peer: nat, dstLen: nat, force: bool, env: Env)
    requires Owned(t, peer)
    ensures Owned(t.FormatHandshakeInitiation(dstLen, force, env).0, peer)
  {
    NextIndexOwned(t.handshake.nextIndex);
  }

  lemma EncapsulateOwned(t: Tunn, peer: nat, src: Packet, dstLen: nat, env: Env)
    requires Owned(t, peer)
    ensures Owned(t.Encapsulate(src, dstLen, env).0, peer)
  {
    InitiationOwned(t.Queued(src), peer, dstLen, false, env);
  }

  lemma ResponderOwned(t: Tunn, peer: nat, msg: Datagram, dstLen: nat, env: Env)
    requires Owned(t, peer) && msg.HandshakeInit?
    ensures Owned(t.HandleHandshakeInit(msg, dstLen, env).0, peer)
  {
    NextIndexOwned(t.handshake.nextIndex);
  }

  lemma InitiatorOwned(t: Tunn, peer: nat, msg: Datagram, dstLen: nat)
    requires Owned(t, peer) && msg.HandshakeResponse?
    ensures Owned(t.HandleHandshakeResponse(msg, dstLen).0, peer)
  {}

  lemma CookieOwned(t: Tunn, peer: nat, msg: Datagram)
    requires Owned(t, peer) && msg.CookieReply?
    ensures Owned(t.HandleCookieReply(msg).0, peer)
  {}

  lemma DataOwned(t: Tunn, peer: nat, idx: Index32, counter: ReplayWindow.Counter, cipher: Term)
    requires Owned(t, peer)
    ensures Owned(t.HandleData(idx, counter, cipher).0, peer)
  {}

  lemma ReceivedOwned(t: Tunn, peer: nat, d: Datagram, dstLen: nat, env: Env)
    requires Owned(t, peer)
    ensures Owned(t.HandleVerifiedPacket(d, dstLen, env).0, peer)
  {
    match d
    case HandshakeInit(_, _, _, _, _, _) => ResponderOwned(t, peer, d, dstLen, env);
    case HandshakeResponse(_, _, _, _, _, _) => InitiatorOwned(t, peer, d, dstLen);
    case CookieReply(_, _, _) => CookieOwned(t, peer, d);
    case Data(idx, counter, cipher) => DataOwned(t, peer, idx, counter, cipher);
    case Malformed =>
  }

  lemma DecisionOwned(t: Tunn, peer: nat, now: nat, late: nat)
    requires Owned(t, peer)
    ensures Owned(t.Decide(now, late).0, peer)
  {}

  lemma TimersOwned(t: Tunn, peer: nat, dstLen: nat, env: Env)
    requires Owned(t, peer)
    ensures Owned(t.UpdateTimers(dstLen, env).0, peer)
  {
    var now := t.timers.Since(env.now);
    var t0 := t.Awake(env).DropOldCookie(now);
    assert Owned(t0, peer);
    DecisionOwned(t0, peer, now, env.late);
    var (t', decision) := t0.Decide(now, env.late);
    if decision.Initiate? {
      InitiationOwned(t', peer, dstLen, true, env);
    } else if decision.Keepalive? {
      EncapsulateOwned(t', peer, [], dstLen, env);
    }
  }

  /** No call on a tunnel makes it use an index of another peer. */
  lemma CallOwned(t: Tunn, peer: nat, call: Call, dstLen: nat, env: Env)
    requires Owned(t, peer)
    ensures Owned(TunnelMoves.Apply(t, call, dstLen, env).0, peer)
  {
    match call
    case Send(src) => EncapsulateOwned(t, peer, src, dstLen, env);
    case Flush =>
      if t.queue != [] {
        EncapsulateOwned(t.(queue := t.queue[1..]), peer, t.queue[0], dstLen, env);
      }
    case Receive(addr, d) =>
      ReceivedOwned(t.(limiter := t.limiter.VerifyPacket(addr, d, env.now).0), peer, d, dstLen, env);
    case ReceiveVerified(d) => ReceivedOwned(t, peer, d, dstLen, env);
    case RunTimers => TimersOwned(t, peer, dstLen, env);
    case StartHandshake(force) => InitiationOwned(t, peer, dstLen, force, env);
  }

  lemma NewOwned(staticPrivate: nat, peerStaticPublic: Term, psk: Option<Term>, keepalive: nat, index: nat,
                 limiter: Limiter, ownLimiter: bool, stampOffset: nat, clock: nat)
    requires index < 0x100_0000
    ensures
      var t := NewTunn(staticPrivate, peerStaticPublic, psk, keepalive, index, limiter, ownLimiter, stampOffset, clock);
      Owned(t, index)
  {}

  // ---------------------------------------------------------------------------
  // The tables
  // ---------------------------------------------------------------------------

  /** A network, with the bits after the prefix cleared. */
  datatype Net = Net(addr: IpAddr, cidr: nat)

  class Peer {
    const key: Term
    const index: nat
    const allowedIps: seq<Net>
    var tunn: Tunn

    constructor (key: Term, index: nat, allowedIps: seq<Net>, tunn: Tunn)
      ensures this.key == key && this.index == index && this.allowedIps == allowedIps && this.tunn == tunn
    {
      this.key, this.index, this.allowedIps, this.tunn := key, index, allowedIps, tunn;
    }
  }

  /** How an update of a peer ends; the last three abort the program. */
  datatype Update = Updated | ExistingPeer | TooManyPeers | NoPrivateKey

  /** What a new tunnel takes from its surroundings. */
  datatype Setup = Setup(keepalive: nat, psk: Option<Term>, limiter: Limiter, stampOffset: nat, clock: nat)

  method NewPeer(key: Term, private: nat, index: nat, allowedIps: seq<Net>, setup: Setup) returns (peer: Peer)
    requires index < 0x100_0000
    ensures fresh(peer) && peer.key == key && peer.index == index && peer.allowedIps == allowedIps
    ensures Owned(peer.tunn, index)
  {
    var tunn := NewTunn(private, key, setup.psk, setup.keepalive, index, setup.limiter, true, setup.stampOffset,
                        setup.clock);
    NewOwned(private, key, setup.psk, setup.keepalive, index, setup.limiter, true, setup.stampOffset, setup.clock);
    peer := new Peer(key, index, allowedIps, tunn);
  }

  // --- agreement of the tables ---

  type ByKey = map<Term, Peer>
  type ByIdx = map<nat, Peer>
  type ByIp = map<Net, Peer>

  predicate Live(peers: ByKey, p: Peer) {
    p.key in peers && peers[p.key] == p
  }

  /** The three tables hold the same peers, each under its own key, its own index and its own networks. */
  ghost predicate Agree(peers: ByKey, byIdx: ByIdx, byIp: ByIp) {
    && (forall k {:trigger peers[k].key} {:trigger peers[k].index} :: k in peers ==>
          peers[k].key == k && peers[k].index in byIdx && byIdx[peers[k].index] == peers[k])
    && (forall i {:trigger byIdx[i]} :: i in byIdx ==> byIdx[i].index == i && Live(peers, byIdx[i]))
    && (forall n {:trigger byIp[n]} :: n in byIp ==> Live(peers, byIp[n]) && n in byIp[n].allowedIps)
  }

  function WithoutPeer(byIp: ByIp, peer: Peer): ByIp {
    map n | n in byIp && byIp[n] != peer :: byIp[n]
  }

  lemma RemovalAgrees(peers: ByKey, byIdx: ByIdx, byIp: ByIp, key: Term)
    requires Agree(peers, byIdx, byIp) && key in peers
    ensures Agree(peers - {key}, byIdx - {peers[key].index}, WithoutPeer(byIp, peers[key]))
  {
    var peer := peers[key];
    var (peers', byIdx', byIp') := (peers - {key}, byIdx - {peer.index}, WithoutPeer(byIp, peer));
    forall k | k in peers'
      ensures peers'[k].key == k && peers'[k].index in byIdx' && byIdx'[peers'[k].index] == peers'[k]
    {
      assert peers[k].key == k && byIdx[peers[k].index] == peers[k] && byIdx[peer.index] == peer;
    }
    forall i | i in byIdx'
      ensures byIdx'[i].index == i && Live(peers', byIdx'[i])
    {
      assert byIdx[i].index == i && Live(peers, byIdx[i]);
    }
  }

  /** The networks of a peer, entered one after the other; an earlier owner of a network loses it. */
  function WithPeer(byIp: ByIp, nets: seq<Net>, peer: Peer): ByIp {
    if nets == [] then byIp
    else WithPeer(byIp, nets[..|nets| - 1], peer)[nets[|nets| - 1] := peer]
  }

  lemma {:induction false} WithPeerEntries(byIp: ByIp, nets: seq<Net>, peer: Peer)
    ensures forall n :: n in WithPeer(byIp, nets, peer) <==> n in byIp || n in nets
    ensures forall n :: n in WithPeer(byIp, nets, peer) ==>
              WithPeer(byIp, nets, peer)[n] == if n in nets then peer else byIp[n]
  {
    if nets != [] {
      WithPeerEntries(byIp, nets[..|nets| - 1], peer);
      assert nets == nets[..|nets| - 1] + [nets[|nets| - 1]];
    }
  }

  method EnterNetworks(byIp: ByIp, nets: seq<Net>, peer: Peer) returns (entered: ByIp)
    ensures entered == WithPeer(byIp, nets, peer)
  {
    entered := byIp;
    for i := 0 to |nets|
      invariant entered == WithPeer(byIp, nets[..i], peer)
    {
      assert nets[..i + 1][..i] == nets[..i];
      entered := entered[nets[i] := peer];
    }
    assert nets[..|nets|] == nets;
  }

  lemma AdditionAgrees(peers: ByKey, byIdx: ByIdx, byIp: ByIp, peer: Peer)
    requires Agree(peers, byIdx, byIp) && peer.key !in peers && peer.index !in byIdx
    ensures Agree(peers[peer.key := peer], byIdx[peer.index := peer], WithPeer(byIp, peer.allowedIps, peer))
  {
    WithPeerEntries(byIp, peer.allowedIps, peer);
    var (peers', byIdx', byIp') := (peers[peer.key := peer], byIdx[peer.index := peer],
                                    WithPeer(byIp, peer.allowedIps, peer));
    forall i | i in byIdx'
      ensures byIdx'[i].index == i && Live(peers', byIdx'[i])
    {
      if i != peer.index {
        assert Live(peers, byIdx[i]);
      }
    }
  }

  /** Live peers have different indices, so an index finds the one peer it belongs to. */
  lemma IndexFindsPeer(peers: ByKey, byIdx: ByIdx, byIp: ByIp, index: nat, p: Peer)
    requires Agree(peers, byIdx, byIp) && Live(peers, p) && p.index == index
    ensures index in byIdx && byIdx[index] == p
  {
    assert peers[p.key] == p;
  }

  ghost predicate AllOwned(peers: ByKey)
    reads peers.Values
  {
    forall k {:trigger peers[k].tunn} :: k in peers ==> Owned(peers[k].tunn, peers[k].index)
  }

  /** The index was handed out by the generator. */
  ghost predicate Issued(seed: Register, mask: Register, count: nat, index: nat)
    requires Fits24(seed) && mask <= LFSR_MAX
  {
    exists j :: 0 <= j < count && index == IndexLfsrs.IndexAt(seed, mask, j)
  }

  ghost predicate AllIssued(seed: Register, mask: Register, count: nat, byIdx: ByIdx)
    requires Fits24(seed) && mask <= LFSR_MAX
  {
    forall i :: i in byIdx ==> Issued(seed, mask, count, i)
  }

  /** The next index is none of those handed out before. */
  lemma NewIndexIsFresh(seed: Register, mask: Register, count: nat, byIdx: ByIdx, peer: Peer)
    requires Fits24(seed) && mask <= LFSR_MAX && IndexLfsrs.Open(seed, count + 1) && AllIssued(seed, mask, count, byIdx)
    requires peer.index == IndexLfsrs.IndexAt(seed, mask, count)
    ensures peer.index !in byIdx
    ensures AllIssued(seed, mask, count + 1, byIdx[peer.index := peer])
  {
    forall j | 0 <= j < count
      ensures IndexLfsrs.IndexAt(seed, mask, j) != IndexLfsrs.IndexAt(seed, mask, count)
    {
      IndicesDistinct(seed, mask, count + 1, j, count);
    }
  }

  // --- the device ---

  class Device {
    const lfsr: IndexLfsr
    var keyPair: Option<nat>
    var peers: ByKey
    var peersByIdx: ByIdx
    var peersByIp: ByIp

    ghost predicate Valid()
      reads this, lfsr, peers.Values
    {
      && lfsr.Valid()
      && Agree(peers, peersByIdx, peersByIp)
      && AllIssued(lfsr.initial, lfsr.mask, lfsr.count, peersByIdx)
      && AllOwned(peers)
    }

    constructor (seed: Register, mask: Register)
      requires Fits24(seed) && Fits24(mask)
      ensures Valid() && fresh(lfsr) && peers == map[] && keyPair == None
    {
      lfsr := new IndexLfsr(seed, mask);
      keyPair, peers, peersByIdx, peersByIp := None, map[], map[], map[];
    }

    method RemovePeer(key: Term)
      requires Valid()
      modifies this`peers, this`peersByIdx, this`peersByIp
      ensures Valid() && peers == old(peers) - {key}
      ensures peersByIp == if key in old(peers) then WithoutPeer(old(peersByIp), old(peers)[key]) else old(peersByIp)
    {
      if key in peers {
        RemovalAgrees(peers, peersByIdx, peersByIp, key);
        var peer := peers[key];
        peers := peers - {key};
        peersByIdx := peersByIdx - {peer.index};
        peersByIp := WithoutPeer(peersByIp, peer);
      }
    }

    method ClearPeers()
      requires Valid()
      modifies this`peers, this`peersByIdx, this`peersByIp
      ensures Valid() && peers == map[] && peersByIdx == map[] && peersByIp == map[]
    {
      peers, peersByIdx, peersByIp := map[], map[], map[];
    }

    /** The order of the checks is the order of the aborts. */
    method UpdatePeer(key: Term, remove: bool, allowedIps: seq<Net>, setup: Setup) returns (r: Update)
      requires Valid()
      modifies this`peers, this`peersByIdx, this`peersByIp, lfsr
      ensures remove ==> r == Updated && Valid() && peers == old(peers) - {key}
      ensures !remove ==>
        r == if key in old(peers) then ExistingPeer
             else if Nth(lfsr.initial, old(lfsr.count) + 1) == lfsr.initial then TooManyPeers
             else if keyPair.None? then NoPrivateKey
             else Updated
      ensures !remove && r == Updated ==>
        && Valid() && key in peers && fresh(peers[key]) && peers == old(peers)[key := peers[key]]
        && peers[key].index !in old(peersByIdx) && peers[key].allowedIps == allowedIps
        && peersByIp == WithPeer(old(peersByIp), allowedIps, peers[key])
    {
      if remove {
        RemovePeer(key);
        return Updated;
      }
      if key in peers {
        return ExistingPeer;
      }
      var next := lfsr.Next();
      if next.None? {
        return TooManyPeers;
      }
      if keyPair.None? {
        return NoPrivateKey;
      }
      AddPeer(key, keyPair.value, next.value, allowedIps, setup);
      return Updated;
    }

    method AddPeer(key: Term, private: nat, index: nat, allowedIps: seq<Net>, setup: Setup)
      requires lfsr.Valid() && Agree(peers, peersByIdx, peersByIp) && AllOwned(peers) && key !in peers
      requires lfsr.count > 0 && AllIssued(lfsr.initial, lfsr.mask, lfsr.count - 1, peersByIdx)
      requires index == IndexLfsrs.IndexAt(lfsr.initial, lfsr.mask, lfsr.count - 1)
      modifies this`peers, this`peersByIdx, this`peersByIp
      ensures Valid() && key in peers && fresh(peers[key]) && peers == old(peers)[key := peers[key]]
      ensures peers[key].index !in old(peersByIdx) && peers[key].allowedIps == allowedIps
      ensures peersByIp == WithPeer(old(peersByIp), allowedIps, peers[key])
    {
      var peer := NewPeer(key, private, index, allowedIps, setup);
      NewIndexIsFresh(lfsr.initial, lfsr.mask, lfsr.count - 1, peersByIdx, peer);
      AdditionAgrees(peers, peersByIdx, peersByIp, peer);
      var entered := EnterNetworks(peersByIp, allowedIps, peer);
      peers, peersByIdx, peersByIp := peers[key := peer], peersByIdx[index := peer], entered;
      assert AllOwned(peers);
    }

    /**
     The peer that a checked datagram is for. A response, a cookie or a data packet finds the live peer
     whose index it carries, and so every peer that listens to its full index; an initiation finds the
     peer whose key it proves.
     */
    method FindPeer(d: Datagram, private: nat) returns (p: Peer?)
      requires Valid()
      ensures p != null ==> Live(peers, p)
      ensures d.HandshakeResponse? || d.CookieReply? || d.Data? ==>
        && (p != null ==> p.index == PeerOf(d.receiverIdx))
        && (forall q: Peer :: Live(peers, q) && q.index == PeerOf(d.receiverIdx) ==> p == q)
        && (forall q: Peer :: Live(peers, q) && Listens(q.tunn, d.receiverIdx) ==> p == q)
      ensures d.HandshakeInit? ==>
        var parsed := ParseHandshakeAnon(private, d);
        if parsed.Ok? && parsed.value.1 in peers then p == peers[parsed.value.1] else p == null
      ensures d.Malformed? ==> p == null
    {
      p := null;
      match d {
        case HandshakeInit(_, _, _, _, _, _) =>
          var parsed := ParseHandshakeAnon(private, d);
          if parsed.Ok? && parsed.value.1 in peers {
            p := peers[parsed.value.1];
          }
        case HandshakeResponse(_, receiverIdx, _, _, _, _) => p := ByIndex(receiverIdx);
        case CookieReply(receiverIdx, _, _) => p := ByIndex(receiverIdx);
        case Data(receiverIdx, _, _) => p := ByIndex(receiverIdx);
        case Malformed =>
      }
    }

    method ByIndex(receiverIdx: Index32) returns (p: Peer?)
      requires Valid()
      ensures p != null ==> Live(peers, p) && p.index == PeerOf(receiverIdx)
      ensures forall q: Peer :: Live(peers, q) && q.index == PeerOf(receiverIdx) ==> p == q
      ensures forall q: Peer :: Live(peers, q) && Listens(q.tunn, receiverIdx) ==> p == q
    {
      p := if receiverIdx / 256 in peersByIdx then peersByIdx[receiverIdx / 256] else null;
      forall q: Peer | Live(peers, q) && q.index == PeerOf(receiverIdx)
        ensures p == q
      {
        IndexFindsPeer(peers, peersByIdx, peersByIp, PeerOf(receiverIdx), q);
      }
      forall q: Peer | Live(peers, q) && Listens(q.tunn, receiverIdx)
        ensures q.index == PeerOf(receiverIdx)
      {
        assert Owned(peers[q.key].tunn, peers[q.key].index);
      }
    }

    /** A call on the tunnel of one live peer; the tables stay as they are, and so do all other tunnels. */
    method CallTunnel(p: Peer, call: Call, dstLen: nat, env: Env) returns (r: TunnResult)
      requires Valid() && Live(peers, p)
      modifies p`tunn
      ensures Valid() && (p.tunn, r) == TunnelMoves.Apply(old(p.tunn), call, dstLen, env)
    {
      CallOwned(p.tunn, p.index, call, dstLen, env);
      var (t, result) := TunnelMoves.Apply(p.tunn, call, dstLen, env);
      p.tunn := t;
      r := result;
    }
  }
}
