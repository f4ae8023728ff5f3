/**
 The payment exchange: the server asks, the client signs an authorisation and replies, the server
 checks it. Signatures are functions of which only the laws of `Genuine` are used.
 */
module Payments {
  import opened Wrappers
  import opened BigEndian
  import opened Messages
  import opened Sessions
  import opened Tunnels
  import opened PaymentMessages
  import opened PaymentSignals
  import ReplayWindow

  /** How long an authorisation is valid: four days. */
  const VALIDITY_SECS := 345600
  const DEADLINE_SECS := 300
  const MAX_PAYMENT_PACKET_SIZE := 512

  // ---------------------------------------------------------------------------
  // Signatures
  // ---------------------------------------------------------------------------

  datatype Domain = Domain(chainId: nat, verifyingContract: Bytes)

  datatype Authorization = Authorization(
    from: Bytes, to: Bytes, value: Amount, validAfter: Amount, validBefore: Amount, nonce: Bytes)

  /** What is signed: an authorisation in a domain. */
  datatype Digest = Digest(domain: Domain, auth: Authorization)

  datatype Signed = Signed(v: Byte, r: Bytes, s: Bytes)

  datatype Scheme = Scheme(
    address: nat -> Bytes,
    sign: (nat, Digest) -> Signed,
    recover: (Digest, Signed) -> Option<Bytes>
  )

  /** A signature recovers to its signer for the digest that was signed. */
  ghost predicate Genuine(sc: Scheme) {
    && (forall secret {:trigger sc.address(secret)} :: IsAddress(sc.address(secret)))
    && (forall secret, d {:trigger sc.sign(secret, d)} :: IsWord(sc.sign(secret, d).r) && IsWord(sc.sign(secret, d).s))
    && (forall secret, d {:trigger sc.recover(d, sc.sign(secret, d))} ::
          sc.recover(d, sc.sign(secret, d)) == Some(sc.address(secret)))
  }

  // ---------------------------------------------------------------------------
  // The two sides
  // ---------------------------------------------------------------------------

  datatype Server = Server(secret: nat, amountPerQuota: Amount, chainId: Amount, usdcContract: Bytes, domain: Domain)

  datatype Client = Client(secret: nat, domain: Domain)

  /** The demand that a server sends; the nonce is drawn at random. */
  function Demand(sc: Scheme, server: Server, nonce: Bytes, now: nat): PaymentRequired {
    PaymentRequired(server.amountPerQuota, nonce, sc.address(server.secret), (now + DEADLINE_SECS) % U64,
                    server.chainId, server.usdcContract)
  }

  /** The authorisation that the client signs without being asked. */
  function Reply(sc: Scheme, client: Client, req: PaymentRequired, now: nat): PaymentSubmit {
    var auth := Authorization(sc.address(client.secret), req.recipient, req.amountUsdc, 0, (now + VALIDITY_SECS) % U64,
                              req.nonce);
    var signed := sc.sign(client.secret, Digest(client.domain, auth));
    PaymentSubmit(auth.from, auth.to, auth.value, auth.validAfter, auth.validBefore, auth.nonce, signed.v, signed.r,
                  signed.s)
  }

  /** What becomes of a decapsulated packet on either side. */
  datatype Destination = ToServer(payload: Bytes) | ToClient(payload: Bytes) | Dropped | Ordinary

  function Dispatch(packet: Bytes): Destination {
    if !IsPaymentSignal(packet) then Ordinary
    else
      match ExtractPayload(packet)
      case None => Dropped
      case Some(payload) =>
        if DstIpv4(packet) == Some(GATEWAY) then ToServer(payload)
        else if SrcIpv4(packet) == Some(GATEWAY) then ToClient(payload)
        else Dropped
  }

  /** The client's handler: the reply to a demand, None for anything else. */
  function ClientHandles(sc: Scheme, client: Client, payload: Bytes, now: nat): Option<PaymentSubmit> {
    match DecodeRequired(payload)
    case None => None
    case Some(req) => Some(Reply(sc, client, req, now))
  }

  datatype Verdict =
    | Undecodable
    | WrongRecipient
    | Insufficient
    | Replayed
    | BadSignature
    | SignerMismatch
    | Verified(submit: PaymentSubmit)

  function AuthorizationOf(submit: PaymentSubmit): Authorization {
    Authorization(submit.from, submit.to, submit.value, submit.validAfter, submit.validBefore, submit.nonce)
  }

  /** The server's checks, in order; `used` are the nonces seen before. */
  function Check(sc: Scheme, server: Server, used: set<Bytes>, payload: Bytes): Verdict {
    match DecodeSubmit(payload)
    case None => Undecodable
    case Some(submit) => CheckSubmit(sc, server, used, submit)
  }

  function CheckSubmit(sc: Scheme, server: Server, used: set<Bytes>, submit: PaymentSubmit): Verdict {
    if submit.to != sc.address(server.secret) then WrongRecipient
    else if submit.value < server.amountPerQuota then Insufficient
    else if submit.nonce in used then Replayed
    else
      match sc.recover(Digest(server.domain, AuthorizationOf(submit)), Signed(submit.v, submit.r, submit.s))
      case None => BadSignature
      case Some(signer) => if signer != submit.from then SignerMismatch else Verified(submit)
  }

  // ---------------------------------------------------------------------------
  // Through the tunnel
  // ---------------------------------------------------------------------------

  /**
   What a crossing takes from its surroundings: the sender's address, the receiver's buffer, and both calls'
   clocks.
   */
  datatype Hop = Hop(addr: Option<IpAddr>, dstLen: nat, sending: Env, receiving: Env)

  /** The packet is sealed by one tunnel, in the buffer for payment packets, and opened by the other. */
  function Across(from: Tunn, to: Tunn, packet: Packet, hop: Hop): (Tunn, Tunn, Option<Packet>) {
    var (from', sent) := from.Encapsulate(packet, MAX_PAYMENT_PACKET_SIZE, hop.sending);
    if !sent.WriteToNetwork? then (from', to, None)
    else
      var (to', got) := to.Decapsulate(hop.addr, sent.datagram, hop.dstLen, hop.receiving);
      (from', to', if got.WriteToTunnel? then Some(got.packet) else None)
  }

  /** The session in use lies in the slot of its index. */
  ghost predicate Ready(t: Tunn) {
    && t.CurrentSession().Some? && t.CurrentSession().value.receivingIndex % N_SESSIONS == t.current % N_SESSIONS
    && t.CurrentSession().value.window.Valid()
  }

  /** The next packet of the session in use at one end is acceptable to the session in use at the other. */
  ghost predicate Reaches(from: Tunn, to: Tunn)
    requires Ready(from) && Ready(to)
  {
    var counter, window := from.CurrentSession().value.sendCounter, to.CurrentSession().value.window;
    counter < ReplayWindow.SAFE_COUNTERS && counter !in window.received && counter + ReplayWindow.N_BITS >= window.next
  }

  /** Both ends use mirrored sessions. */
  ghost predicate Joined(t: Tunn, u: Tunn) {
    Ready(t) && Ready(u) && Mirrored(t.CurrentSession().value, u.CurrentSession().value)
  }

  /** What the sender's session becomes, and what it sends. */
  lemma SignalSealed(t: Tunn, packet: Packet, env: Env)
    requires Ready(t) && |packet| + DATA_OVERHEAD_SZ <= MAX_PAYMENT_PACKET_SIZE
    ensures
      var (t', sent) := t.Encapsulate(packet, MAX_PAYMENT_PACKET_SIZE, env);
      var (s, d) := t.CurrentSession().value.FormatPacketData(packet);
      sent == WriteToNetwork(d) && t'.current == t.current && t'.CurrentSession() == Some(s)
  {}

  /** A packet on the session in use is opened, and the session stays in use. */
  lemma SignalOpened(t: Tunn, d: Datagram, s: Session, plain: Packet, t0: Tunn)
    requires Ready(t) && d.Data? && d.receiverIdx == t.CurrentSession().value.receivingIndex
    requires t.CurrentSession().value.ReceivePacketData(d.receiverIdx, d.counter, d.cipher) == Ok((s, plain))
    requires t0 == t.(sessions := t.sessions[d.receiverIdx % N_SESSIONS := Some(s)])
                   .SetCurrentSession(d.receiverIdx).TimerTick(TimeLastPacketReceived)
    ensures t.HandleData(d.receiverIdx, d.counter, d.cipher) == t0.ValidateDecapsulated(plain)
    ensures t0.current % N_SESSIONS == t.current % N_SESSIONS && t0.CurrentSession() == Some(s)
  {}

  /** A signal that is sealed on the mirror of the session in use is handed up whole. */
  lemma SignalRead(s: Session, u: Tunn, src: Bytes, dst: Bytes, payload: Bytes, hop: Hop)
    requires Ready(u) && Mirrored(s, u.CurrentSession().value) && s.sendCounter < ReplayWindow.SAFE_COUNTERS
    requires s.sendCounter !in u.CurrentSession().value.window.received
    requires s.sendCounter + ReplayWindow.N_BITS >= u.CurrentSession().value.window.next
    requires |src| == |dst| == 4 && IP_HEADER + UDP_HEADER + |payload| <= MAX_PACKET
    ensures
      var packet, r := SignalPacket(src, dst, payload), u.CurrentSession().value;
      var (u', got) := u.Decapsulate(hop.addr, s.FormatPacketData(packet).1, hop.dstLen, hop.receiving);
      && got == WriteToTunnel(packet, V4(src)) && u'.current % N_SESSIONS == u.current % N_SESSIONS
      && u'.CurrentSession() == Some(r.(window := r.window.Marked(s.sendCounter)))
  {
    var packet, reader := SignalPacket(src, dst, payload), u.CurrentSession().value;
    var d := s.FormatPacketData(packet).1;
    DeliveredOnce(s, reader, packet);
    var (r, plain) := reader.ReceivePacketData(d.receiverIdx, d.counter, d.cipher).value;
    var u0 := u.(sessions := u.sessions[d.receiverIdx % N_SESSIONS := Some(r)])
              .SetCurrentSession(d.receiverIdx).TimerTick(TimeLastPacketReceived);
    SignalOpened(u, d, r, plain, u0);
    TunnelHandsUpSignal(u0, src, dst, payload);
  }

  /** A signal crosses between joined tunnels unchanged, and the way back stays as open as it was. */
  lemma SignalCrosses(t: Tunn, u: Tunn, src: Bytes, dst: Bytes, payload: Bytes, hop: Hop)
    requires Joined(t, u) && Reaches(t, u) && |src| == |dst| == 4
    requires |payload| + IP_HEADER + UDP_HEADER + DATA_OVERHEAD_SZ <= MAX_PAYMENT_PACKET_SIZE
    ensures
      var packet := SignalPacket(src, dst, payload);
      var (t', u', got) := Across(t, u, packet, hop);
      got == Some(packet) && Joined(t', u') && (Reaches(u, t) ==> Reaches(u', t'))
  {
    PacketBytes(src, dst, payload);
    SignalSealed(t, SignalPacket(src, dst, payload), hop.sending);
    SignalRead(t.CurrentSession().value, u, src, dst, payload, hop);
  }

  // ---------------------------------------------------------------------------
  // The exchange
  // ---------------------------------------------------------------------------

  lemma SignalArrives(src: Bytes, dst: Bytes, payload: Bytes)
    requires |src| == |dst| == 4 && IP_HEADER + UDP_HEADER + |payload| <= MAX_PACKET
    ensures dst == GATEWAY ==> Dispatch(SignalPacket(src, dst, payload)) == ToServer(payload)
    ensures src == GATEWAY && dst != GATEWAY ==> Dispatch(SignalPacket(src, dst, payload)) == ToClient(payload)
  {
    SignalReadsBack(src, dst, payload);
  }

  lemma MessageSizes(req: PaymentRequired, submit: PaymentSubmit)
    requires req.Valid() && submit.Valid()
    ensures |req.Encode()| == 99 && |submit.Encode()| == 164
  {
    req.PartsSized();
    CutsJoined(req.Parts(), REQUIRED_WIDTHS, []);
    submit.PartsSized();
    CutsJoined(submit.Parts(), SUBMIT_WIDTHS, []);
  }

  /** The packets of the exchange fit the buffers they are sealed in. */
  lemma SignalsFit(req: PaymentRequired, submit: PaymentSubmit)
    requires req.Valid() && submit.Valid()
    ensures |req.Encode()| + IP_HEADER + UDP_HEADER + DATA_OVERHEAD_SZ <= MAX_PAYMENT_PACKET_SIZE
    ensures |submit.Encode()| + IP_HEADER + UDP_HEADER + DATA_OVERHEAD_SZ <= MAX_PAYMENT_PACKET_SIZE
  {
    MessageSizes(req, submit);
  }

  lemma DemandArrives(sc: Scheme, server: Server, nonce: Bytes, peerIp: Bytes, now: nat)
    requires Genuine(sc) && IsWord(nonce) && IsAddress(server.usdcContract) && |peerIp| == 4 && peerIp != GATEWAY
    ensures
      var req := Demand(sc, server, nonce, now);
      && req.Valid() && |req.Encode()| == 99
      && Dispatch(SignalPacket(GATEWAY, peerIp, req.Encode())) == ToClient(req.Encode())
      && DecodeRequired(req.Encode()) == Some(req)
  {
    var req := Demand(sc, server, nonce, now);
    req.PartsSized();
    CutsJoined(req.Parts(), REQUIRED_WIDTHS, []);
    SignalArrives(GATEWAY, peerIp, req.Encode());
    RequiredReadsBack(req, []);
    assert req.Encode() + [] == req.Encode();
  }

  lemma ReplyArrives(submit: PaymentSubmit, clientIp: Bytes)
    requires submit.Valid() && |clientIp| == 4
    ensures |submit.Encode()| == 164
    ensures Dispatch(SignalPacket(clientIp, GATEWAY, submit.Encode())) == ToServer(submit.Encode())
    ensures DecodeSubmit(submit.Encode()) == Some(submit)
  {
    submit.PartsSized();
    CutsJoined(submit.Parts(), SUBMIT_WIDTHS, []);
    SignalArrives(clientIp, GATEWAY, submit.Encode());
    SubmitReadsBack(submit, []);
    assert submit.Encode() + [] == submit.Encode();
  }

  /** The client's signature, made in the client's domain, recovers to the client in this domain. */
  predicate Recovers(sc: Scheme, domain: Domain, client: Client, submit: PaymentSubmit) {
    var auth := AuthorizationOf(submit);
    var signed := sc.sign(client.secret, Digest(client.domain, auth));
    sc.recover(Digest(domain, auth), signed) == Some(sc.address(client.secret))
  }

  /**
   From the server's demand to the server's checks, through a pair of joined tunnels: the client's automatic
   reply to a demand with a fresh nonce passes every check exactly when the client's signature recovers to the
   client in the server's signing domain; so it does whenever both sides are configured for the same domain.
   */
  lemma ExchangeSucceeds(sc: Scheme, server: Server, client: Client, nonce: Bytes, peerIp: Bytes, clientIp: Bytes,
                         now: nat, later: nat, used: set<Bytes>, t: Tunn, u: Tunn, there: Hop, back: Hop)
    requires Genuine(sc) && IsWord(nonce) && nonce !in used && IsAddress(server.usdcContract)
    requires |peerIp| == |clientIp| == 4 && peerIp != GATEWAY
    requires Joined(t, u) && Reaches(t, u) && Reaches(u, t)
    ensures
      var req := Demand(sc, server, nonce, now);
      && req.Valid() && |req.Encode()| == 99
      && var (t', u', demand) := Across(t, u, SignalPacket(GATEWAY, peerIp, req.Encode()), there);
      && demand.Some? && Dispatch(demand.value).ToClient?
      && var reply := ClientHandles(sc, client, Dispatch(demand.value).payload, later);
      && reply.Some? && reply.value.Valid() && |reply.value.Encode()| == 164
      && var submit := Across(u', t', SignalPacket(clientIp, GATEWAY, reply.value.Encode()), back).2;
      && submit.Some? && Dispatch(submit.value).ToServer?
      && var verdict := Check(sc, server, used, Dispatch(submit.value).payload);
      && (verdict == Verified(reply.value) <==> Recovers(sc, server.domain, client, reply.value))
      && (client.domain == server.domain ==> verdict == Verified(reply.value))
  {
    var req := Demand(sc, server, nonce, now);
    DemandArrives(sc, server, nonce, peerIp, now);
    var reply := Reply(sc, client, req, later);
    ReplyArrives(reply, clientIp);
    SignalsFit(req, reply);
    SignalCrosses(t, u, GATEWAY, peerIp, req.Encode(), there);
    var (t', u', _) := Across(t, u, SignalPacket(GATEWAY, peerIp, req.Encode()), there);
    SignalCrosses(u', t', clientIp, GATEWAY, reply.Encode(), back);
    ReplyChecked(sc, server, client, req, later, used);
  }

  lemma ReplyChecked(sc: Scheme, server: Server, client: Client, req: PaymentRequired, later: nat, used: set<Bytes>)
    requires Genuine(sc) && req.Valid() && req.nonce !in used
    requires req.recipient == sc.address(server.secret) && req.amountUsdc == server.amountPerQuota
    requires Reply(sc, client, req, later).Valid()
    requires DecodeSubmit(Reply(sc, client, req, later).Encode()) == Some(Reply(sc, client, req, later))
    ensures Check(sc, server, used, Reply(sc, client, req, later).Encode()) == Verified(Reply(sc, client, req, later))
       <==> Recovers(sc, server.domain, client, Reply(sc, client, req, later))
    ensures client.domain == server.domain ==> Recovers(sc, server.domain, client, Reply(sc, client, req, later))
  {
    var submit := Reply(sc, client, req, later);
    var signed := sc.sign(client.secret, Digest(client.domain, AuthorizationOf(submit)));
    assert Signed(submit.v, submit.r, submit.s) == signed;
  }
}
