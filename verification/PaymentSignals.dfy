/**
 Payment messages on their way: in an IPv4/UDP packet to or from a virtual address, through the tunnel.
 */
module PaymentSignals {
  import opened Wrappers
  import opened BigEndian
  import opened IpChecksums
  import opened Messages
  import opened Tunnels

  /** 169.254.254.1 */
  const GATEWAY: Bytes := [169, 254, 254, 1]
  const PAYMENT_PORT := 7078
  const IP_HEADER := 20
  const UDP_HEADER := 8
  const MAX_PACKET := 0xffff

  function Be16(n: nat): Bytes
    requires n <= 0xffff
  {
    [n / 256, n % 256]
  }

  // ---------------------------------------------------------------------------
  // Building
  // ---------------------------------------------------------------------------

  /** The IPv4 header with a zeroed checksum: version 4, five words, do not fragment, 64 hops, UDP. */
  function BareHeader(src: Bytes, dst: Bytes, total: nat): (h: Bytes)
    requires |src| == |dst| == 4 && total <= MAX_PACKET
    ensures |h| == IP_HEADER
  {
    [0x45, 0] + Be16(total) + [0, 0, 0x40, 0, 64, 17, 0, 0] + src + dst
  }

  function UdpHeader(len: nat): (h: Bytes)
    requires len <= MAX_PACKET
    ensures |h| == UDP_HEADER
  {
    Be16(PAYMENT_PORT) + Be16(PAYMENT_PORT) + Be16(len) + [0, 0]
  }

  function SignalPacket(src: Bytes, dst: Bytes, payload: Bytes): (p: Bytes)
    requires |src| == |dst| == 4 && IP_HEADER + UDP_HEADER + |payload| <= MAX_PACKET
    ensures |p| == IP_HEADER + UDP_HEADER + |payload|
  {
    WithChecksum(BareHeader(src, dst, IP_HEADER + UDP_HEADER + |payload|), 5)
    + UdpHeader(UDP_HEADER + |payload|) + payload
  }

  // ---------------------------------------------------------------------------
  // Taking apart
  // ---------------------------------------------------------------------------

  predicate IsPaymentSignal(packet: Bytes) {
    |packet| >= 20 && packet[0] / 16 == 4 && (packet[12..16] == GATEWAY || packet[16..20] == GATEWAY)
  }

  function ExtractPayload(packet: Bytes): Option<Bytes> {
    if |packet| < 20 then None
    else
      var ihl := packet[0] % 16 * 4;
      if packet[9] != 17 || |packet| < ihl + 8 then None
      else
        var udpLen := FromBe16(packet[ihl + 4], packet[ihl + 5]);
        if udpLen < 8 || |packet| < ihl + udpLen then None else Some(packet[ihl + 8..ihl + udpLen])
  }

  function SrcIpv4(packet: Bytes): Option<Bytes> {
    if |packet| < 20 then None else Some(packet[12..16])
  }

  function DstIpv4(packet: Bytes): Option<Bytes> {
    if |packet| < 20 then None else Some(packet[16..20])
  }

  // ---------------------------------------------------------------------------
  // There and back
  // ---------------------------------------------------------------------------

  /** The bytes of a packet that its readers look at. */
  lemma PacketBytes(src: Bytes, dst: Bytes, payload: Bytes)
    requires |src| == |dst| == 4 && IP_HEADER + UDP_HEADER + |payload| <= MAX_PACKET
    ensures
      var p := SignalPacket(src, dst, payload);
      && p[0] == 0x45 && FromBe16(p[2], p[3]) == |p| && p[9] == 17
      && p[12..16] == src && p[16..20] == dst
      && FromBe16(p[24], p[25]) == 8 + |payload| && p[28..] == payload
  {
    var total := IP_HEADER + UDP_HEADER + |payload|;
    var bare := BareHeader(src, dst, total);
    var p := SignalPacket(src, dst, payload);
    assert bare[12..16] == src && bare[16..20] == dst;
    assert forall i :: 12 <= i < 20 ==> p[i] == bare[i];
    assert p[12..16] == bare[12..16] && p[16..20] == bare[16..20];
  }

  /** A packet that is built is recognised as a signal, and taken apart into what it was built from. */
  lemma SignalReadsBack(src: Bytes, dst: Bytes, payload: Bytes)
    requires |src| == |dst| == 4 && IP_HEADER + UDP_HEADER + |payload| <= MAX_PACKET
    ensures
      var p := SignalPacket(src, dst, payload);
      && (IsPaymentSignal(p) <==> src == GATEWAY || dst == GATEWAY)
      && ExtractPayload(p) == Some(payload) && SrcIpv4(p) == Some(src) && DstIpv4(p) == Some(dst)
  {
    PacketBytes(src, dst, payload);
    var p := SignalPacket(src, dst, payload);
    assert p[28..|p|] == p[28..];
  }

  /** The header checksum of a built packet verifies. */
  lemma SignalChecksumVerifies(src: Bytes, dst: Bytes, payload: Bytes)
    requires |src| == |dst| == 4 && IP_HEADER + UDP_HEADER + |payload| <= MAX_PACKET
    ensures Checksum(SignalPacket(src, dst, payload)[..IP_HEADER]) == 0
  {
    var bare := BareHeader(src, dst, IP_HEADER + UDP_HEADER + |payload|);
    assert WordAt(bare, 5) == 0;
    ChecksumVerifies(bare, 5);
    assert SignalPacket(src, dst, payload)[..IP_HEADER] == WithChecksum(bare, 5);
  }

  /** The other end of the tunnel hands the packet up whole. */
  lemma TunnelHandsUpSignal(t: Tunn, src: Bytes, dst: Bytes, payload: Bytes)
    requires |src| == |dst| == 4 && IP_HEADER + UDP_HEADER + |payload| <= MAX_PACKET
    ensures
      var p := SignalPacket(src, dst, payload);
      t.ValidateDecapsulated(p).1 == WriteToTunnel(p, V4(src))
  {
    PacketBytes(src, dst, payload);
    var p := SignalPacket(src, dst, payload);
    assert p[..|p|] == p;
  }

  // ---------------------------------------------------------------------------
  // The buffer
  // ---------------------------------------------------------------------------

  /** Copies bytes into the buffer. */
  method Put(buffer: array<Byte>, at: nat, bytes: Bytes)
    requires at + |bytes| <= buffer.Length
    modifies buffer
    ensures forall j :: 0 <= j < |bytes| ==> buffer[at + j] == bytes[j]
    ensures forall j :: 0 <= j < buffer.Length && !(at <= j < at + |bytes|) ==> buffer[j] == old(buffer[j])
  {
    for i := 0 to |bytes|
      invariant forall j :: 0 <= j < i ==> buffer[at + j] == bytes[j]
      invariant forall j :: 0 <= j < buffer.Length && !(at <= j < at + i) ==> buffer[j] == old(buffer[j])
    {
      buffer[at + i] := bytes[i];
    }
  }

  method Put16(buffer: array<Byte>, at: nat, n: nat)
    requires at + 2 <= buffer.Length && n <= 0xffff
    modifies buffer
    ensures buffer[at] == n / 256 && buffer[at + 1] == n % 256
    ensures forall j :: 0 <= j < buffer.Length && j != at && j != at + 1 ==> buffer[j] == old(buffer[j])
  {
    buffer[at] := n / 256;
    buffer[at + 1] := n % 256;
  }

  /** The IPv4 header without its checksum, field by field into a zeroed buffer. */
  method FillBareHeader(packet: array<Byte>, src: Bytes, dst: Bytes)
    requires |src| == |dst| == 4 && IP_HEADER <= packet.Length <= MAX_PACKET
    requires forall i :: 0 <= i < packet.Length ==> packet[i] == 0
    modifies packet
    ensures packet[..IP_HEADER] == BareHeader(src, dst, packet.Length)
    ensures forall i :: IP_HEADER <= i < packet.Length ==> packet[i] == 0
  {
    packet[0] := 0x45;
    Put16(packet, 2, packet.Length);
    packet[6] := 0x40;
    packet[8] := 64;
    packet[9] := 17;
    Put(packet, 12, src);
    Put(packet, 16, dst);
    ghost var bare := BareHeader(src, dst, packet.Length);
    assert forall i :: 12 <= i < 16 ==> packet[i] == src[i - 12] == bare[i];
    assert forall i :: 16 <= i < 20 ==> packet[i] == dst[i - 16] == bare[i];
    assert forall i :: 0 <= i < 12 ==> packet[i] == bare[i];
  }

  /** Then the checksum. */
  method FillIpHeader(packet: array<Byte>, src: Bytes, dst: Bytes)
    requires |src| == |dst| == 4 && IP_HEADER <= packet.Length <= MAX_PACKET
    requires forall i :: 0 <= i < packet.Length ==> packet[i] == 0
    modifies packet
    ensures packet[..IP_HEADER] == WithChecksum(BareHeader(src, dst, packet.Length), 5)
    ensures forall i :: IP_HEADER <= i < packet.Length ==> packet[i] == 0
  {
    FillBareHeader(packet, src, dst);
    ghost var bare := packet[..IP_HEADER];
    var checksum := IpChecksum(packet[..IP_HEADER]);
    Put16(packet, 10, checksum);
    assert forall i :: 0 <= i < IP_HEADER ==> packet[i] == WithChecksum(bare, 5)[i];
  }

  method FillUdp(packet: array<Byte>, payload: Bytes)
    requires packet.Length == IP_HEADER + UDP_HEADER + |payload| <= MAX_PACKET
    requires forall i :: IP_HEADER <= i < packet.Length ==> packet[i] == 0
    modifies packet
    ensures packet[..] == old(packet[..IP_HEADER]) + UdpHeader(UDP_HEADER + |payload|) + payload
  {
    Put16(packet, 20, PAYMENT_PORT);
    Put16(packet, 22, PAYMENT_PORT);
    Put16(packet, 24, UDP_HEADER + |payload|);
    Put(packet, 28, payload);
    ghost var udp := UdpHeader(UDP_HEADER + |payload|);
    assert forall i :: 0 <= i < 8 ==> packet[20 + i] == udp[i];
    assert packet[..20] == old(packet[..20]) && packet[20..28] == udp && packet[28..] == payload;
    assert packet[..] == packet[..20] + packet[20..28] + packet[28..];
  }

  /** The whole packet, or None where the program aborts because it would be too long. */
  method BuildSignalPacket(src: Bytes, dst: Bytes, payload: Bytes) returns (r: Option<array<Byte>>)
    requires |src| == |dst| == 4
    ensures r.None? <==> IP_HEADER + UDP_HEADER + |payload| > MAX_PACKET
    ensures r.Some? ==> fresh(r.value) && r.value[..] == SignalPacket(src, dst, payload)
  {
    var udpLen := UDP_HEADER + |payload|;
    var totalLen := IP_HEADER + udpLen;
    if totalLen > MAX_PACKET {
      return None;
    }
    var packet := new Byte[totalLen](_ => 0);
    FillIpHeader(packet, src, dst);
    FillUdp(packet, payload);
    return Some(packet);
  }
}
