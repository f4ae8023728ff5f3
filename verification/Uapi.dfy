/**
 The `get` command of the control socket: the device prints its state line by line, and the registration
 API reads it back with a parser of its own.
 */
module Uapi {
  import opened Wrappers
  import opened Text

  // ---------------------------------------------------------------------------
  // What is printed
  // ---------------------------------------------------------------------------

  datatype QuotaInfo = QuotaInfo(remaining: nat, blocked: bool, totalConsumed: nat, paymentCount: nat)

  datatype PeerInfo = PeerInfo(
    key: seq<Byte>,
    presharedKey: Option<seq<Byte>>,
    keepalive: Option<nat>,
    endpoint: Option<string>,
    allowedIps: seq<string>,
    lastHandshake: Option<(nat, nat)>,
    rxBytes: nat,
    txBytes: nat,
    quota: Option<QuotaInfo>
  )

  /** The peers are in the order of their table, which may be any. */
  datatype DeviceInfo = DeviceInfo(ownKey: Option<seq<Byte>>, listenPort: nat, fwmark: Option<nat>,
                                   peers: seq<PeerInfo>)

  datatype Key =
    | OwnPublicKey
    | ListenPort
    | Fwmark
    | PublicKey
    | PresharedKey
    | KeepaliveInterval
    | EndpointAddress
    | AllowedIp
    | HandshakeSec
    | HandshakeNsec
    | RxBytes
    | TxBytes
    | QuotaRemaining
    | QuotaBlocked
    | QuotaTotalConsumed
    | QuotaPaymentCount

  function Name(key: Key): string {
    match key
    case OwnPublicKey => "own_public_key"
    case ListenPort => "listen_port"
    case Fwmark => "fwmark"
    case PublicKey => "public_key"
    case PresharedKey => "preshared_key"
    case KeepaliveInterval => "persistent_keepalive_interval"
    case EndpointAddress => "endpoint"
    case AllowedIp => "allowed_ip"
    case HandshakeSec => "last_handshake_time_sec"
    case HandshakeNsec => "last_handshake_time_nsec"
    case RxBytes => "rx_bytes"
    case TxBytes => "tx_bytes"
    case QuotaRemaining => "quota_remaining"
    case QuotaBlocked => "quota_blocked"
    case QuotaTotalConsumed => "quota_total_consumed"
    case QuotaPaymentCount => "quota_payment_count"
  }

  datatype Line = Line(key: Key, value: string)

  function LineText(line: Line): string {
    Name(line.key) + "=" + line.value
  }

  function BoolText(b: bool): string {
    if b then "true" else "false"
  }

  function DeviceLines(d: DeviceInfo): seq<Line> {
    (match d.ownKey case Some(k) => [Line(OwnPublicKey, Hex(k))] case None => [])
    + (if d.listenPort != 0 then [Line(ListenPort, Decimal(d.listenPort))] else [])
    + (match d.fwmark case Some(m) => [Line(Fwmark, Decimal(m))] case None => [])
  }

  function AllowedLines(ips: seq<string>): seq<Line> {
    if ips == [] then [] else [Line(AllowedIp, ips[0])] + AllowedLines(ips[1..])
  }

  /** The lines of a peer up to its addresses. */
  function SettingLines(p: PeerInfo): seq<Line> {
    (match p.presharedKey case Some(k) => [Line(PresharedKey, Hex(k))] case None => [])
    + (match p.keepalive case Some(k) => [Line(KeepaliveInterval, Decimal(k))] case None => [])
    + (match p.endpoint case Some(e) => [Line(EndpointAddress, e)] case None => [])
    + AllowedLines(p.allowedIps)
  }

  function HandshakeLines(p: PeerInfo): seq<Line> {
    match p.lastHandshake
    case Some((sec, nsec)) => [Line(HandshakeSec, Decimal(sec)), Line(HandshakeNsec, Decimal(nsec))]
    case None => []
  }

  function CounterLines(p: PeerInfo): seq<Line> {
    [Line(RxBytes, Decimal(p.rxBytes)), Line(TxBytes, Decimal(p.txBytes))]
    + (match p.quota
       case Some(q) => [Line(QuotaRemaining, Decimal(q.remaining)), Line(QuotaBlocked, BoolText(q.blocked)),
                        Line(QuotaTotalConsumed, Decimal(q.totalConsumed)),
                        Line(QuotaPaymentCount, Decimal(q.paymentCount))]
       case None => [])
  }

  function PeerLines(p: PeerInfo): seq<Line> {
    [Line(PublicKey, Hex(p.key))] + SettingLines(p) + HandshakeLines(p) + CounterLines(p)
  }

  function AllPeerLines(peers: seq<PeerInfo>): seq<Line> {
    if peers == [] then [] else AllPeerLines(peers[..|peers| - 1]) + PeerLines(peers[|peers| - 1])
  }

  function Texts(lines: seq<Line>): (r: seq<string>)
    ensures |r| == |lines|
  {
    Map(LineText, lines)
  }

  /** The whole answer, with the status and an empty line behind it. */
  function Answer(d: DeviceInfo): seq<string> {
    Texts(DeviceLines(d) + AllPeerLines(d.peers)) + ["errno=0", ""]
  }

  // ---------------------------------------------------------------------------
  // How it is read
  // ---------------------------------------------------------------------------

  type Handshakes = map<string, Option<nat>>

  datatype Reader = Reader(
    peers: Handshakes,
    currentKey: Option<string>,
    currentHandshake: Option<nat>,
    ownKey: Option<seq<Byte>>,
    listenPort: Option<nat>,
    done: bool
  ) {
    /** Enters the peer that is being read. */
    function Flush(): Reader {
      match currentKey
      case Some(k) => this.(peers := peers[k := currentHandshake], currentKey := None, currentHandshake := None)
      case None => this
    }

    function Field(name: string, value: string): Reader {
      if name == "own_public_key" then
        (match Unhex(value) case Some(bytes) => this.(ownKey := Some(bytes)) case None => this)
      else if name == "listen_port" then this.(listenPort := ParseUint(value, 0x1_0000))
      else if name == "public_key" then Flush().(currentKey := Some(value), currentHandshake := None)
      else if name == "last_handshake_time_sec" then this.(currentHandshake := ParseUint(value, U64))
      else this
    }

    function Read(line: string): Reader {
      if line == "" then Flush()
      else if "errno=" <= line then Flush().(done := true)
      else
        match SplitOnce(line)
        case Some((name, value)) => Field(name, value)
        case None => this
    }

    /** Reads lines until the end or the status line. */
    function ReadAll(lines: seq<string>): Reader
      decreases |lines|
    {
      if done || lines == [] then this else Read(lines[0]).ReadAll(lines[1..])
    }
  }

  const START := Reader(map[], None, None, None, None, false)

  /** What the caller gets: its own key, the port and the handshakes by key. */
  datatype Snapshot = Snapshot(ownKey: Option<seq<Byte>>, listenPort: Option<nat>, peers: Handshakes)

  function Parse(text: string): Snapshot {
    var r := START.ReadAll(Lines(text)).Flush();
    Snapshot(r.ownKey, r.listenPort, r.peers)
  }

  // ---------------------------------------------------------------------------
  // One line
  // ---------------------------------------------------------------------------

  /** Names are made of lower-case letters and underscores. */
  lemma NamesArePlain(key: Key, c: char)
    requires c in Name(key)
    ensures c == '_' || 'a' <= c <= 'z'
  {}

  lemma NamesAreClean(key: Key)
    ensures '=' !in Name(key) && OneLine(Name(key))
  {
    if '=' in Name(key) {
      NamesArePlain(key, '=');
    }
    if '\n' in Name(key) {
      NamesArePlain(key, '\n');
    }
    if '\r' in Name(key) {
      NamesArePlain(key, '\r');
    }
  }

  lemma NamesAreNotErrno(key: Key)
    ensures |Name(key)| >= 6 && (Name(key)[0] == 'e' ==> Name(key)[1] == 'n')
  {}

  /** What a printed line does to the reader. */
  function Meant(r: Reader, line: Line): Reader {
    match line.key
    case OwnPublicKey => (match Unhex(line.value) case Some(bytes) => r.(ownKey := Some(bytes)) case None => r)
    case ListenPort => r.(listenPort := ParseUint(line.value, 0x1_0000))
    case PublicKey => r.Flush().(currentKey := Some(line.value), currentHandshake := None)
    case HandshakeSec => r.(currentHandshake := ParseUint(line.value, U64))
    case _ => r
  }

  lemma NameTellsKey(key: Key)
    ensures Name(key) == "own_public_key" <==> key == OwnPublicKey
    ensures Name(key) == "listen_port" <==> key == ListenPort
    ensures Name(key) == "public_key" <==> key == PublicKey
    ensures Name(key) == "last_handshake_time_sec" <==> key == HandshakeSec
  {
    var other := ["own_public_key", "listen_port", "public_key", "last_handshake_time_sec"];
    assert |other[0]| == 14 && |other[1]| == 11 && |other[2]| == 10 && |other[3]| == 23;
    assert other[2][0] == 'p' && "allowed_ip"[0] == 'a';
  }

  /** A printed line is neither blank nor a status line, and is split into its name and its value. */
  lemma LineIsRead(r: Reader, line: Line)
    ensures r.Read(LineText(line)) == Meant(r, line)
  {
    NamesAreClean(line.key);
    NamesAreNotErrno(line.key);
    SplitsAtFirst(Name(line.key), line.value);
    NameTellsKey(line.key);
    var text := LineText(line);
    assert text[0] == Name(line.key)[0] && text[1] == Name(line.key)[1];
    assert "errno="[0] == 'e' && "errno="[1] == 'r';
  }

  // ---------------------------------------------------------------------------
  // Many lines
  // ---------------------------------------------------------------------------

  function MeantAll(r: Reader, lines: seq<Line>): Reader
    decreases |lines|
  {
    if lines == [] then r else MeantAll(Meant(r, lines[0]), lines[1..])
  }

  lemma {:induction false} LinesAreRead(r: Reader, lines: seq<Line>, tail: seq<string>)
    requires !r.done
    ensures r.ReadAll(Texts(lines) + tail) == MeantAll(r, lines).ReadAll(tail) && !MeantAll(r, lines).done
    decreases |lines|
  {
    if lines == [] {
      assert Texts(lines) + tail == tail;
    } else {
      LineIsRead(r, lines[0]);
      MeantIsNotDone(r, lines[0]);
      LinesAreRead(Meant(r, lines[0]), lines[1..], tail);
      assert Texts(lines) + tail == [LineText(lines[0])] + (Texts(lines[1..]) + tail);
      ReadsFirst(r, LineText(lines[0]), Texts(lines[1..]) + tail);
    }
  }

  lemma ReadsFirst(r: Reader, line: string, rest: seq<string>)
    requires !r.done
    ensures r.ReadAll([line] + rest) == r.Read(line).ReadAll(rest)
  {
    assert ([line] + rest)[1..] == rest;
  }

  lemma MeantIsNotDone(r: Reader, line: Line)
    requires !r.done
    ensures !Meant(r, line).done
  {}

  lemma {:induction false} MeantInParts(r: Reader, a: seq<Line>, b: seq<Line>)
    ensures MeantAll(r, a + b) == MeantAll(MeantAll(r, a), b)
    decreases |a|
  {
    if a == [] {
      assert a + b == b;
    } else {
      MeantInParts(Meant(r, a[0]), a[1..], b);
      assert (a + b)[1..] == a[1..] + b;
    }
  }

  predicate Inert(key: Key) {
    key != OwnPublicKey && key != ListenPort && key != PublicKey && key != HandshakeSec
  }

  ghost predicate AllInert(lines: seq<Line>) {
    forall i :: 0 <= i < |lines| ==> Inert(lines[i].key)
  }

  lemma {:induction false} InertLines(r: Reader, lines: seq<Line>)
    requires AllInert(lines)
    ensures MeantAll(r, lines) == r
    decreases |lines|
  {
    if lines != [] {
      InertLines(r, lines[1..]);
    }
  }

  lemma {:induction false} AllowedInert(ips: seq<string>)
    ensures AllInert(AllowedLines(ips))
  {
    if ips != [] {
      AllowedInert(ips[1..]);
    }
  }

  lemma SettingsInert(p: PeerInfo)
    ensures AllInert(SettingLines(p)) && AllInert(CounterLines(p))
  {
    AllowedInert(p.allowedIps);
  }

  // ---------------------------------------------------------------------------
  // Peers
  // ---------------------------------------------------------------------------

  function HandshakeOf(p: PeerInfo): Option<nat> {
    match p.lastHandshake
    case Some((sec, _)) => Some(sec)
    case None => None
  }

  predicate PeerOk(p: PeerInfo) {
    && (p.lastHandshake.Some? ==> p.lastHandshake.value.0 < U64)
    && (p.endpoint.Some? ==> OneLine(p.endpoint.value))
    && forall i :: 0 <= i < |p.allowedIps| ==> OneLine(p.allowedIps[i])
  }

  lemma HandshakeIsMeant(r: Reader, p: PeerInfo)
    requires PeerOk(p) && r.currentHandshake == None
    ensures MeantAll(r, HandshakeLines(p)) == r.(currentHandshake := HandshakeOf(p))
  {
    match p.lastHandshake
    case Some((sec, nsec)) =>
      DecimalReadsBack(sec, U64);
      TwoLines(r, Line(HandshakeSec, Decimal(sec)), Line(HandshakeNsec, Decimal(nsec)));
    case None =>
  }

  lemma TwoLines(r: Reader, a: Line, b: Line)
    ensures MeantAll(r, [a, b]) == Meant(Meant(r, a), b)
  {
    assert [a, b][1..] == [b] && [b][1..] == [];
    assert MeantAll(Meant(r, a), [b]) == MeantAll(Meant(Meant(r, a), b), []);
  }

  /** The block of a peer enters the peer before it and opens its own, with its own handshake or none. */
  lemma PeerIsMeant(r: Reader, p: PeerInfo)
    requires PeerOk(p)
    ensures MeantAll(r, PeerLines(p)) == r.Flush().(currentKey := Some(Hex(p.key)), currentHandshake := HandshakeOf(p))
  {
    var first := [Line(PublicKey, Hex(p.key))];
    var (settings, handshake, counters) := (SettingLines(p), HandshakeLines(p), CounterLines(p));
    SettingsInert(p);
    MeantInParts(r, first + settings + handshake, counters);
    MeantInParts(r, first + settings, handshake);
    MeantInParts(r, first, settings);
    var r1 := MeantAll(r, first);
    assert r1 == r.Flush().(currentKey := Some(Hex(p.key)), currentHandshake := None) by {
      assert first[1..] == [];
    }
    InertLines(r1, settings);
    HandshakeIsMeant(r1, p);
    InertLines(r1.(currentHandshake := HandshakeOf(p)), counters);
  }

  /** The handshakes of the peers by key. */
  function Table(peers: seq<PeerInfo>): Handshakes {
    if peers == [] then map[]
    else
      var last := peers[|peers| - 1];
      Table(peers[..|peers| - 1])[Hex(last.key) := HandshakeOf(last)]
  }

  ghost predicate AllPeersOk(peers: seq<PeerInfo>) {
    forall i :: 0 <= i < |peers| ==> PeerOk(peers[i])
  }

  lemma {:induction false} PeersAreMeant(r: Reader, peers: seq<PeerInfo>)
    requires AllPeersOk(peers) && r.peers == map[] && r.currentKey == None && r.currentHandshake == None
    ensures MeantAll(r, AllPeerLines(peers)).Flush() == r.(peers := Table(peers))
    decreases |peers|
  {
    if peers != [] {
      var (before, last) := (peers[..|peers| - 1], peers[|peers| - 1]);
      PeersAreMeant(r, before);
      MeantInParts(r, AllPeerLines(before), PeerLines(last));
      PeerIsMeant(MeantAll(r, AllPeerLines(before)), last);
    }
  }

  /** With different keys, each peer is found under its own key with its own handshake, and nothing else is found. */
  lemma {:induction false} TableIsExact(peers: seq<PeerInfo>)
    requires forall i, j :: 0 <= i < j < |peers| ==> peers[i].key != peers[j].key
    ensures forall i :: 0 <= i < |peers| ==> Found(Table(peers), peers[i])
    ensures forall k :: k in Table(peers) ==> exists i :: 0 <= i < |peers| && HasKey(peers[i], k)
    decreases |peers|
  {
    if peers != [] {
      var (before, last) := (peers[..|peers| - 1], peers[|peers| - 1]);
      TableIsExact(before);
      forall i | 0 <= i < |peers|
        ensures Found(Table(peers), peers[i])
      {
        if i < |before| {
          assert Found(Table(before), before[i]);
          StillFound(Table(before), before[i], last);
        }
      }
      forall k | k in Table(peers)
        ensures exists i :: 0 <= i < |peers| && HasKey(peers[i], k)
      {
        if k in Table(before) {
          var i :| 0 <= i < |before| && HasKey(before[i], k);
          assert HasKey(peers[i], k);
        } else {
          assert HasKey(peers[|peers| - 1], k);
        }
      }
    }
  }

  predicate HasKey(p: PeerInfo, k: string) {
    k == Hex(p.key)
  }

  predicate Found(table: Handshakes, p: PeerInfo) {
    Hex(p.key) in table && table[Hex(p.key)] == HandshakeOf(p)
  }

  lemma StillFound(table: Handshakes, p: PeerInfo, last: PeerInfo)
    requires Found(table, p) && p.key != last.key
    ensures Found(table[Hex(last.key) := HandshakeOf(last)], p)
  {
    if Hex(p.key) == Hex(last.key) {
      HexInjective(p.key, last.key);
    }
  }

  // ---------------------------------------------------------------------------
  // The whole answer
  // ---------------------------------------------------------------------------

  predicate DeviceOk(d: DeviceInfo) {
    d.listenPort < 0x1_0000 && forall i :: 0 <= i < |d.peers| ==> PeerOk(d.peers[i])
  }

  lemma DeviceIsMeant(d: DeviceInfo)
    requires DeviceOk(d)
    ensures MeantAll(START, DeviceLines(d))
         == START.(ownKey := d.ownKey, listenPort := if d.listenPort != 0 then Some(d.listenPort) else None)
  {
    var own := match d.ownKey case Some(k) => [Line(OwnPublicKey, Hex(k))] case None => [];
    var port := if d.listenPort != 0 then [Line(ListenPort, Decimal(d.listenPort))] else [];
    var mark := match d.fwmark case Some(m) => [Line(Fwmark, Decimal(m))] case None => [];
    MeantInParts(START, own + port, mark);
    MeantInParts(START, own, port);
    var r1 := START.(ownKey := d.ownKey);
    assert MeantAll(START, own) == r1 by {
      if d.ownKey.Some? {
        HexReadsBack(d.ownKey.value);
        OneMeant(START, Line(OwnPublicKey, Hex(d.ownKey.value)));
      }
    }
    var r2 := r1.(listenPort := if d.listenPort != 0 then Some(d.listenPort) else None);
    assert MeantAll(r1, port) == r2 by {
      if d.listenPort != 0 {
        DecimalReadsBack(d.listenPort, 0x1_0000);
        OneMeant(r1, Line(ListenPort, Decimal(d.listenPort)));
      }
    }
    InertLines(r2, mark);
  }

  lemma OneMeant(r: Reader, line: Line)
    ensures MeantAll(r, [line]) == Meant(r, line)
  {
    assert [line][1..] == [];
  }

  /** Reading the printed lines gives the device's own key, its port unless zero, and each peer's handshake. */
  lemma AnswerIsRead(d: DeviceInfo)
    requires DeviceOk(d)
    ensures
      var r := START.ReadAll(Answer(d)).Flush();
      && r.ownKey == d.ownKey && r.peers == Table(d.peers)
      && r.listenPort == (if d.listenPort != 0 then Some(d.listenPort) else None)
  {
    var lines := DeviceLines(d) + AllPeerLines(d.peers);
    LinesAreRead(START, lines, ["errno=0", ""]);
    MeantInParts(START, DeviceLines(d), AllPeerLines(d.peers));
    DeviceIsMeant(d);
    PeersAreMeant(MeantAll(START, DeviceLines(d)), d.peers);
    StatusEnds(MeantAll(START, lines));
  }

  lemma StatusEnds(r: Reader)
    requires !r.done
    ensures r.ReadAll(["errno=0", ""]) == r.Flush().(done := true)
  {
    ReadsFirst(r, "errno=0", [""]);
    assert ["errno=0"] + [""] == ["errno=0", ""];
    assert "errno=" <= "errno=0";
  }

  // --- newlines ---

  ghost predicate Clean(lines: seq<Line>) {
    forall i :: 0 <= i < |lines| ==> OneLine(lines[i].value)
  }

  lemma {:induction false} AllowedClean(ips: seq<string>)
    requires forall i :: 0 <= i < |ips| ==> OneLine(ips[i])
    ensures Clean(AllowedLines(ips))
  {
    if ips != [] {
      AllowedClean(ips[1..]);
    }
  }

  lemma NumberClean(key: Key, n: nat)
    ensures Clean([Line(key, Decimal(n))])
  {
    DecimalIsOneLine(n);
  }

  lemma BytesClean(key: Key, bytes: seq<Byte>)
    ensures Clean([Line(key, Hex(bytes))])
  {
    HexReadsBack(bytes);
  }

  lemma SettingsClean(p: PeerInfo)
    requires PeerOk(p)
    ensures Clean(SettingLines(p))
  {
    AllowedClean(p.allowedIps);
    if p.presharedKey.Some? {
      BytesClean(PresharedKey, p.presharedKey.value);
    }
    if p.keepalive.Some? {
      NumberClean(KeepaliveInterval, p.keepalive.value);
    }
  }

  lemma HandshakeClean(p: PeerInfo)
    ensures Clean(HandshakeLines(p))
  {
    if p.lastHandshake.Some? {
      DecimalIsOneLine(p.lastHandshake.value.0);
      DecimalIsOneLine(p.lastHandshake.value.1);
    }
  }

  lemma CountersClean(p: PeerInfo)
    ensures Clean(CounterLines(p))
  {
    DecimalIsOneLine(p.rxBytes);
    DecimalIsOneLine(p.txBytes);
    if p.quota.Some? {
      DecimalIsOneLine(p.quota.value.remaining);
      DecimalIsOneLine(p.quota.value.totalConsumed);
      DecimalIsOneLine(p.quota.value.paymentCount);
    }
  }

  lemma PeerClean(p: PeerInfo)
    requires PeerOk(p)
    ensures Clean(PeerLines(p))
  {
    BytesClean(PublicKey, p.key);
    SettingsClean(p);
    HandshakeClean(p);
    CountersClean(p);
  }

  lemma {:induction false} PeersClean(peers: seq<PeerInfo>)
    requires AllPeersOk(peers)
    ensures Clean(AllPeerLines(peers))
  {
    if peers != [] {
      PeersClean(peers[..|peers| - 1]);
      PeerClean(peers[|peers| - 1]);
    }
  }

  lemma DeviceClean(d: DeviceInfo)
    ensures Clean(DeviceLines(d))
  {
    if d.ownKey.Some? {
      BytesClean(OwnPublicKey, d.ownKey.value);
    }
    NumberClean(ListenPort, d.listenPort);
    if d.fwmark.Some? {
      NumberClean(Fwmark, d.fwmark.value);
    }
  }

  lemma AnswerIsLines(d: DeviceInfo)
    requires DeviceOk(d)
    ensures AllOneLine(Answer(d))
  {
    DeviceClean(d);
    PeersClean(d.peers);
    var lines := DeviceLines(d) + AllPeerLines(d.peers);
    forall i | 0 <= i < |lines|
      ensures OneLine(LineText(lines[i]))
    {
      NamesAreClean(lines[i].key);
    }
  }

  /** For every state of the device, what is printed is read back exactly. */
  lemma PrintedIsParsed(d: DeviceInfo)
    requires DeviceOk(d)
    ensures Parse(Written(Answer(d)))
         == Snapshot(d.ownKey, if d.listenPort != 0 then Some(d.listenPort) else None, Table(d.peers))
  {
    AnswerIsLines(d);
    LinesReadBack(Answer(d));
    AnswerIsRead(d);
  }

  // ---------------------------------------------------------------------------
  // The printer and the parser
  // ---------------------------------------------------------------------------

  function Blocks(peers: seq<PeerInfo>): (r: seq<seq<string>>)
    ensures |r| == |peers|
  {
    seq(|peers|, i requires 0 <= i < |peers| => Texts(PeerLines(peers[i])))
  }

  lemma {:induction false} FlatBlocks(peers: seq<PeerInfo>)
    ensures Flat(Blocks(peers)) == Texts(AllPeerLines(peers))
  {
    if peers != [] {
      var (before, last) := (peers[..|peers| - 1], peers[|peers| - 1]);
      FlatBlocks(before);
      assert Blocks(peers)[..|peers| - 1] == Blocks(before);
      MapAppends(LineText, AllPeerLines(before), PeerLines(last));
    }
  }

  lemma AnswerWritten(d: DeviceInfo)
    ensures Written(Answer(d)) == Written(Texts(DeviceLines(d))) + Written(Flat(Blocks(d.peers))) + "errno=0\n\n"
  {
    FlatBlocks(d.peers);
    AnswerInParts(Texts(DeviceLines(d)), Texts(AllPeerLines(d.peers)));
    MapAppends(LineText, DeviceLines(d), AllPeerLines(d.peers));
  }

  lemma AnswerInParts(device: seq<string>, peers: seq<string>)
    ensures Written(device + peers + ["errno=0", ""]) == Written(device) + Written(peers) + "errno=0\n\n"
  {
    WrittenAppends(device, peers);
    WrittenAppends(device + peers, ["errno=0", ""]);
    assert ["errno=0", ""][1..] == [""] && [""][1..] == [];
    assert Written([""]) == "\n";
  }

  /** The answer to the command: the device, the peers and the status. */
  method ApiGet(d: DeviceInfo) returns (out: string)
    ensures out == Written(Answer(d))
  {
    out := WriteAnswer(Texts(DeviceLines(d)), Blocks(d.peers));
    AnswerWritten(d);
  }

  method WriteAnswer(device: seq<string>, blocks: seq<seq<string>>) returns (out: string)
    ensures out == Written(device) + Written(Flat(blocks)) + "errno=0\n\n"
  {
    out := WriteLines("", device);
    out := WriteBlocks(out, blocks);
    out := out + "errno=0\n\n";
  }

  /** The reader with its running variables. */
  method UapiGetPeers(text: string) returns (r: Snapshot)
    ensures r == Parse(text)
  {
    var lines := Lines(text);
    var peers: Handshakes := map[];
    var currentKey: Option<string> := None;
    var currentHandshake: Option<nat> := None;
    var ownKey: Option<seq<Byte>> := None;
    var listenPort: Option<nat> := None;
    ghost var goal := START.ReadAll(lines);
    var i := 0;
    while i < |lines|
      invariant i <= |lines|
      invariant Reader(peers, currentKey, currentHandshake, ownKey, listenPort, false).ReadAll(lines[i..]) == goal
    {
      var line := lines[i];
      assert lines[i..] == [line] + lines[i + 1..];
      ghost var before := Reader(peers, currentKey, currentHandshake, ownKey, listenPort, false);
      ReadsFirst(before, line, lines[i + 1..]);
      i := i + 1;
      if line == "" || "errno=" <= line {
        if currentKey.Some? {
          peers := peers[currentKey.value := currentHandshake];
          currentKey, currentHandshake := None, None;
        }
        if line != "" {
          break;
        }
      } else {
        var split := SplitOnce(line);
        if split.Some? {
          var (name, value) := split.value;
          if name == "own_public_key" {
            var bytes := Unhex(value);
            if bytes.Some? {
              ownKey := bytes;
            }
          } else if name == "listen_port" {
            listenPort := ParseUint(value, 0x1_0000);
          } else if name == "public_key" {
            if currentKey.Some? {
              peers := peers[currentKey.value := currentHandshake];
            }
            currentKey, currentHandshake := Some(value), None;
          } else if name == "last_handshake_time_sec" {
            currentHandshake := ParseUint(value, U64);
          }
        }
      }
    }
    if currentKey.Some? {
      peers := peers[currentKey.value := currentHandshake];
    }
    return Snapshot(ownKey, listenPort, peers);
  }
}
