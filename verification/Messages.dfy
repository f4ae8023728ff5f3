/** The four datagrams of the protocol, the errors a tunnel reports and what it asks its caller to do. */
module Messages {
  import opened Wrappers
  import opened Crypto
  import ReplayWindow

  datatype Datagram =
    | HandshakeInit(senderIdx: Index32, ephemeral: Term, encryptedStatic: Term, encryptedTimestamp: Term,
                    mac1: Term, mac2: Term)
    | HandshakeResponse(senderIdx: Index32, receiverIdx: Index32, ephemeral: Term, encryptedNothing: Term,
                        mac1: Term, mac2: Term)
    | CookieReply(receiverIdx: Index32, nonce: Term, encryptedCookie: Term)
    | Data(receiverIdx: Index32, counter: ReplayWindow.Counter, cipher: Term)
    /** Bytes whose type or length fits none of the above. */
    | Malformed

  datatype WireGuardError =
    | DestinationBufferTooSmall
    | UnexpectedPacket
    | WrongIndex
    | WrongKey
    | WrongTai64nTimestamp
    | InvalidTai64nTimestamp
    | InvalidMac
    | InvalidAeadTag
    | InvalidPacket
    | InvalidCounter
    | DuplicateCounter
    | NoCurrentSession
    | ConnectionExpired
    | UnderLoad

  datatype IpAddr = V4(v4: seq<Byte>) | V6(v6: seq<Byte>)

  datatype TunnResult =
    | Done
    | Failed(error: WireGuardError)
    | WriteToNetwork(datagram: Datagram)
    | WriteToTunnel(packet: seq<Byte>, source: IpAddr)
    /** The call aborts: the caller's buffer is too small to go on. */
    | Panicked

  const HANDSHAKE_INIT_SZ := 148
  const HANDSHAKE_RESP_SZ := 92
  const COOKIE_REPLY_SZ := 64
  const DATA_OVERHEAD_SZ := 32

  /** The part of a handshake message that mac1 covers. */
  function InitBody(senderIdx: Index32, ephemeral: Term, encryptedStatic: Term, encryptedTimestamp: Term): Term {
    Cat(Number(1), Cat(Number(senderIdx), Cat(ephemeral, Cat(encryptedStatic, encryptedTimestamp))))
  }

  function ResponseBody(senderIdx: Index32, receiverIdx: Index32, ephemeral: Term, encryptedNothing: Term): Term {
    Cat(Number(2), Cat(Number(senderIdx), Cat(Number(receiverIdx), Cat(ephemeral, encryptedNothing))))
  }
}
