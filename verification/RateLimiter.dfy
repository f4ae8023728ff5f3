/**
 The rate limiter in front of handshake processing: it checks mac1 always and, under load, mac2
 against a cookie bound to the sender's address and to the current epoch of 128 seconds. A sender
 without a valid cookie is answered with one.
 */
module RateLimiters {
  import opened Wrappers
  import opened Crypto
  import opened Messages
  import opened Handshakes

  const COOKIE_REFRESH := 128
  const RESET_PERIOD := 1

  datatype Checked =
    | Passed
    | Replied(cookie: Datagram)
    | Refused(error: WireGuardError)

  /** The address as 16 bytes, an IPv4 address padded with zeros. */
  function AddressBytes(addr: IpAddr): Term {
    match addr
    case V4(a) => Payload(a + seq(12, _ => 0))
    case V6(a) => Payload(a)
  }

  predicate IsHandshakeMessage(d: Datagram) {
    d.HandshakeInit? || d.HandshakeResponse?
  }

  /** The bytes of a handshake message before its MACs. */
  function Body(d: Datagram): Term
    requires IsHandshakeMessage(d)
  {
    match d
    case HandshakeInit(s, e, encStatic, encStamp, _, _) => InitBody(s, e, encStatic, encStamp)
    case HandshakeResponse(s, r, e, nothing, _, _) => ResponseBody(s, r, e, nothing)
  }

  datatype Limiter = Limiter(
    nonceKey: Term, secretKey: Term, startTime: nat, nonceCtr: nat, publicKey: Term,
    limit: nat, count: nat, lastReset: nat
  ) {

    function Mac1Key(): Term {
      Hash(LABEL_MAC1, publicKey)
    }

    function CookieKey(): Term {
      Hash(LABEL_COOKIE, publicKey)
    }

    /** The number of the 128 second epoch that a clock reading falls into. */
    function Epoch(now: nat): nat {
      (if now >= startTime then now - startTime else 0) / SECOND / COOKIE_REFRESH
    }

    function CurrentCookie(addr: IpAddr, now: nat): Term {
      Mac2(secretKey, Number(Epoch(now)), AddressBytes(addr))
    }

    function ResetCount(now: nat): Limiter {
      if (now - lastReset) / SECOND >= RESET_PERIOD then this.(count := 0, lastReset := now) else this
    }

    function CookieReplyTo(idx: Index32, cookie: Term, mac1: Term): (Limiter, Datagram) {
      var nonce := Mac(nonceKey, Number(nonceCtr));
      (this.(nonceCtr := (nonceCtr + 1) % U64), CookieReply(idx, nonce, Seal(CookieKey(), nonce, cookie, mac1)))
    }

    function VerifyPacket(addr: Option<IpAddr>, d: Datagram, now: nat): (Limiter, Checked) {
      if d.Malformed? then (this, Refused(InvalidPacket))
      else if !IsHandshakeMessage(d) then (this, Passed)
      else if d.mac1 != Mac(Mac1Key(), Body(d)) then (this, Refused(InvalidMac))
      else
        var counted := this.(count := (count + 1) % U64);
        if count < limit then (counted, Passed)
        else if addr.None? then (counted, Refused(UnderLoad))
        else
          var cookie := CurrentCookie(addr.value, now);
          if d.mac2 == Mac2(cookie, Body(d), d.mac1) then (counted, Passed)
          else
            var (replied, reply) := counted.CookieReplyTo(d.senderIdx, cookie, d.mac1);
            (replied, Replied(reply))
    }
  }

  // ---------------------------------------------------------------------------
  // The cookie exchange
  // ---------------------------------------------------------------------------

  /** `d` is a handshake message that `before` formats, leaving `after`. */
  ghost predicate Formats(before: Handshake, after: Handshake, d: Datagram) {
    || (exists ephemeral: nat, now: nat :: before.FormatInitiation(ephemeral, now) == (after, d))
    || (before.state.InitReceived? &&
        exists ephemeral: nat :: before.FormatResponse(ephemeral).0 == after && before.FormatResponse(ephemeral).1 == d)
  }

  /** Every handshake message carries a mac1 for its addressee and, given a cookie, a mac2 under it. */
  lemma FormattedMacs(before: Handshake, after: Handshake, d: Datagram)
    requires Formats(before, after, d)
    ensures IsHandshakeMessage(d)
    ensures d.mac1 == Mac(Hash(LABEL_MAC1, before.params.peerStaticPublic), Body(d))
    ensures d.mac2 == match before.cookies.writeCookie
                      case Some(cookie) => Mac2(cookie, Body(d), d.mac1)
                      case None => Zero
    ensures after.params == before.params
    ensures after.cookies == Cookies(Some(d.mac1), d.senderIdx, before.cookies.writeCookie)
  {
    if before.state.InitReceived? &&
       exists ephemeral: nat :: before.FormatResponse(ephemeral).0 == after && before.FormatResponse(ephemeral).1 == d
    {
      var ephemeral: nat :| before.FormatResponse(ephemeral).0 == after && before.FormatResponse(ephemeral).1 == d;
    } else {
      var ephemeral: nat, now: nat :| before.FormatInitiation(ephemeral, now) == (after, d);
    }
  }

  /** An honest message is answered with a cookie exactly when the limiter is loaded and mac2 is not yet right. */
  lemma HonestMessageChecked(l: Limiter, before: Handshake, after: Handshake, d: Datagram, addr: IpAddr, now: nat)
    requires Formats(before, after, d) && before.params.peerStaticPublic == l.publicKey
    ensures l.VerifyPacket(Some(addr), d, now).1.Passed?
       <==> l.count < l.limit || before.cookies.writeCookie == Some(l.CurrentCookie(addr, now))
    ensures l.VerifyPacket(Some(addr), d, now).1.Passed? || l.VerifyPacket(Some(addr), d, now).1.Replied?
  {
    FormattedMacs(before, after, d);
  }

  /** The reply to an honest message is accepted by its sender, who then holds the cookie of its own address. */
  lemma CookieReplyRoundTrip(l: Limiter, before: Handshake, after: Handshake, d: Datagram, addr: IpAddr, now: nat)
    requires Formats(before, after, d) && before.params.peerStaticPublic == l.publicKey
    requires l.VerifyPacket(Some(addr), d, now).1.Replied?
    ensures
      var (h, r) := after.ReceiveCookieReply(l.VerifyPacket(Some(addr), d, now).1.cookie);
      r.Ok? && h == after.(cookies := after.cookies.(writeCookie := Some(l.CurrentCookie(addr, now))))
  {
    FormattedMacs(before, after, d);
  }

  /**
   Under load, once a sender has received the reply to its last message, its next handshake message passes
   exactly when it comes from the same address within the same epoch. The limiter may have been used by
   others in between.
   */
  lemma CookieUnlocks(
    l: Limiter, before: Handshake, after: Handshake, d: Datagram, addr: IpAddr, now: nat,
    l2: Limiter, next: Handshake, d2: Datagram, addr2: IpAddr, now2: nat)
    requires Formats(before, after, d) && before.params.peerStaticPublic == l.publicKey
    requires l.VerifyPacket(Some(addr), d, now).1.Replied?
    requires l2.secretKey == l.secretKey && l2.startTime == l.startTime && l2.publicKey == l.publicKey
    requires l2.count >= l2.limit
    requires
      var h := after.ReceiveCookieReply(l.VerifyPacket(Some(addr), d, now).1.cookie).0;
      exists h': Handshake :: h'.params == h.params && h'.cookies == h.cookies && Formats(h', next, d2)
    ensures l2.VerifyPacket(Some(addr2), d2, now2).1.Passed?
       <==> l.Epoch(now) == l2.Epoch(now2) && AddressBytes(addr) == AddressBytes(addr2)
  {
    CookieReplyRoundTrip(l, before, after, d, addr, now);
    var h := after.ReceiveCookieReply(l.VerifyPacket(Some(addr), d, now).1.cookie).0;
    var h': Handshake :| h'.params == h.params && h'.cookies == h.cookies && Formats(h', next, d2);
    FormattedMacs(before, after, d);
    HonestMessageChecked(l2, h', next, d2, addr2, now2);
  }

  /** Same address, same epoch: the case the exchange is for. */
  lemma NextMessagePasses(
    l: Limiter, before: Handshake, after: Handshake, d: Datagram, addr: IpAddr, now: nat,
    l2: Limiter, ephemeral: nat, now2: nat)
    requires Formats(before, after, d) && before.params.peerStaticPublic == l.publicKey
    requires l.VerifyPacket(Some(addr), d, now).1.Replied?
    requires l2.secretKey == l.secretKey && l2.startTime == l.startTime && l2.publicKey == l.publicKey
    requires l.Epoch(now) == l2.Epoch(now2)
    ensures
      var h := after.ReceiveCookieReply(l.VerifyPacket(Some(addr), d, now).1.cookie).0;
      l2.VerifyPacket(Some(addr), h.FormatInitiation(ephemeral, now2).1, now2).1.Passed?
  {
    CookieReplyRoundTrip(l, before, after, d, addr, now);
    FormattedMacs(before, after, d);
    var h := after.ReceiveCookieReply(l.VerifyPacket(Some(addr), d, now).1.cookie).0;
    var (h', d') := h.FormatInitiation(ephemeral, now2);
    HonestMessageChecked(l2, h, h', d', addr, now2);
  }

  // ---------------------------------------------------------------------------
  // The limiter
  // ---------------------------------------------------------------------------

  class RateLimiter {
    const nonceKey: Term
    const secretKey: Term
    const startTime: nat
    const publicKey: Term
    const limit: nat
    var nonceCtr: nat
    var count: nat
    var lastReset: nat

    ghost function View(): Limiter
      reads this
    {
      Limiter(nonceKey, secretKey, startTime, nonceCtr, publicKey, limit, count, lastReset)
    }

    constructor (publicKey: Term, limit: nat, nonceKey: Term, secretKey: Term, now: nat)
      ensures View() == Limiter(nonceKey, secretKey, now, 0, publicKey, limit, 0, now)
    {
      this.publicKey, this.limit, this.nonceKey, this.secretKey := publicKey, limit, nonceKey, secretKey;
      startTime, lastReset, count, nonceCtr := now, now, 0, 0;
    }

    method ResetCount(now: nat)
      modifies this`count, this`lastReset
      ensures View() == old(View()).ResetCount(now)
    {
      if (now - lastReset) / SECOND >= RESET_PERIOD {
        count := 0;
        lastReset := now;
      }
    }

    /** Counts the message, and tells whether there were too many of them already. */
    method IsUnderLoad() returns (loaded: bool)
      modifies this`count
      ensures loaded == (old(count) >= limit)
      ensures count == (old(count) + 1) % U64
    {
      loaded := count >= limit;
      count := (count + 1) % U64;
    }

    method Nonce() returns (nonce: Term)
      modifies this`nonceCtr
      ensures nonce == Mac(nonceKey, Number(old(nonceCtr)))
      ensures nonceCtr == (old(nonceCtr) + 1) % U64
    {
      nonce := Mac(nonceKey, Number(nonceCtr));
      nonceCtr := (nonceCtr + 1) % U64;
    }

    method VerifyPacket(addr: Option<IpAddr>, d: Datagram, now: nat) returns (r: Checked)
      modifies this`count, this`nonceCtr
      ensures View() == old(View()).VerifyPacket(addr, d, now).0
      ensures r == old(View()).VerifyPacket(addr, d, now).1
    {
      if d.Malformed? {
        return Refused(InvalidPacket);
      }
      if IsHandshakeMessage(d) {
        var computedMac1 := Mac(Keys().Mac1Key(), Body(d));
        if computedMac1 != d.mac1 {
          return Refused(InvalidMac);
        }
        var loaded := IsUnderLoad();
        if loaded {
          if addr.None? {
            return Refused(UnderLoad);
          }
          var cookie := Keys().CurrentCookie(addr.value, now);
          var computedMac2 := Mac2(cookie, Body(d), d.mac1);
          if computedMac2 != d.mac2 {
            var nonce := Nonce();
            return Replied(CookieReply(d.senderIdx, nonce, Seal(Keys().CookieKey(), nonce, cookie, d.mac1)));
          }
        }
      }
      return Passed;
    }

    /** The keys, which never change. */
    function Keys(): Limiter {
      Limiter(nonceKey, secretKey, startTime, 0, publicKey, limit, 0, 0)
    }
  }
}
