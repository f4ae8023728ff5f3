/**
 The bandwidth quota of a peer: a number of bytes that traffic in either direction uses up and payments
 renew. Counters are 64-bit and wrap.
 */
module Quotas {
  import opened Wrappers
  import opened BigEndian
  import opened PaymentMessages
  import opened Payments

  function WrapAdd(a: Amount, b: Amount): Amount {
    if a + b < U64 then a + b else a + b - U64
  }

  datatype Quota = Quota(remaining: Amount, blocked: bool, totalConsumed: Amount, paymentCount: Amount,
                         usedNonces: set<Bytes>) {

    /** Uses up bytes; false if there were not enough, which uses up what was left. */
    function Consume(bytes: Amount): (Quota, bool) {
      if remaining == 0 then (this, false)
      else if bytes > remaining then
        (this.(remaining := 0, totalConsumed := WrapAdd(totalConsumed, remaining), blocked := true), false)
      else (this.(remaining := remaining - bytes, totalConsumed := WrapAdd(totalConsumed, bytes)), true)
    }

    function Credit(bytes: Amount): Quota {
      this.(remaining := WrapAdd(remaining, bytes), paymentCount := WrapAdd(paymentCount, 1), blocked := false)
    }

    function Record(nonce: Bytes): Quota {
      this.(usedNonces := usedNonces + {nonce})
    }

    /** The gate that every packet of the peer passes, inbound or outbound. */
    function Gate(bytes: Amount): (Quota, bool) {
      if blocked then (this, false) else Consume(bytes)
    }
  }

  function NewQuota(initial: Amount): Quota {
    Quota(initial, false, 0, 0, {})
  }

  /** How the settlement service answers; without a service the payment is taken as settled. */
  datatype Settlement = Absent | Approves | Rejects | Fails {
    predicate Settles() {
      Absent? || Approves?
    }
  }

  datatype Outcome = Refused(verdict: Verdict) | Unsettled | Credited(submit: PaymentSubmit)

  /** The handler of a submitted payment. The nonce is used up before the signature is checked. */
  function HandleSubmit(sc: Scheme, server: Server, quotaBytes: Amount, q: Quota, payload: Bytes,
                        settlement: Settlement)
    : (Quota, Outcome)
  {
    match DecodeSubmit(payload)
    case None => (q, Refused(Undecodable))
    case Some(submit) => HandleDecoded(sc, server, quotaBytes, q, submit, settlement)
  }

  function HandleDecoded(sc: Scheme, server: Server, quotaBytes: Amount, q: Quota, submit: PaymentSubmit,
                         settlement: Settlement)
    : (Quota, Outcome)
  {
    match CheckSubmit(sc, server, q.usedNonces, submit)
    case Verified(_) =>
      var q' := q.Record(submit.nonce);
      if settlement.Settles() then (q'.Credit(quotaBytes), Credited(submit)) else (q', Unsettled)
    case BadSignature => (q.Record(submit.nonce), Refused(BadSignature))
    case SignerMismatch => (q.Record(submit.nonce), Refused(SignerMismatch))
    case verdict => (q, Refused(verdict))
  }

  // ---------------------------------------------------------------------------
  // The life of a peer
  // ---------------------------------------------------------------------------

  datatype Event = Packet(bytes: Amount) | Submit(payload: Bytes, settlement: Settlement)

  /** The quota, the bytes that passed the gate and the payments that were credited. */
  datatype Account = Account(quota: Quota, passed: nat, credits: seq<PaymentSubmit>)

  function React(sc: Scheme, server: Server, quotaBytes: Amount, a: Account, e: Event): Account {
    match e
    case Packet(bytes) =>
      var (q, ok) := a.quota.Gate(bytes);
      a.(quota := q, passed := a.passed + if ok then bytes else 0)
    case Submit(payload, settlement) =>
      var (q, outcome) := HandleSubmit(sc, server, quotaBytes, a.quota, payload, settlement);
      a.(quota := q, credits := if outcome.Credited? then a.credits + [outcome.submit] else a.credits)
  }

  function After(sc: Scheme, server: Server, quotaBytes: Amount, initial: Amount, events: seq<Event>): Account {
    if events == [] then Account(NewQuota(initial), 0, [])
    else React(sc, server, quotaBytes, After(sc, server, quotaBytes, initial, events[..|events| - 1]),
               events[|events| - 1])
  }

  /** What was granted so far: the initial bytes and those of `n` payments. */
  function Granted(initial: Amount, quotaBytes: Amount, n: nat): nat {
    if n == 0 then initial else Granted(initial, quotaBytes, n - 1) + quotaBytes
  }

  lemma {:induction false} GrantedIsLinear(initial: Amount, quotaBytes: Amount, n: nat)
    ensures Granted(initial, quotaBytes, n) == initial + n * quotaBytes
  {
    if n > 0 {
      GrantedIsLinear(initial, quotaBytes, n - 1);
    }
  }

  /** A submitted payment that passed the checks of recipient, amount and signer. */
  ghost predicate Checked(sc: Scheme, server: Server, submit: PaymentSubmit) {
    && submit.to == sc.address(server.secret)
    && submit.value >= server.amountPerQuota
    && sc.recover(Digest(server.domain, AuthorizationOf(submit)), Signed(submit.v, submit.r, submit.s))
       == Some(submit.from)
  }

  ghost predicate CreditsOk(sc: Scheme, server: Server, a: Account) {
    && (forall i :: 0 <= i < |a.credits| ==>
          Checked(sc, server, a.credits[i]) && a.credits[i].nonce in a.quota.usedNonces)
    && (forall i, j :: 0 <= i < j < |a.credits| ==> a.credits[i].nonce != a.credits[j].nonce)
  }

  /** `granted` is what the account was granted so far. */
  ghost predicate Balanced(a: Account, granted: nat) {
    && (a.quota.remaining + a.quota.totalConsumed) % U64 == granted % U64
    && (granted < U64 ==> a.quota.remaining + a.quota.totalConsumed == granted && a.passed <= a.quota.totalConsumed)
    && a.passed + a.quota.remaining <= granted
    && (a.quota.blocked ==> a.quota.remaining == 0)
  }

  lemma WrapAddIsModular(a: Amount, b: Amount)
    ensures WrapAdd(a, b) == (a + b) % U64
  {}

  lemma ShiftMod(a: int, b: int, c: int)
    requires a % U64 == b % U64
    ensures (a + c) % U64 == (b + c) % U64
  {}

  lemma SameMod(a: int, b: int)
    requires a == b || a == b + U64 || a == b - U64
    ensures a % U64 == b % U64
  {}

  lemma PacketBalances(sc: Scheme, server: Server, quotaBytes: Amount, a: Account, bytes: Amount, granted: nat)
    requires Balanced(a, granted)
    ensures Balanced(React(sc, server, quotaBytes, a, Packet(bytes)), granted)
  {
    var q, q' := a.quota, a.quota.Gate(bytes).0;
    SameMod(q'.remaining + q'.totalConsumed, q.remaining + q.totalConsumed);
  }

  lemma CreditBalances(a: Account, quotaBytes: Amount, granted: nat, a': Account)
    requires Balanced(a, granted) && a'.passed == a.passed
    requires a'.quota.remaining == WrapAdd(a.quota.remaining, quotaBytes)
    requires a'.quota.totalConsumed == a.quota.totalConsumed
    requires !a'.quota.blocked
    ensures Balanced(a', granted + quotaBytes)
  {
    ShiftMod(a.quota.remaining + a.quota.totalConsumed, granted, quotaBytes);
    SameMod(a'.quota.remaining + a'.quota.totalConsumed, a.quota.remaining + a.quota.totalConsumed + quotaBytes);
  }

  ghost predicate AccountOk(sc: Scheme, server: Server, quotaBytes: Amount, initial: Amount, a: Account) {
    && CreditsOk(sc, server, a)
    && a.quota.paymentCount == |a.credits| % U64
    && Balanced(a, Granted(initial, quotaBytes, |a.credits|))
  }

  /** What a submitted payment can do to a quota: nothing, use up a nonce, or a new nonce and a credit. */
  ghost predicate SubmitResult(sc: Scheme, server: Server, quotaBytes: Amount, q: Quota, q': Quota, outcome: Outcome) {
    if outcome.Credited? then
      && Checked(sc, server, outcome.submit) && outcome.submit.nonce !in q.usedNonces
      && q' == q.Record(outcome.submit.nonce).Credit(quotaBytes)
    else q.usedNonces <= q'.usedNonces && q' == q.(usedNonces := q'.usedNonces)
  }

  lemma SubmitHasResult(sc: Scheme, server: Server, quotaBytes: Amount, q: Quota, payload: Bytes,
                        settlement: Settlement)
    ensures
      var (q', outcome) := HandleSubmit(sc, server, quotaBytes, q, payload, settlement);
      SubmitResult(sc, server, quotaBytes, q, q', outcome)
  {
    match DecodeSubmit(payload)
    case None =>
    case Some(submit) => DecodedHasResult(sc, server, quotaBytes, q, submit, settlement);
  }

  lemma DecodedHasResult(sc: Scheme, server: Server, quotaBytes: Amount, q: Quota, submit: PaymentSubmit,
                         settlement: Settlement)
    ensures
      var (q', outcome) := HandleDecoded(sc, server, quotaBytes, q, submit, settlement);
      SubmitResult(sc, server, quotaBytes, q, q', outcome)
  {}

  lemma SubmitKeepsOk(sc: Scheme, server: Server, quotaBytes: Amount, initial: Amount, a: Account, q': Quota,
                      outcome: Outcome)
    requires AccountOk(sc, server, quotaBytes, initial, a) && SubmitResult(sc, server, quotaBytes, a.quota, q', outcome)
    ensures
      var credits := if outcome.Credited? then a.credits + [outcome.submit] else a.credits;
      AccountOk(sc, server, quotaBytes, initial, a.(quota := q', credits := credits))
  {
    if outcome.Credited? {
      var a' := a.(quota := q', credits := a.credits + [outcome.submit]);
      CreditBalances(a, quotaBytes, Granted(initial, quotaBytes, |a.credits|), a');
      ShiftMod(a.quota.paymentCount, |a.credits|, 1);
      WrapAddIsModular(a.quota.paymentCount, 1);
    }
  }

  lemma ReactKeepsOk(sc: Scheme, server: Server, quotaBytes: Amount, initial: Amount, a: Account, e: Event)
    requires AccountOk(sc, server, quotaBytes, initial, a)
    ensures AccountOk(sc, server, quotaBytes, initial, React(sc, server, quotaBytes, a, e))
  {
    match e
    case Packet(bytes) => PacketBalances(sc, server, quotaBytes, a, bytes, Granted(initial, quotaBytes, |a.credits|));
    case Submit(payload, settlement) =>
      SubmitHasResult(sc, server, quotaBytes, a.quota, payload, settlement);
      var (q', outcome) := HandleSubmit(sc, server, quotaBytes, a.quota, payload, settlement);
      SubmitKeepsOk(sc, server, quotaBytes, initial, a, q', outcome);
  }

  /**
   Over the life of a peer: what remains and what was consumed add up to what was granted, modulo 2^64
   always and exactly while the grants stay below it; the bytes that passed never exceed the grants; a
   blocked peer has nothing left; and the credits are payments with pairwise different nonces that passed
   the checks.
   */
  lemma {:induction false} QuotaAccount(sc: Scheme, server: Server, quotaBytes: Amount, initial: Amount,
                                        events: seq<Event>)
    ensures AccountOk(sc, server, quotaBytes, initial, After(sc, server, quotaBytes, initial, events))
  {
    if events != [] {
      var before := events[..|events| - 1];
      QuotaAccount(sc, server, quotaBytes, initial, before);
      ReactKeepsOk(sc, server, quotaBytes, initial, After(sc, server, quotaBytes, initial, before),
                   events[|events| - 1]);
    }
  }

  /** Nothing left does not mean blocked: using up exactly what is left blocks nothing. */
  lemma BlockingIsLate(q: Quota, bytes: Amount)
    ensures q.Consume(bytes).0.blocked <==> q.blocked || 0 < q.remaining < bytes
    ensures q.remaining > 0 && !q.blocked ==>
      var q' := q.Consume(q.remaining).0; q'.remaining == 0 && !q'.blocked
  {}

  // ---------------------------------------------------------------------------
  // The counters
  // ---------------------------------------------------------------------------

  class BandwidthQuota {
    var remainingBytes: Amount
    var blocked: bool
    var totalConsumed: Amount
    var paymentCount: Amount
    var usedNonces: set<Bytes>

    ghost function View(): Quota
      reads this
    {
      Quota(remainingBytes, blocked, totalConsumed, paymentCount, usedNonces)
    }

    constructor (initialBytes: Amount)
      ensures View() == NewQuota(initialBytes)
    {
      remainingBytes, blocked, totalConsumed, paymentCount, usedNonces := initialBytes, false, 0, 0, {};
    }

    method Consume(bytes: Amount) returns (allowed: bool)
      modifies this`remainingBytes, this`blocked, this`totalConsumed
      ensures (View(), allowed) == old(View()).Consume(bytes)
    {
      var remaining := remainingBytes;
      if remaining == 0 {
        return false;
      }
      if bytes > remaining {
        remainingBytes := 0;
        totalConsumed := WrapAdd(totalConsumed, remaining);
        blocked := true;
        return false;
      } else {
        remainingBytes := remainingBytes - bytes;
        totalConsumed := WrapAdd(totalConsumed, bytes);
        return true;
      }
    }

    method Credit(bytes: Amount)
      modifies this`remainingBytes, this`blocked, this`paymentCount
      ensures View() == old(View()).Credit(bytes)
    {
      remainingBytes := WrapAdd(remainingBytes, bytes);
      paymentCount := WrapAdd(paymentCount, 1);
      blocked := false;
    }

    method CheckAndRecordNonce(nonce: Bytes) returns (isNew: bool)
      modifies this`usedNonces
      ensures isNew == (nonce !in old(usedNonces)) && View() == old(View()).Record(nonce)
    {
      isNew := nonce !in usedNonces;
      usedNonces := usedNonces + {nonce};
    }

    /** What the device does with a packet of the peer before it goes on. */
    method GatePacket(bytes: Amount) returns (pass: bool)
      modifies this`remainingBytes, this`blocked, this`totalConsumed
      ensures (View(), pass) == old(View()).Gate(bytes)
    {
      if blocked {
        return false;
      }
      pass := Consume(bytes);
    }

    /** What the device does with a submitted payment. */
    method HandlePaymentSubmit(sc: Scheme, server: Server, quotaBytes: Amount, payload: Bytes, settlement: Settlement)
      returns (outcome: Outcome)
      modifies this
      ensures (View(), outcome) == HandleSubmit(sc, server, quotaBytes, old(View()), payload, settlement)
    {
      var decoded := DecodeSubmit(payload);
      if decoded.None? {
        return Refused(Undecodable);
      }
      outcome := HandleAuthorization(sc, server, quotaBytes, decoded.value, settlement);
    }

    method HandleAuthorization(sc: Scheme, server: Server, quotaBytes: Amount, submit: PaymentSubmit,
                               settlement: Settlement)
      returns (outcome: Outcome)
      modifies this
      ensures (View(), outcome) == HandleDecoded(sc, server, quotaBytes, old(View()), submit, settlement)
    {
      if submit.to != sc.address(server.secret) {
        return Refused(WrongRecipient);
      }
      if submit.value < server.amountPerQuota {
        return Refused(Insufficient);
      }
      var isNew := CheckAndRecordNonce(submit.nonce);
      if !isNew {
        assert usedNonces == old(usedNonces);
        return Refused(Replayed);
      }
      var recovered := sc.recover(Digest(server.domain, AuthorizationOf(submit)), Signed(submit.v, submit.r, submit.s));
      if recovered.None? {
        return Refused(BadSignature);
      }
      if recovered.value != submit.from {
        return Refused(SignerMismatch);
      }
      if settlement.Settles() {
        Credit(quotaBytes);
        return Credited(submit);
      }
      return Unsettled;
    }
  }
}
