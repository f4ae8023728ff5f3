/**
 The messages of the payment protocol: a type, a 16-bit length and fields of fixed width.
 */
module PaymentMessages {
  import opened Wrappers
  import opened BigEndian

  const MSG_PAYMENT_REQUIRED: Byte := 0x01
  const MSG_PAYMENT_ACCEPTED: Byte := 0x02
  const MSG_PAYMENT_SUBMIT: Byte := 0x81

  type Amount = n: int | 0 <= n < U64

  predicate IsWord(bs: Bytes) {
    |bs| == 32
  }

  predicate IsAddress(bs: Bytes) {
    |bs| == 20
  }

  // ---------------------------------------------------------------------------
  // Type and length
  // ---------------------------------------------------------------------------

  function Tlv(kind: Byte, payload: Bytes): Bytes
    requires |payload| < 0x1_0000
  {
    [kind, |payload| / 256, |payload| % 256] + payload
  }

  /** What follows the header, if the type is right and the stated length is there and long enough. */
  function Untlv(kind: Byte, least: nat, data: Bytes): (r: Option<Bytes>)
    ensures r.Some? ==> |r.value| >= least && |data| >= 3 && data[0] == kind && data[3..] == r.value
  {
    if |data| < 3 || data[0] != kind then None
    else
      var len := FromBe16(data[1], data[2]);
      if |data| < 3 + len || len < least then None else Some(data[3..])
  }

  lemma TlvReadsBack(kind: Byte, payload: Bytes, rest: Bytes)
    requires |payload| < 0x1_0000
    ensures Untlv(kind, |payload|, Tlv(kind, payload) + rest) == Some(payload + rest)
  {
    assert (Tlv(kind, payload) + rest)[3..] == payload + rest;
  }

  // ---------------------------------------------------------------------------
  // PaymentRequired
  // ---------------------------------------------------------------------------

  datatype PaymentRequired = PaymentRequired(
    amountUsdc: Amount, nonce: Bytes, recipient: Bytes, deadline: Amount, chainId: Amount, usdcContract: Bytes) {

    predicate Valid() {
      IsWord(nonce) && IsAddress(recipient) && IsAddress(usdcContract)
    }

    function Parts(): seq<Bytes> {
      [ToBe(amountUsdc, 8), nonce, recipient, ToBe(deadline, 8), ToBe(chainId, 8), usdcContract]
    }

    function Encode(): Bytes
      requires Valid()
    {
      PartsSized();
      CutsJoined(Parts(), REQUIRED_WIDTHS, []);
      Tlv(MSG_PAYMENT_REQUIRED, Concat(Parts()))
    }

    lemma PartsSized()
      requires Valid()
      ensures Sized(Parts(), REQUIRED_WIDTHS) && Total(REQUIRED_WIDTHS) == 96
    {
      RequiredTotal();
    }
  }

  const REQUIRED_WIDTHS: seq<nat> := [8, 32, 20, 8, 8, 20]

  lemma RequiredTotal()
    ensures Total(REQUIRED_WIDTHS) == 96
  {
    assert Total([8, 32, 20, 8, 8, 20]) == 96;
  }

  lemma AmountReads(bs: Bytes)
    requires |bs| == 8
    ensures FromBe(bs) < U64
  {
    BeUnique(bs);
    Pow8();
  }

  function RequiredFrom(parts: seq<Bytes>): (m: PaymentRequired)
    requires Sized(parts, REQUIRED_WIDTHS)
    ensures m.Valid()
  {
    AmountReads(parts[0]);
    AmountReads(parts[3]);
    AmountReads(parts[4]);
    PaymentRequired(FromBe(parts[0]), parts[1], parts[2], FromBe(parts[3]), FromBe(parts[4]), parts[5])
  }

  function DecodeRequired(data: Bytes): (r: Option<PaymentRequired>)
    ensures r.Some? ==> r.value.Valid()
  {
    match Untlv(MSG_PAYMENT_REQUIRED, 96, data)
    case None => None
    case Some(p) =>
      RequiredTotal();
      Some(RequiredFrom(Cut(p, REQUIRED_WIDTHS)))
  }

  lemma RequiredReadsBack(m: PaymentRequired, rest: Bytes)
    requires m.Valid()
    ensures DecodeRequired(m.Encode() + rest) == Some(m)
  {
    m.PartsSized();
    CutsJoined(m.Parts(), REQUIRED_WIDTHS, rest);
    TlvReadsBack(MSG_PAYMENT_REQUIRED, Concat(m.Parts()), rest);
    Pow8();
    FromToBe(m.amountUsdc, 8);
    FromToBe(m.deadline, 8);
    FromToBe(m.chainId, 8);
  }

  /** What is decoded is what is there: encoding it gives the payload back. */
  lemma RequiredWritesBack(data: Bytes)
    requires DecodeRequired(data).Some?
    ensures |data| >= 99 && DecodeRequired(data).value.Encode()[3..] == data[3..99]
  {
    RequiredTotal();
    var parts := Cut(data[3..], REQUIRED_WIDTHS);
    JoinsCut(data[3..], REQUIRED_WIDTHS);
    RequiredPartsBack(parts);
    assert data[3..][..96] == data[3..99];
  }

  lemma RequiredPartsBack(parts: seq<Bytes>)
    requires Sized(parts, REQUIRED_WIDTHS)
    ensures RequiredFrom(parts).Parts() == parts
  {
    BeUnique(parts[0]);
    BeUnique(parts[3]);
    BeUnique(parts[4]);
  }

  // ---------------------------------------------------------------------------
  // PaymentSubmit
  // ---------------------------------------------------------------------------

  datatype PaymentSubmit = PaymentSubmit(
    from: Bytes, to: Bytes, value: Amount, validAfter: Amount, validBefore: Amount, nonce: Bytes,
    v: Byte, r: Bytes, s: Bytes) {

    predicate Valid() {
      IsAddress(from) && IsAddress(to) && IsWord(nonce) && IsWord(r) && IsWord(s)
    }

    function Parts(): seq<Bytes> {
      [from, to, ToBe(value, 8), ToBe(validAfter, 8), ToBe(validBefore, 8), nonce, [v], r, s]
    }

    function Encode(): Bytes
      requires Valid()
    {
      PartsSized();
      CutsJoined(Parts(), SUBMIT_WIDTHS, []);
      Tlv(MSG_PAYMENT_SUBMIT, Concat(Parts()))
    }

    lemma PartsSized()
      requires Valid()
      ensures Sized(Parts(), SUBMIT_WIDTHS) && Total(SUBMIT_WIDTHS) == 161
    {
      SubmitTotal();
    }
  }

  const SUBMIT_WIDTHS: seq<nat> := [20, 20, 8, 8, 8, 32, 1, 32, 32]

  lemma SubmitTotal()
    ensures Total(SUBMIT_WIDTHS) == 161
  {
    assert Total([20, 20, 8, 8, 8, 32, 1, 32, 32]) == 161;
  }

  function SubmitFrom(parts: seq<Bytes>): (m: PaymentSubmit)
    requires Sized(parts, SUBMIT_WIDTHS)
    ensures m.Valid()
  {
    AmountReads(parts[2]);
    AmountReads(parts[3]);
    AmountReads(parts[4]);
    PaymentSubmit(parts[0], parts[1], FromBe(parts[2]), FromBe(parts[3]), FromBe(parts[4]), parts[5], parts[6][0],
                  parts[7], parts[8])
  }

  function DecodeSubmit(data: Bytes): (r: Option<PaymentSubmit>)
    ensures r.Some? ==> r.value.Valid()
  {
    match Untlv(MSG_PAYMENT_SUBMIT, 161, data)
    case None => None
    case Some(p) =>
      SubmitTotal();
      Some(SubmitFrom(Cut(p, SUBMIT_WIDTHS)))
  }

  lemma SubmitReadsBack(m: PaymentSubmit, rest: Bytes)
    requires m.Valid()
    ensures DecodeSubmit(m.Encode() + rest) == Some(m)
  {
    m.PartsSized();
    CutsJoined(m.Parts(), SUBMIT_WIDTHS, rest);
    TlvReadsBack(MSG_PAYMENT_SUBMIT, Concat(m.Parts()), rest);
    Pow8();
    FromToBe(m.value, 8);
    FromToBe(m.validAfter, 8);
    FromToBe(m.validBefore, 8);
  }

  lemma SubmitWritesBack(data: Bytes)
    requires DecodeSubmit(data).Some?
    ensures |data| >= 164 && DecodeSubmit(data).value.Encode()[3..] == data[3..164]
  {
    SubmitTotal();
    var parts := Cut(data[3..], SUBMIT_WIDTHS);
    JoinsCut(data[3..], SUBMIT_WIDTHS);
    SubmitPartsBack(parts);
    assert data[3..][..161] == data[3..164];
  }

  lemma SubmitPartsBack(parts: seq<Bytes>)
    requires Sized(parts, SUBMIT_WIDTHS)
    ensures SubmitFrom(parts).Parts() == parts
  {
    BeUnique(parts[2]);
    BeUnique(parts[3]);
    BeUnique(parts[4]);
    assert parts[6] == [parts[6][0]];
  }

  // ---------------------------------------------------------------------------
  // PaymentAccepted
  // ---------------------------------------------------------------------------

  datatype PaymentAccepted = PaymentAccepted(newQuotaBytes: Amount) {
    function Encode(): Bytes {
      Tlv(MSG_PAYMENT_ACCEPTED, ToBe(newQuotaBytes, 8))
    }
  }

  function DecodeAccepted(data: Bytes): Option<PaymentAccepted> {
    match Untlv(MSG_PAYMENT_ACCEPTED, 8, data)
    case None => None
    case Some(p) =>
      AmountReads(p[..8]);
      Some(PaymentAccepted(FromBe(p[..8])))
  }

  lemma AcceptedReadsBack(m: PaymentAccepted, rest: Bytes)
    ensures DecodeAccepted(m.Encode() + rest) == Some(m)
  {
    var payload := ToBe(m.newQuotaBytes, 8);
    TlvReadsBack(MSG_PAYMENT_ACCEPTED, payload, rest);
    assert (payload + rest)[..8] == payload;
    Pow8();
    FromToBe(m.newQuotaBytes, 8);
  }

  /** The type byte tells the messages apart. */
  lemma KindsDiffer(data: Bytes)
    ensures !(DecodeRequired(data).Some? && DecodeSubmit(data).Some?)
    ensures !(DecodeRequired(data).Some? && DecodeAccepted(data).Some?)
    ensures !(DecodeSubmit(data).Some? && DecodeAccepted(data).Some?)
  {}
}
