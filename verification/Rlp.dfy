/**
 The RLP encoding of EIP-1559 transactions (Appendix B of the Ethereum Yellow Paper), with a decoder as
 its inverse: encodings delimit themselves, and a transaction can be read back from the bytes that are
 hashed and signed.
 */
module Rlp {
  import opened Wrappers
  import opened BigEndian

  type Size = n: int | 0 <= n < U64

  // ---------------------------------------------------------------------------
  // Numbers without leading zeros
  // ---------------------------------------------------------------------------

  /** From the first non-zero byte on. */
  function Strip(bs: Bytes): (r: Bytes)
    ensures |r| <= |bs|
  {
    if bs != [] && bs[0] == 0 then Strip(bs[1..]) else bs
  }

  /** No leading zeros. */
  predicate Minimal(bs: Bytes) {
    bs != [] ==> bs[0] != 0
  }

  lemma {:induction false} FromBeDropsZero(bs: Bytes)
    requires bs != [] && bs[0] == 0
    ensures FromBe(bs[1..]) == FromBe(bs)
  {
    if |bs| > 1 {
      FromBeDropsZero(bs[..|bs| - 1]);
      assert bs[..|bs| - 1][1..] == bs[1..][..|bs| - 2];
    }
  }

  lemma {:induction false} StripKeepsValue(bs: Bytes)
    ensures FromBe(Strip(bs)) == FromBe(bs) && Minimal(Strip(bs))
    decreases |bs|
  {
    if bs != [] && bs[0] == 0 {
      FromBeDropsZero(bs);
      StripKeepsValue(bs[1..]);
    }
  }

  /** A number without leading zeros is at least as large as its length says. */
  lemma {:induction false} MinimalIsLarge(bs: Bytes)
    requires bs != [] && Minimal(bs)
    ensures FromBe(bs) >= Pow256(|bs| - 1) && FromBe(bs) > 0
  {
    if |bs| > 1 {
      MinimalIsLarge(bs[..|bs| - 1]);
    } else {
      assert bs[..0] == [];
    }
  }

  /** Without leading zeros, a number has one spelling. */
  lemma {:induction false} MinimalIsUnique(a: Bytes, b: Bytes)
    requires Minimal(a) && Minimal(b) && FromBe(a) == FromBe(b)
    ensures a == b
    decreases |a|
  {
    if a == [] || b == [] {
      if a != [] {
        MinimalIsLarge(a);
      }
      if b != [] {
        MinimalIsLarge(b);
      }
    } else {
      var (a', b') := (a[..|a| - 1], b[..|b| - 1]);
      assert FromBe(a') == FromBe(b') && a[|a| - 1] == b[|b| - 1];
      MinimalIsUnique(a', b');
      assert a == a' + [a[|a| - 1]] && b == b' + [b[|b| - 1]];
    }
  }

  // ---------------------------------------------------------------------------
  // Encoding
  // ---------------------------------------------------------------------------

  const MAX_SHORT := 55

  /** The bytes of a length, without leading zeros. */
  function EncodeLength(len: Size): Bytes {
    var be := ToBe(len, 8);
    if len == 0 then be[7..] else Strip(be)
  }

  /** The header of `len` bytes of payload; `short` is 0x80 for a string and 0xc0 for a list. */
  function Header(short: int, len: Size): (h: Bytes)
    requires short == 0x80 || short == 0xc0
    ensures h != []
  {
    if len <= MAX_SHORT then [(short + len) as Byte]
    else
      var lenBytes := EncodeLength(len);
      [(short + MAX_SHORT + |lenBytes|) as Byte] + lenBytes
  }

  function EncodeBytes(data: Bytes): Bytes
    requires |data| < U64
  {
    if |data| == 1 && data[0] < 0x80 then [data[0]] else Header(0x80, |data|) + data
  }

  function EncodeList(items: seq<Bytes>): Bytes
    requires |Concat(items)| < U64
  {
    Header(0xc0, |Concat(items)|) + Concat(items)
  }

  /** The significant bytes of an integer field; none for zero. */
  function Significant(value: nat, width: nat): Bytes {
    Strip(ToBe(value, width))
  }

  function EncodeUint(value: nat, width: nat): Bytes
    requires width < U64
  {
    if value == 0 then [0x80] else EncodeBytes(Significant(value, width))
  }

  // ---------------------------------------------------------------------------
  // Decoding
  // ---------------------------------------------------------------------------

  datatype Item = Str(bytes: Bytes) | ListOf(payload: Bytes)

  predicate Fits(item: Item) {
    match item
    case Str(bytes) => |bytes| < U64
    case ListOf(payload) => |payload| < U64
  }

  function EncodeItem(item: Item): Bytes
    requires Fits(item)
  {
    match item
    case Str(bytes) => EncodeBytes(bytes)
    case ListOf(payload) => Header(0xc0, |payload|) + payload
  }

  /** A payload of `len` bytes and what follows it. */
  function Split(bs: Bytes, len: nat): (r: Option<(Bytes, Bytes)>)
    ensures r.Some? ==> r.value.0 + r.value.1 == bs
  {
    if len <= |bs| then Some((bs[..len], bs[len..])) else None
  }

  /** Reads a payload behind a header whose first byte is `first`; `short` tells strings from lists. */
  function Framed(first: int, short: int, tail: Bytes): Option<(Bytes, Bytes)>
    requires short <= first
  {
    if first <= short + MAX_SHORT then Split(tail, first - short)
    else
      var n := first - short - MAX_SHORT;
      if n > |tail| then None else Split(tail[n..], FromBe(tail[..n]))
  }

  /** The first item and what follows it. */
  function DecodeItem(bs: Bytes): (r: Option<(Item, Bytes)>)
    ensures r.Some? ==> |r.value.1| < |bs|
  {
    if bs == [] then None
    else if bs[0] < 0x80 then Some((Str([bs[0]]), bs[1..]))
    else if bs[0] < 0xc0 then
      match Framed(bs[0], 0x80, bs[1..])
      case None => None
      case Some((data, rest)) => Some((Str(data), rest))
    else
      match Framed(bs[0], 0xc0, bs[1..])
      case None => None
      case Some((payload, rest)) => Some((ListOf(payload), rest))
  }

  /** All items, if the bytes are a sequence of items. */
  function DecodeAll(bs: Bytes): Option<seq<Item>>
    decreases |bs|
  {
    if bs == [] then Some([])
    else
      match DecodeItem(bs)
      case None => None
      case Some((item, rest)) =>
        match DecodeAll(rest)
        case None => None
        case Some(items) => Some([item] + items)
  }

  lemma LengthReadsBack(len: Size)
    requires len > 0
    ensures FromBe(EncodeLength(len)) == len && 1 <= |EncodeLength(len)| <= 8 && Minimal(EncodeLength(len))
  {
    Pow8();
    FromToBe(len, 8);
    StripKeepsValue(ToBe(len, 8));
  }

  /** What follows a header is read back as its payload, whatever comes after it. */
  lemma HeaderDelimits(short: int, payload: Bytes, rest: Bytes)
    requires (short == 0x80 || short == 0xc0) && |payload| < U64
    ensures
      var bs := Header(short, |payload|) + payload + rest;
      short <= bs[0] < short + 0x40 && Framed(bs[0], short, bs[1..]) == Some((payload, rest))
  {
    var bs := Header(short, |payload|) + payload + rest;
    if |payload| <= MAX_SHORT {
      assert bs[1..] == payload + rest;
    } else {
      LengthReadsBack(|payload|);
      var lenBytes := EncodeLength(|payload|);
      assert bs[1..] == lenBytes + (payload + rest);
      LongFrame(short, lenBytes, payload, rest);
    }
  }

  lemma LongFrame(short: int, lenBytes: Bytes, payload: Bytes, rest: Bytes)
    requires lenBytes != [] && FromBe(lenBytes) == |payload|
    ensures Framed(short + MAX_SHORT + |lenBytes|, short, lenBytes + (payload + rest)) == Some((payload, rest))
  {
    var tail := lenBytes + (payload + rest);
    assert tail[..|lenBytes|] == lenBytes && tail[|lenBytes|..] == payload + rest;
  }

  /** Encodings delimit themselves. */
  lemma ItemDelimits(item: Item, rest: Bytes)
    requires Fits(item)
    ensures DecodeItem(EncodeItem(item) + rest) == Some((item, rest))
  {
    match item
    case Str(bytes) =>
      if |bytes| == 1 && bytes[0] < 0x80 {
        assert (EncodeItem(item) + rest)[1..] == rest;
        assert bytes == [bytes[0]];
      } else {
        HeaderDelimits(0x80, bytes, rest);
      }
    case ListOf(payload) => HeaderDelimits(0xc0, payload, rest);
  }

  ghost predicate AllFit(items: seq<Item>) {
    forall i :: 0 <= i < |items| ==> Fits(items[i])
  }

  function EncodeAll(items: seq<Item>): (r: seq<Bytes>)
    requires AllFit(items)
    ensures |r| == |items| && forall i :: 0 <= i < |r| ==> r[i] == EncodeItem(items[i])
  {
    seq(|items|, i requires 0 <= i < |items| => EncodeItem(items[i]))
  }

  /** A sequence of encodings is read back item by item. */
  lemma {:induction false} AllReadBack(items: seq<Item>)
    requires AllFit(items)
    ensures DecodeAll(Concat(EncodeAll(items))) == Some(items)
  {
    if items != [] {
      assert EncodeAll(items)[1..] == EncodeAll(items[1..]);
      AllReadBack(items[1..]);
      FirstReadsBack(items[0], Concat(EncodeAll(items[1..])), items[1..]);
      assert items == [items[0]] + items[1..];
    }
  }

  lemma FirstReadsBack(item: Item, rest: Bytes, items: seq<Item>)
    requires Fits(item) && DecodeAll(rest) == Some(items)
    ensures DecodeAll(EncodeItem(item) + rest) == Some([item] + items)
  {
    ItemDelimits(item, rest);
    assert EncodeItem(item) != [];
  }

  // ---------------------------------------------------------------------------
  // Integer fields
  // ---------------------------------------------------------------------------

  lemma SignificantReadsBack(value: nat, width: nat)
    requires value < Pow256(width)
    ensures FromBe(Significant(value, width)) == value && Minimal(Significant(value, width))
    ensures |Significant(value, width)| <= width
  {
    FromToBe(value, width);
    StripKeepsValue(ToBe(value, width));
  }

  /** An integer is encoded as the shortest string of bytes with its value. */
  lemma UintIsMinimal(value: nat, width: nat, other: Bytes)
    requires value < Pow256(width) && width < U64 && FromBe(other) == value
    ensures EncodeUint(value, width) == EncodeItem(Str(Significant(value, width)))
    ensures Minimal(Significant(value, width)) && |Significant(value, width)| <= |other|
  {
    SignificantReadsBack(value, width);
    StripKeepsValue(other);
    MinimalIsUnique(Strip(other), Significant(value, width));
    if value == 0 {
      MinimalIsUnique([], Significant(value, width));
    }
  }

  // ---------------------------------------------------------------------------
  // Transactions
  // ---------------------------------------------------------------------------

  datatype Tx = Tx(
    chainId: nat, nonce: nat, maxPriorityFeePerGas: nat, maxFeePerGas: nat, gasLimit: nat,
    to: Bytes, value: nat, data: Bytes)

  const U128 := 0x1_0000_0000_0000_0000_0000_0000_0000_0000

  /** The ranges of the fields; the length of a vector is below 2^63. */
  predicate ValidTx(tx: Tx) {
    && tx.chainId < U64 && tx.nonce < U64 && tx.gasLimit < U64
    && tx.maxPriorityFeePerGas < U128 && tx.maxFeePerGas < U128 && tx.value < U128
    && |tx.to| == 20 && |tx.data| < 0x8000_0000_0000_0000
  }

  datatype Field = Uint(value: nat, width: nat) | Raw(bytes: Bytes) | NoAccess

  predicate ValidField(f: Field) {
    match f
    case Uint(value, width) => width <= 32 && value < Pow256(width)
    case Raw(bytes) => |bytes| < 0x8000_0000_0000_0000
    case NoAccess => true
  }

  function Fields(tx: Tx): seq<Field> {
    [Uint(tx.chainId, 8), Uint(tx.nonce, 8), Uint(tx.maxPriorityFeePerGas, 16), Uint(tx.maxFeePerGas, 16),
     Uint(tx.gasLimit, 8), Raw(tx.to), Uint(tx.value, 16), Raw(tx.data), NoAccess]
  }

  function EncodeField(f: Field): Bytes
    requires ValidField(f)
  {
    match f
    case Uint(value, width) => EncodeUint(value, width)
    case Raw(bytes) => EncodeBytes(bytes)
    case NoAccess => EncodeList([])
  }

  ghost predicate AllValid(fields: seq<Field>) {
    forall i :: 0 <= i < |fields| ==> ValidField(fields[i])
  }

  function EncodeFields(fields: seq<Field>): (r: seq<Bytes>)
    requires AllValid(fields)
    ensures |r| == |fields| && forall i :: 0 <= i < |r| ==> r[i] == EncodeField(fields[i])
  {
    seq(|fields|, i requires 0 <= i < |fields| => EncodeField(fields[i]))
  }

  /** The item that a field is encoded as. */
  function ItemOf(f: Field): Item {
    match f
    case Uint(value, width) => Str(Significant(value, width))
    case Raw(bytes) => Str(bytes)
    case NoAccess => ListOf([])
  }

  function ItemsOf(fields: seq<Field>): (r: seq<Item>)
    ensures |r| == |fields| && forall i :: 0 <= i < |r| ==> r[i] == ItemOf(fields[i])
  {
    seq(|fields|, i requires 0 <= i < |fields| => ItemOf(fields[i]))
  }

  lemma FieldIsItem(f: Field)
    requires ValidField(f)
    ensures Fits(ItemOf(f)) && EncodeField(f) == EncodeItem(ItemOf(f))
    ensures f.NoAccess? || f.Uint? || |f.bytes| <= 32 ==> |EncodeField(f)| <= 33
  {
    match f
    case Uint(value, width) => UintFieldIsItem(value, width);
    case Raw(bytes) =>
      if |bytes| <= 32 {
        SmallItem(bytes);
      }
    case NoAccess => EmptyList();
  }

  lemma FieldsAreItems(fields: seq<Field>)
    requires AllValid(fields)
    ensures AllFit(ItemsOf(fields)) && EncodeFields(fields) == EncodeAll(ItemsOf(fields))
  {
    forall i | 0 <= i < |fields|
      ensures Fits(ItemOf(fields[i])) && EncodeField(fields[i]) == EncodeItem(ItemOf(fields[i]))
    {
      FieldIsItem(fields[i]);
    }
  }

  lemma SmallItem(bytes: Bytes)
    requires |bytes| <= 32
    ensures Fits(Str(bytes)) && |EncodeItem(Str(bytes))| <= 33
  {}

  lemma UintFieldIsItem(value: nat, width: nat)
    requires value < Pow256(width) && width <= 32
    ensures Fits(Str(Significant(value, width)))
    ensures EncodeUint(value, width) == EncodeItem(Str(Significant(value, width))) && |EncodeUint(value, width)| <= 33
  {
    SignificantReadsBack(value, width);
    UintIsMinimal(value, width, Significant(value, width));
    SmallItem(Significant(value, width));
  }

  lemma EmptyList()
    ensures Fits(ListOf([])) && EncodeList([]) == EncodeItem(ListOf([])) && |EncodeList([])| <= 33
  {
    assert Concat([]) == [];
  }

  lemma Pow16()
    ensures Pow256(16) == U128
  {
    Pow8();
    assert Pow256(10) == 256 * 256 * U64;
    assert Pow256(12) == 256 * 256 * Pow256(10);
    assert Pow256(14) == 256 * 256 * Pow256(12);
  }

  lemma TxFieldsValid(tx: Tx)
    requires ValidTx(tx)
    ensures AllValid(Fields(tx))
  {
    Pow8();
    Pow16();
  }

  // --- reading back ---

  function Number(item: Item): nat {
    match item
    case Str(bytes) => FromBe(bytes)
    case ListOf(_) => 0
  }

  function Content(item: Item): Bytes {
    match item
    case Str(bytes) => bytes
    case ListOf(payload) => payload
  }

  /** Reads the nine fields back. */
  function TxFrom(items: seq<Item>): Option<Tx> {
    if && |items| == 9 && (forall i :: 0 <= i < 8 ==> items[i].Str?)
       && items[8] == ListOf([]) && |Content(items[5])| == 20
    then
      Some(Tx(Number(items[0]), Number(items[1]), Number(items[2]), Number(items[3]), Number(items[4]),
              Content(items[5]), Number(items[6]), Content(items[7])))
    else None
  }

  /** The item stands for the field. */
  predicate Means(item: Item, f: Field) {
    match f
    case Uint(value, _) => item.Str? && Number(item) == value
    case Raw(bytes) => item == Str(bytes)
    case NoAccess => item == ListOf([])
  }

  lemma FieldReadsBack(f: Field)
    requires ValidField(f)
    ensures Means(ItemOf(f), f)
  {
    if f.Uint? {
      SignificantReadsBack(f.value, f.width);
    }
  }

  lemma MeantTx(items: seq<Item>, tx: Tx)
    requires |items| == 9 && |tx.to| == 20 && forall i :: 0 <= i < 9 ==> Means(items[i], Fields(tx)[i])
    ensures TxFrom(items) == Some(tx)
  {
    var fs := Fields(tx);
    assert fs[0] == Uint(tx.chainId, 8) && fs[1] == Uint(tx.nonce, 8) && fs[2] == Uint(tx.maxPriorityFeePerGas, 16);
    assert fs[3] == Uint(tx.maxFeePerGas, 16) && fs[4] == Uint(tx.gasLimit, 8) && fs[5] == Raw(tx.to);
    assert fs[6] == Uint(tx.value, 16) && fs[7] == Raw(tx.data) && fs[8] == NoAccess;
  }

  lemma ItemsReadBack(tx: Tx)
    requires ValidTx(tx)
    ensures TxFrom(ItemsOf(Fields(tx))) == Some(tx)
  {
    TxFieldsValid(tx);
    var fields := Fields(tx);
    var items := ItemsOf(fields);
    forall i | 0 <= i < |fields|
      ensures Means(items[i], fields[i])
    {
      FieldReadsBack(fields[i]);
    }
    MeantTx(items, tx);
  }

  /** All fields but the `k`-th are short, so the whole is not much longer than that one. */
  lemma {:induction false} ConcatSize(bs: seq<Bytes>, k: int)
    requires forall i :: 0 <= i < |bs| && i != k ==> |bs[i]| <= 33
    ensures |Concat(bs)| <= 33 * |bs| + (if 0 <= k < |bs| then |bs[k]| else 0)
  {
    if bs != [] {
      ConcatSize(bs[1..], k - 1);
    }
  }

  lemma HeaderSize(short: int, len: Size)
    requires short == 0x80 || short == 0xc0
    ensures |Header(short, len)| <= 9
  {}

  lemma FieldsFit(fields: seq<Field>, k: nat)
    requires AllValid(fields) && |fields| <= 16 && k < |fields|
    requires forall i :: 0 <= i < |fields| && i != k ==> !fields[i].Raw? || |fields[i].bytes| <= 32
    ensures |Concat(EncodeFields(fields))| < U64
  {
    forall i | 0 <= i < |fields| && i != k
      ensures |EncodeField(fields[i])| <= 33
    {
      FieldIsItem(fields[i]);
    }
    ConcatSize(EncodeFields(fields), k);
    LongestField(fields[k]);
  }

  lemma LongestField(f: Field)
    requires ValidField(f)
    ensures |EncodeField(f)| <= 0x8000_0000_0000_0000 + 9
  {
    if f.Raw? {
      HeaderSize(0x80, |f.bytes|);
    } else {
      FieldIsItem(f);
    }
  }

  /** The bytes that are hashed and signed. */
  function Preimage(tx: Tx): Bytes
    requires ValidTx(tx)
  {
    TxFieldsValid(tx);
    FieldsFit(Fields(tx), 7);
    [0x02] + EncodeList(EncodeFields(Fields(tx)))
  }

  /** The items of a typed transaction. */
  function Unwrap(bs: Bytes): Option<seq<Item>> {
    if bs == [] || bs[0] != 0x02 then None
    else
      match DecodeItem(bs[1..])
      case Some((ListOf(payload), rest)) => if rest == [] then DecodeAll(payload) else None
      case _ => None
  }

  lemma ListUnwraps(items: seq<Item>)
    requires AllFit(items) && |Concat(EncodeAll(items))| < U64
    ensures Unwrap([0x02] + EncodeList(EncodeAll(items))) == Some(items)
  {
    var payload := Concat(EncodeAll(items));
    var bs := [0x02] + EncodeList(EncodeAll(items));
    assert bs[1..] == EncodeItem(ListOf(payload)) + [];
    ItemDelimits(ListOf(payload), []);
    AllReadBack(items);
  }

  function ReadPreimage(bs: Bytes): Option<Tx> {
    match Unwrap(bs)
    case None => None
    case Some(items) => TxFrom(items)
  }

  /** A transaction is read back from its preimage. */
  lemma PreimageReadsBack(tx: Tx)
    requires ValidTx(tx)
    ensures ReadPreimage(Preimage(tx)) == Some(tx)
  {
    TxFieldsValid(tx);
    FieldsAreItems(Fields(tx));
    FieldsFit(Fields(tx), 7);
    ListUnwraps(ItemsOf(Fields(tx)));
    ItemsReadBack(tx);
  }

  /** Two transactions with the same preimage are the same transaction. */
  lemma PreimageInjective(tx: Tx, tx': Tx)
    requires ValidTx(tx) && ValidTx(tx') && Preimage(tx) == Preimage(tx')
    ensures tx == tx'
  {
    PreimageReadsBack(tx);
    PreimageReadsBack(tx');
  }

  // --- signed transactions ---

  datatype Signature = Signature(yParity: Byte, r: Bytes, s: Bytes)

  function SignedFields(tx: Tx, sig: Signature): seq<Field> {
    Fields(tx) + [Uint(sig.yParity, 8), Raw(sig.r), Raw(sig.s)]
  }

  lemma SignedFieldsValid(tx: Tx, sig: Signature)
    requires ValidTx(tx) && |sig.r| == |sig.s| == 32
    ensures AllValid(SignedFields(tx, sig)) && |Concat(EncodeFields(SignedFields(tx, sig)))| < U64
  {
    TxFieldsValid(tx);
    Pow8();
    FieldsFit(SignedFields(tx, sig), 7);
  }

  /** The raw bytes of a signed transaction. */
  function RawTx(tx: Tx, sig: Signature): Bytes
    requires ValidTx(tx) && |sig.r| == |sig.s| == 32
  {
    SignedFieldsValid(tx, sig);
    [0x02] + EncodeList(EncodeFields(SignedFields(tx, sig)))
  }

  function ReadRawTx(bs: Bytes): Option<(Tx, nat, Bytes, Bytes)> {
    match Unwrap(bs)
    case None => None
    case Some(items) =>
      if |items| == 12 && TxFrom(items[..9]).Some?
      then Some((TxFrom(items[..9]).value, Number(items[9]), Content(items[10]), Content(items[11])))
      else None
  }

  /** A signed transaction and its signature are read back from the raw bytes. */
  lemma RawTxReadsBack(tx: Tx, sig: Signature)
    requires ValidTx(tx) && |sig.r| == |sig.s| == 32
    ensures ReadRawTx(RawTx(tx, sig)) == Some((tx, sig.yParity, sig.r, sig.s))
  {
    var fields := SignedFields(tx, sig);
    SignedFieldsValid(tx, sig);
    FieldsAreItems(fields);
    ListUnwraps(ItemsOf(fields));
    SignedItemsReadBack(tx, sig);
  }

  lemma SignedItemsReadBack(tx: Tx, sig: Signature)
    requires ValidTx(tx) && AllValid(SignedFields(tx, sig))
    ensures
      var items := ItemsOf(SignedFields(tx, sig));
      && |items| == 12 && TxFrom(items[..9]) == Some(tx)
      && Number(items[9]) == sig.yParity && Content(items[10]) == sig.r && Content(items[11]) == sig.s
  {
    var fields := SignedFields(tx, sig);
    ItemsReadBack(tx);
    assert ItemsOf(fields)[..9] == ItemsOf(Fields(tx));
    FieldReadsBack(fields[9]);
  }
}
