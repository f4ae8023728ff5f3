/**
 The Internet checksum of an IPv4 header (section 3.1 of RFC 791, section 1 of RFC 1071): the ones'
 complement of the ones' complement sum of its 16-bit words.
 */
module IpChecksums {
  import opened Wrappers
  import opened BigEndian

  const U16 := 0x1_0000
  /** The largest 16-bit number, which is zero in ones' complement arithmetic. */
  const ONES := 0xffff

  /** The number of words; a missing last byte counts as zero. */
  function Words(header: Bytes): nat {
    (|header| + 1) / 2
  }

  function WordAt(header: Bytes, w: nat): nat
    requires w < Words(header)
  {
    FromBe16(header[2 * w], if 2 * w + 1 < |header| then header[2 * w + 1] else 0)
  }

  /** The sum of the first `n` words. */
  function WordSum(header: Bytes, n: nat): nat
    requires n <= Words(header)
  {
    if n == 0 then 0 else WordSum(header, n - 1) + WordAt(header, n - 1)
  }

  /** Adds the carries back in until none is left. */
  function Fold(sum: nat): nat {
    if sum < U16 then sum else Fold(sum % U16 + sum / U16)
  }

  /** The checksum, with the sum kept in 32 bits. */
  function Checksum(header: Bytes): (c: nat)
    ensures c <= ONES
  {
    FoldFits(WordSum(header, Words(header)) % U32);
    ONES - Fold(WordSum(header, Words(header)) % U32)
  }

  lemma {:induction false} FoldFits(sum: nat)
    ensures Fold(sum) <= ONES
  {
    if sum >= U16 {
      FoldFits(sum % U16 + sum / U16);
    }
  }

  /** Folding takes away a multiple of 65535, and never reaches zero from above. */
  lemma {:induction false} FoldIsCongruent(sum: nat) returns (q: nat)
    ensures sum == Fold(sum) + ONES * q && Fold(sum) <= ONES && (sum > 0 ==> Fold(sum) > 0)
  {
    if sum < U16 {
      q := 0;
    } else {
      var h := sum / U16;
      var rest := FoldIsCongruent(sum % U16 + h);
      q := rest + h;
    }
  }

  /** A sum and the complement of its fold add up to all ones. */
  lemma FoldWithComplement(sum: nat)
    ensures Fold(sum) <= ONES && Fold(sum + (ONES - Fold(sum))) == ONES
  {
    var q := FoldIsCongruent(sum);
    var q' := FoldIsCongruent(sum + (ONES - Fold(sum)));
    assert Fold(sum + (ONES - Fold(sum))) == ONES * (q + 1 - q');
  }

  /** A word put in place of a zero adds to the sum. */
  lemma {:induction false} SumWithWord(header: Bytes, header': Bytes, w: nat, n: nat)
    requires |header| == |header'| && n <= Words(header) && w < Words(header)
    requires forall v :: 0 <= v < Words(header) && v != w ==> WordAt(header', v) == WordAt(header, v)
    requires WordAt(header, w) == 0
    ensures WordSum(header', n) == WordSum(header, n) + if n > w then WordAt(header', w) else 0
  {
    if n > 0 {
      SumWithWord(header, header', w, n - 1);
    }
  }

  lemma {:induction false} SumFits(header: Bytes, n: nat)
    requires n <= Words(header)
    ensures WordSum(header, n) <= n * ONES
  {
    if n > 0 {
      SumFits(header, n - 1);
    }
  }

  function WithChecksum(header: Bytes, w: nat): Bytes
    requires 2 * w + 1 < |header|
  {
    header[2 * w := Checksum(header) / 256][2 * w + 1 := Checksum(header) % 256]
  }

  lemma WithChecksumWords(header: Bytes, w: nat)
    requires 2 * w + 1 < |header|
    ensures WordAt(WithChecksum(header, w), w) == Checksum(header)
    ensures forall v :: 0 <= v < Words(header) && v != w ==> WordAt(WithChecksum(header, w), v) == WordAt(header, v)
  {}

  /** With the checksum put into its zeroed field, the checksum of the header is zero. */
  lemma ChecksumVerifies(header: Bytes, w: nat)
    requires 2 * w + 1 < |header| <= 0x1_0000 && WordAt(header, w) == 0
    ensures Checksum(WithChecksum(header, w)) == 0
  {
    var header', n := WithChecksum(header, w), Words(header);
    WithChecksumWords(header, w);
    SumFits(header, n);
    SumFits(header', n);
    SumWithWord(header, header', w, n);
    NoWrap(n, WordSum(header, n));
    NoWrap(n, WordSum(header', n));
    FoldWithComplement(WordSum(header, n));
  }

  lemma NoWrap(n: nat, sum: nat)
    requires n <= 0x8000 && sum <= n * ONES
    ensures sum % U32 == sum
  {}

  /** The two loops: adding the words, then folding the carries. */
  method IpChecksum(header: Bytes) returns (checksum: nat)
    ensures checksum == Checksum(header) <= ONES
  {
    var sum: nat := 0;
    var i := 0;
    while i < Words(header)
      invariant i <= Words(header)
      invariant sum == WordSum(header, i) % U32
    {
      var word := FromBe16(header[2 * i], if 2 * i + 1 < |header| then header[2 * i + 1] else 0);
      WrappingSum(WordSum(header, i), word);
      sum := (sum + word) % U32;
      i := i + 1;
    }
    FoldFits(sum);
    ghost var all := sum;
    while sum / U16 != 0
      invariant Fold(sum) == Fold(all)
      decreases sum
    {
      sum := sum % U16 + sum / U16;
    }
    checksum := ONES - sum;
  }

  lemma WrappingSum(a: nat, b: nat)
    ensures (a % U32 + b) % U32 == (a + b) % U32
  {}
}
