/** Numbers as bytes, most significant first. */
module BigEndian {
  import opened Wrappers

  type Bytes = seq<Byte>

  function Pow256(n: nat): nat {
    if n == 0 then 1 else 256 * Pow256(n - 1)
  }

  /** The low `width` bytes of a number, most significant first. */
  function ToBe(v: nat, width: nat): (bs: Bytes)
    ensures |bs| == width
    decreases width, v
  {
    if width == 0 then [] else ToBe(v / 256, width - 1) + [v % 256]
  }

  function FromBe(bs: Bytes): nat {
    if bs == [] then 0 else FromBe(bs[..|bs| - 1]) * 256 + bs[|bs| - 1]
  }

  lemma {:induction false} FromToBe(v: nat, width: nat)
    requires v < Pow256(width)
    ensures FromBe(ToBe(v, width)) == v
  {
    if width > 0 {
      FromToBe(v / 256, width - 1);
      var bs := ToBe(v, width);
      assert bs[..|bs| - 1] == ToBe(v / 256, width - 1);
    }
  }

  lemma {:induction false} BeUnique(bs: Bytes)
    ensures ToBe(FromBe(bs), |bs|) == bs && FromBe(bs) < Pow256(|bs|)
  {
    if bs != [] {
      BeUnique(bs[..|bs| - 1]);
      assert bs == bs[..|bs| - 1] + [bs[|bs| - 1]];
    }
  }

  lemma Pow8()
    ensures Pow256(8) == U64
  {
    assert Pow256(2) == 0x1_0000;
    assert Pow256(4) == U32;
    assert Pow256(6) == 0x1_0000_0000_0000;
  }

  // ---------------------------------------------------------------------------
  // Fields of given widths
  // ---------------------------------------------------------------------------

  function Concat(parts: seq<Bytes>): Bytes {
    if parts == [] then [] else parts[0] + Concat(parts[1..])
  }

  function Total(widths: seq<nat>): nat {
    if widths == [] then 0 else widths[0] + Total(widths[1..])
  }

  /** The fields at the beginning of `bs`, one after the other. */
  function Cut(bs: Bytes, widths: seq<nat>): (parts: seq<Bytes>)
    requires Total(widths) <= |bs|
    ensures |parts| == |widths| && forall i :: 0 <= i < |parts| ==> |parts[i]| == widths[i]
    decreases |widths|
  {
    if widths == [] then [] else [bs[..widths[0]]] + Cut(bs[widths[0]..], widths[1..])
  }

  ghost predicate Sized(parts: seq<Bytes>, widths: seq<nat>) {
    |parts| == |widths| && forall i :: 0 <= i < |parts| ==> |parts[i]| == widths[i]
  }

  /** Fields that are joined are cut apart again, whatever follows. */
  lemma {:induction false} CutsJoined(parts: seq<Bytes>, widths: seq<nat>, rest: Bytes)
    requires Sized(parts, widths)
    ensures Total(widths) == |Concat(parts)| && Cut(Concat(parts) + rest, widths) == parts
    decreases |widths|
  {
    if widths != [] {
      CutsJoined(parts[1..], widths[1..], rest);
      var bs := Concat(parts) + rest;
      assert bs[..widths[0]] == parts[0];
      assert bs[widths[0]..] == Concat(parts[1..]) + rest;
      assert parts == [parts[0]] + parts[1..];
    }
  }

  /** Fields that are cut apart join to the beginning of the bytes. */
  lemma {:induction false} JoinsCut(bs: Bytes, widths: seq<nat>)
    requires Total(widths) <= |bs|
    ensures Concat(Cut(bs, widths)) == bs[..Total(widths)]
    decreases |widths|
  {
    if widths != [] {
      JoinsCut(bs[widths[0]..], widths[1..]);
      var parts := Cut(bs, widths);
      assert parts[1..] == Cut(bs[widths[0]..], widths[1..]);
    }
  }
}
