/** Text as the control socket writes and reads it: lines, decimal numbers, hexadecimal bytes. */
module Text {
  import opened Wrappers

  // ---------------------------------------------------------------------------
  // Lines
  // ---------------------------------------------------------------------------

  predicate OneLine(line: string) {
    '\n' !in line && '\r' !in line
  }

  ghost predicate AllOneLine(lines: seq<string>) {
    forall i :: 0 <= i < |lines| ==> OneLine(lines[i])
  }

  /** Each line with a newline behind it. */
  function Written(lines: seq<string>): string {
    if lines == [] then "" else lines[0] + "\n" + Written(lines[1..])
  }

  /** The length of the first line. */
  function LineEnd(text: string): (n: nat)
    ensures n <= |text| && '\n' !in text[..n] && (n < |text| ==> text[n] == '\n')
  {
    if text == "" || text[0] == '\n' then 0 else 1 + LineEnd(text[1..])
  }

  /** A line without the carriage return before its newline. */
  function Chomp(line: string): string {
    if line != "" && line[|line| - 1] == '\r' then line[..|line| - 1] else line
  }

  /** The lines of a text; what follows the last newline is a line if it is not empty. */
  function Lines(text: string): seq<string>
    decreases |text|
  {
    if text == "" then []
    else
      var n := LineEnd(text);
      if n < |text| then [Chomp(text[..n])] + Lines(text[n + 1..]) else [text]
  }

  lemma {:induction false} LineEndOf(line: string, rest: string)
    requires OneLine(line)
    ensures LineEnd(line + "\n" + rest) == |line|
  {
    if line != "" {
      LineEndOf(line[1..], rest);
      assert (line + "\n" + rest)[1..] == line[1..] + "\n" + rest;
    }
  }

  /** What is written line by line is read line by line. */
  lemma {:induction false} LinesReadBack(lines: seq<string>)
    requires AllOneLine(lines)
    ensures Lines(Written(lines)) == lines
  {
    if lines != [] {
      var text := Written(lines);
      LineEndOf(lines[0], Written(lines[1..]));
      assert text[..|lines[0]|] == lines[0];
      assert text[|lines[0]| + 1..] == Written(lines[1..]);
      LinesReadBack(lines[1..]);
      assert lines == [lines[0]] + lines[1..];
    }
  }

  lemma {:induction false} WrittenAppends(a: seq<string>, b: seq<string>)
    ensures Written(a + b) == Written(a) + Written(b)
  {
    if a == [] {
      assert a + b == b;
    } else {
      WrittenAppends(a[1..], b);
      assert (a + b)[1..] == a[1..] + b;
    }
  }

  lemma WrittenOneMore(lines: seq<string>, i: nat)
    requires i < |lines|
    ensures Written(lines[..i + 1]) == Written(lines[..i]) + lines[i] + "\n"
  {
    assert lines[..i + 1] == lines[..i] + [lines[i]];
    WrittenAppends(lines[..i], [lines[i]]);
    assert [lines[i]][1..] == [];
  }

  /** Writes some lines, one by one. */
  method WriteLines(writer: string, lines: seq<string>) returns (out: string)
    ensures out == writer + Written(lines)
  {
    out := writer;
    for i := 0 to |lines|
      invariant out == writer + Written(lines[..i])
    {
      WrittenOneMore(lines, i);
      out := out + lines[i] + "\n";
    }
    assert lines[..|lines|] == lines;
  }

  /** The lines of some blocks, one block after the other. */
  function Flat(blocks: seq<seq<string>>): seq<string> {
    if blocks == [] then [] else Flat(blocks[..|blocks| - 1]) + blocks[|blocks| - 1]
  }

  lemma BlockWritten(blocks: seq<seq<string>>, i: nat)
    requires i < |blocks|
    ensures Written(Flat(blocks[..i + 1])) == Written(Flat(blocks[..i])) + Written(blocks[i])
  {
    assert blocks[..i + 1][..i] == blocks[..i];
    WrittenAppends(Flat(blocks[..i]), blocks[i]);
  }

  /** Writes some blocks of lines, one by one. */
  method WriteBlocks(writer: string, blocks: seq<seq<string>>) returns (out: string)
    ensures out == writer + Written(Flat(blocks))
  {
    out := writer;
    for i := 0 to |blocks|
      invariant out == writer + Written(Flat(blocks[..i]))
    {
      BlockWritten(blocks, i);
      out := WriteLines(out, blocks[i]);
    }
    assert blocks[..|blocks|] == blocks;
  }

  function Map<T>(f: T -> string, xs: seq<T>): (r: seq<string>)
    ensures |r| == |xs|
  {
    seq(|xs|, i requires 0 <= i < |xs| => f(xs[i]))
  }

  lemma MapAppends<T>(f: T -> string, a: seq<T>, b: seq<T>)
    ensures Map(f, a + b) == Map(f, a) + Map(f, b)
  {}

  // ---------------------------------------------------------------------------
  // Key and value
  // ---------------------------------------------------------------------------

  /** The text before and after the first equals sign. */
  function SplitOnce(line: string): Option<(string, string)> {
    if line == "" then None
    else if line[0] == '=' then Some(("", line[1..]))
    else
      match SplitOnce(line[1..])
      case None => None
      case Some((key, value)) => Some(([line[0]] + key, value))
  }

  lemma {:induction false} SplitsAtFirst(key: string, value: string)
    requires '=' !in key
    ensures SplitOnce(key + "=" + value) == Some((key, value))
  {
    var line := key + "=" + value;
    if key == "" {
      assert line[1..] == value;
    } else {
      SplitsAtFirst(key[1..], value);
      assert line[1..] == key[1..] + "=" + value;
      assert key == [key[0]] + key[1..];
    }
  }

  // ---------------------------------------------------------------------------
  // Decimal numbers
  // ---------------------------------------------------------------------------

  function Digit(d: nat): char
    requires d < 10
  {
    '0' + d as char
  }

  predicate IsDigit(c: char) {
    '0' <= c <= '9'
  }

  function Decimal(n: nat): (s: string)
    ensures s != ""
  {
    if n < 10 then [Digit(n)] else Decimal(n / 10) + [Digit(n % 10)]
  }

  /** The value of a string of digits. */
  function DigitsValue(s: string): Option<nat> {
    if s == "" then Some(0)
    else
      var last := s[|s| - 1];
      match DigitsValue(s[..|s| - 1])
      case None => None
      case Some(v) => if IsDigit(last) then Some(v * 10 + (last as nat - '0' as nat)) else None
  }

  /** An unsigned number below a bound; a plus sign in front is allowed. */
  function ParseUint(s: string, bound: nat): Option<nat> {
    var digits := if s != "" && s[0] == '+' then s[1..] else s;
    if digits == "" then None
    else
      match DigitsValue(digits)
      case None => None
      case Some(v) => if v < bound then Some(v) else None
  }

  lemma {:induction false} DecimalValue(n: nat)
    ensures DigitsValue(Decimal(n)) == Some(n) && IsDigit(Decimal(n)[0])
  {
    var s := Decimal(n);
    if n < 10 {
      assert s[..0] == "";
    } else {
      DecimalValue(n / 10);
      assert s[..|s| - 1] == Decimal(n / 10);
    }
  }

  lemma DecimalReadsBack(n: nat, bound: nat)
    requires n < bound
    ensures ParseUint(Decimal(n), bound) == Some(n)
  {
    DecimalValue(n);
  }

  lemma {:induction false} DecimalIsOneLine(n: nat)
    ensures OneLine(Decimal(n))
  {
    if n >= 10 {
      DecimalIsOneLine(n / 10);
    }
  }

  // ---------------------------------------------------------------------------
  // Hexadecimal bytes
  // ---------------------------------------------------------------------------

  function HexDigit(d: nat): char
    requires d < 16
  {
    if d < 10 then '0' + d as char else 'a' + (d - 10) as char
  }

  function HexValue(c: char): Option<nat> {
    if '0' <= c <= '9' then Some(c as nat - '0' as nat)
    else if 'a' <= c <= 'f' then Some(c as nat - 'a' as nat + 10)
    else if 'A' <= c <= 'F' then Some(c as nat - 'A' as nat + 10)
    else None
  }

  function Hex(bytes: seq<Byte>): string {
    if bytes == [] then "" else [HexDigit(bytes[0] / 16), HexDigit(bytes[0] % 16)] + Hex(bytes[1..])
  }

  function Unhex(s: string): Option<seq<Byte>>
    decreases |s|
  {
    if s == "" then Some([])
    else if |s| == 1 then None
    else
      match (HexValue(s[0]), HexValue(s[1]), Unhex(s[2..]))
      case (Some(h), Some(l), Some(rest)) => if h < 16 && l < 16 then Some([(h * 16 + l) as Byte] + rest) else None
      case _ => None
  }

  lemma {:induction false} HexReadsBack(bytes: seq<Byte>)
    ensures Unhex(Hex(bytes)) == Some(bytes) && OneLine(Hex(bytes))
  {
    if bytes != [] {
      HexReadsBack(bytes[1..]);
      assert Hex(bytes)[2..] == Hex(bytes[1..]);
      assert bytes == [bytes[0]] + bytes[1..];
    }
  }

  lemma HexInjective(a: seq<Byte>, b: seq<Byte>)
    requires Hex(a) == Hex(b)
    ensures a == b
  {
    HexReadsBack(a);
    HexReadsBack(b);
  }
}
