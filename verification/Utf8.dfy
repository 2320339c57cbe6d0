/** UTF-8 (section 3 of RFC 3629), and that a decoder can read back whatever was encoded. */
module Utf8 {
  import opened Sse

  function EncodeChar(c: char): (bytes: seq<byte>)
    ensures forall b :: b in bytes ==> b >= 0x80 || (b == c as int && bytes == [b])
    ensures bytes != []
  {
    var n := c as int;
    if n < 0x80 then [n]
    else if n < 0x800 then [0xC0 + n / 0x40, 0x80 + n % 0x40]
    else if n < 0x1_0000 then [0xE0 + n / 0x1000, 0x80 + n / 0x40 % 0x40, 0x80 + n % 0x40]
    else [0xF0 + n / 0x4_0000 % 8, 0x80 + n / 0x1000 % 0x40, 0x80 + n / 0x40 % 0x40, 0x80 + n % 0x40]
  }

  /** The codes of a text's characters, one after the other. */
  function Spread(text: string, code: char -> seq<byte>): seq<byte> {
    if text == "" then [] else Spread(text[..|text| - 1], code) + code(text[|text| - 1])
  }

  function Coding(): char -> seq<byte> {
    (c: char) => EncodeChar(c)
  }

  function Encode(text: string): seq<byte> {
    Spread(text, Coding())
  }

  /** A decoder that reads back what was encoded. */
  ghost predicate ReadsUtf8(decode: Decoder) {
    forall text :: decode(Encode(text)) == text
  }

  lemma {:induction false} SpreadConcat(a: string, b: string, code: char -> seq<byte>)
    ensures Spread(a + b, code) == Spread(a, code) + Spread(b, code)
  {
    if b == "" {
      assert a + b == a;
    } else {
      assert (a + b)[..|a + b| - 1] == a + b[..|b| - 1];
      SpreadConcat(a, b[..|b| - 1], code);
    }
  }

  lemma EncodeConcat(a: string, b: string)
    ensures Encode(a + b) == Encode(a) + Encode(b)
  {
    SpreadConcat(a, b, Coding());
  }

  lemma EncodeOne(c: char)
    requires c as int < 0x80
    ensures Encode([c]) == [c as int]
  {
    assert [c][..0] == [];
    assert Spread([c], Coding()) == Spread([], Coding()) + EncodeChar(c);
  }

  /** An ASCII byte stands in the code of a text only where its character stands in the text. */
  lemma {:induction false} EncodeLacks(text: string, c: char)
    requires c as int < 0x80 && c !in text
    ensures c as int !in Encode(text)
  {
    if text != "" {
      assert text == text[..|text| - 1] + [text[|text| - 1]];
      EncodeLacks(text[..|text| - 1], c);
    }
  }

  // ---------- a decoder exists ----------

  predicate IsTrailing(b: byte) {
    0x80 <= b < 0xC0
  }

  /** How many of the last bytes are trailing ones. */
  function Trailing(bytes: seq<byte>): nat {
    if bytes == [] || !IsTrailing(bytes[|bytes| - 1]) then 0 else 1 + Trailing(bytes[..|bytes| - 1])
  }

  /** The code of a character is a byte that is not a trailing one, and then trailing ones. */
  lemma CodeShape(c: char)
    ensures !IsTrailing(EncodeChar(c)[0])
    ensures forall i :: 1 <= i < |EncodeChar(c)| ==> IsTrailing(EncodeChar(c)[i])
  {
  }

  lemma {:induction false} TrailingBehind(bytes: seq<byte>, code: seq<byte>)
    requires code != [] && !IsTrailing(code[0]) && forall i :: 1 <= i < |code| ==> IsTrailing(code[i])
    ensures Trailing(bytes + code) == |code| - 1
  {
    if |code| > 1 {
      TrailingBehind(bytes, code[..|code| - 1]);
      assert (bytes + code)[..|bytes + code| - 1] == bytes + code[..|code| - 1];
    }
  }

  /** The number a code stands for. */
  function CodePoint(code: seq<int>): int {
    if |code| == 1 then code[0]
    else if |code| == 2 then (code[0] - 0xC0) * 0x40 + (code[1] - 0x80)
    else if |code| == 3 then (code[0] - 0xE0) * 0x1000 + (code[1] - 0x80) * 0x40 + (code[2] - 0x80)
    else if |code| == 4 then
      (code[0] - 0xF0) * 0x4_0000 + (code[1] - 0x80) * 0x1000 + (code[2] - 0x80) * 0x40 + (code[3] - 0x80)
    else 0
  }

  lemma Digits(n: nat)
    ensures n == n / 0x40 * 0x40 + n % 0x40
    ensures n / 0x40 == n / 0x1000 * 0x40 + n / 0x40 % 0x40
    ensures n / 0x1000 == n / 0x4_0000 * 0x40 + n / 0x1000 % 0x40
  {
    assert n / 0x40 / 0x40 == n / 0x1000;
    assert n / 0x1000 / 0x40 == n / 0x4_0000;
  }

  lemma CodeReadsBack(c: char)
    ensures CodePoint(EncodeChar(c)) == c as int
  {
    var n, code := c as int, EncodeChar(c);
    Digits(n);
    if |code| == 2 {
      assert n / 0x1000 == 0;
    } else if |code| == 3 {
      assert n / 0x1_0000 == 0;
    } else if |code| == 4 {
      assert n / 0x4_0000 % 8 == n / 0x4_0000;
    }
  }

  lemma {:induction false} EncodeIsInjective(a: string, b: string)
    requires Encode(a) == Encode(b)
    ensures a == b
  {
    if a != "" && b != "" {
      var before, other, last, lastOther := a[..|a| - 1], b[..|b| - 1], a[|a| - 1], b[|b| - 1];
      CodeShape(last);
      CodeShape(lastOther);
      TrailingBehind(Encode(before), EncodeChar(last));
      TrailingBehind(Encode(other), EncodeChar(lastOther));
      SameEnds(Encode(before), EncodeChar(last), Encode(other), EncodeChar(lastOther));
      CodeReadsBack(last);
      CodeReadsBack(lastOther);
      EncodeIsInjective(before, other);
    }
  }

  lemma SameEnds(a: seq<byte>, x: seq<byte>, b: seq<byte>, y: seq<byte>)
    requires a + x == b + y && |x| == |y|
    ensures a == b && x == y
  {
    assert a == (a + x)[..|a|] && b == (b + y)[..|b|];
    assert x == (a + x)[|a|..] && y == (b + y)[|b|..];
  }

  ghost function Decode(bytes: seq<byte>): string {
    if exists text :: Encode(text) == bytes then (var text :| Encode(text) == bytes; text) else ""
  }

  /** So there is a decoder as the laws ask for. */
  lemma ADecoderExists()
    ensures exists decode: Decoder :: ReadsUtf8(decode)
  {
    forall text: string ensures Decode(Encode(text)) == text {
      EncodeIsInjective(Decode(Encode(text)), text);
    }
    assert Decode(Encode("")) == "";
    var decode: Decoder := (bytes: seq<byte>) => Decode(bytes);
    assert ReadsUtf8(decode);
  }
}
