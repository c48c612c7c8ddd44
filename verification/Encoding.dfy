/** The bytes that are hashed: UTF-8 texts, each preceded by its length as eight little-endian bytes. */
module Encoding {

  type byte = x: int | 0 <= x < 0x100

  type Digest = seq<byte> -> string

  function CharBytes(c: char): seq<byte> {
    var v := c as int;
    if v < 0x80 then [v]
    else if v < 0x800 then [0xC0 + v / 0x40, 0x80 + v % 0x40]
    else if v < 0x1_0000 then [0xE0 + v / 0x1000, 0x80 + v / 0x40 % 0x40, 0x80 + v % 0x40]
    else [0xF0 + v / 0x4_0000, 0x80 + v / 0x1000 % 0x40, 0x80 + v / 0x40 % 0x40, 0x80 + v % 0x40]
  }

  function Utf8(s: string): seq<byte> {
    if s == "" then [] else CharBytes(s[0]) + Utf8(s[1..])
  }

  function LittleEndian(n: nat, width: nat): (bytes: seq<byte>)
    ensures |bytes| == width
  {
    if width == 0 then [] else [n % 0x100] + LittleEndian(n / 0x100, width - 1)
  }

  function Delimited(field: seq<byte>): seq<byte> {
    LittleEndian(|field|, 8) + field
  }

  function EncodeFields(fields: seq<seq<byte>>): seq<byte> {
    if fields == [] then [] else Delimited(fields[0]) + EncodeFields(fields[1..])
  }

  // ---------------------------------------------------------------- injectivity

  lemma CharBytesPrefixFree(a: char, b: char, x: seq<byte>, y: seq<byte>)
    requires CharBytes(a) + x == CharBytes(b) + y
    ensures a == b && x == y
  {
    var s, t := CharBytes(a) + x, CharBytes(b) + y;
    assert s[0] == CharBytes(a)[0] && t[0] == CharBytes(b)[0];
    assert |CharBytes(a)| == |CharBytes(b)|;
    assert CharBytes(a) == s[..|CharBytes(a)|] == t[..|CharBytes(a)|] == CharBytes(b);
    assert x == s[|CharBytes(a)|..] == t[|CharBytes(a)|..] == y;
    CharBytesInjective(a, b);
  }

  /** The code point that bytes of this form spell. */
  function CodePoint(bytes: seq<int>): int {
    if |bytes| == 1 then bytes[0]
    else if |bytes| == 2 then (bytes[0] - 0xC0) * 0x40 + bytes[1] - 0x80
    else if |bytes| == 3 then (bytes[0] - 0xE0) * 0x1000 + (bytes[1] - 0x80) * 0x40 + bytes[2] - 0x80
    else if |bytes| == 4 then
      (bytes[0] - 0xF0) * 0x4_0000 + (bytes[1] - 0x80) * 0x1000 + (bytes[2] - 0x80) * 0x40 + bytes[3] - 0x80
    else 0
  }

  lemma CodePointReadsBack(c: char)
    ensures CodePoint(CharBytes(c)) == c as int
  {
    var v := c as int;
    var v1, v2, v3 := v / 0x40, v / 0x1000, v / 0x4_0000;
    assert v == v1 * 0x40 + v % 0x40;
    assert v1 == v2 * 0x40 + v1 % 0x40;
    assert v2 == v3 * 0x40 + v2 % 0x40;
  }

  lemma CharBytesInjective(a: char, b: char)
    requires CharBytes(a) == CharBytes(b)
    ensures a == b
  {
    CodePointReadsBack(a);
    CodePointReadsBack(b);
  }

  lemma {:induction false} Utf8Injective(a: string, b: string)
    requires Utf8(a) == Utf8(b)
    ensures a == b
  {
    if a != "" && b != "" {
      CharBytesPrefixFree(a[0], b[0], Utf8(a[1..]), Utf8(b[1..]));
      Utf8Injective(a[1..], b[1..]);
      assert a == [a[0]] + a[1..] && b == [b[0]] + b[1..];
    }
  }

  function Power256(k: nat): nat {
    if k == 0 then 1 else 0x100 * Power256(k - 1)
  }

  lemma {:induction false} LittleEndianInjective(a: nat, b: nat, width: nat)
    requires a < Power256(width) && b < Power256(width)
    requires LittleEndian(a, width) == LittleEndian(b, width)
    ensures a == b
  {
    if width > 0 {
      var x, y := LittleEndian(a, width), LittleEndian(b, width);
      assert x[0] == y[0] && x[1..] == y[1..];
      assert x[1..] == LittleEndian(a / 0x100, width - 1) && y[1..] == LittleEndian(b / 0x100, width - 1);
      LittleEndianInjective(a / 0x100, b / 0x100, width - 1);
    }
  }

  /** The number that bytes spell, the least significant first. */
  function NumberOf(bytes: seq<byte>): nat {
    if bytes == [] then 0 else bytes[0] + 0x100 * NumberOf(bytes[1..])
  }

  lemma {:induction false} LittleEndianReadsBack(n: nat, width: nat)
    requires n < Power256(width)
    ensures NumberOf(LittleEndian(n, width)) == n
  {
    if width > 0 {
      LittleEndianReadsBack(n / 0x100, width - 1);
      assert LittleEndian(n, width)[1..] == LittleEndian(n / 0x100, width - 1);
    }
  }

  /** Eight bytes hold any length a machine can address. */
  predicate Addressable(field: seq<byte>) {
    |field| < Power256(8)
  }

  lemma DelimitedPrefixFree(a: seq<byte>, b: seq<byte>, x: seq<byte>, y: seq<byte>)
    requires Addressable(a) && Addressable(b) && Delimited(a) + x == Delimited(b) + y
    ensures a == b && x == y
  {
    var s, t := Delimited(a) + x, Delimited(b) + y;
    assert s[..8] == LittleEndian(|a|, 8) && t[..8] == LittleEndian(|b|, 8);
    LittleEndianInjective(|a|, |b|, 8);
    assert a == s[8..8 + |a|] && b == t[8..8 + |b|];
    assert x == s[8 + |a|..] && y == t[8 + |b|..];
  }

  /** The encoding of a list of fields determines the fields: no text can leak into its neighbour. */
  lemma {:induction false} EncodeFieldsInjective(a: seq<seq<byte>>, b: seq<seq<byte>>)
    requires |a| == |b| && (forall f | f in a :: Addressable(f)) && (forall f | f in b :: Addressable(f))
    requires EncodeFields(a) == EncodeFields(b)
    ensures a == b
  {
    if a != [] {
      DelimitedPrefixFree(a[0], b[0], EncodeFields(a[1..]), EncodeFields(b[1..]));
      EncodeFieldsInjective(a[1..], b[1..]);
      assert a == [a[0]] + a[1..] && b == [b[0]] + b[1..];
    }
  }
}
