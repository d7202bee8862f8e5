/**
 * UTF-8, as section 3 of RFC 3629 defines it, over Unicode scalar values: a Dafny `char` is exactly
 * a scalar value, so a `string` here is a text with no unpaired surrogate.
 */
module Utf8 {
  import opened Basics

  function EncodeChar(c: char): (bytes: seq<Byte>)
    ensures 1 <= |bytes| <= 4
  {
    var v := c as int;
    if v < 0x80 then [v]
    else if v < 0x800 then [0xC0 + v / 0x40, 0x80 + v % 0x40]
    else if v < 0x10000 then [0xE0 + v / 0x40 / 0x40, 0x80 + v / 0x40 % 0x40, 0x80 + v % 0x40]
    else [0xF0 + v / 0x40 / 0x40 / 0x40, 0x80 + v / 0x40 / 0x40 % 0x40, 0x80 + v / 0x40 % 0x40, 0x80 + v % 0x40]
  }

  function Encode(text: string): seq<Byte> {
    if text == "" then [] else EncodeChar(text[0]) + Encode(text[1..])
  }

  function Size(text: string): nat { |Encode(text)| }

  lemma {:induction false} SizeBounds(text: string)
    ensures |text| <= Size(text) <= 4 * |text|
  {
    if text != "" { SizeBounds(text[1..]); }
  }

  /** The same size, counted character by character without building the bytes. */
  function ByteCount(text: string): nat {
    if text == "" then 0 else CharCount(text[0]) + ByteCount(text[1..])
  }

  function CharCount(c: char): nat {
    var v := c as int;
    if v < 0x80 then 1 else if v < 0x800 then 2 else if v < 0x10000 then 3 else 4
  }

  lemma {:induction false} ByteCountIsSize(text: string)
    ensures ByteCount(text) == Size(text)
  {
    if text != "" {
      ByteCountIsSize(text[1..]);
    }
  }

  lemma ByteCountConcat(a: string, b: string)
    ensures ByteCount(a + b) == ByteCount(a) + ByteCount(b)
  {
    ByteCountIsSize(a);
    ByteCountIsSize(b);
    ByteCountIsSize(a + b);
    SizeConcat(a, b);
  }

  lemma {:induction false} EncodeConcat(a: string, b: string)
    ensures Encode(a + b) == Encode(a) + Encode(b)
  {
    if a == "" {
      assert a + b == b;
    } else {
      EncodeConcat(a[1..], b);
      assert (a + b)[1..] == a[1..] + b;
    }
  }

  lemma SizeConcat(a: string, b: string)
    ensures Size(a + b) == Size(a) + Size(b)
  {
    EncodeConcat(a, b);
  }

  /** No character's encoding is a prefix of another's continuation: the code is self-delimiting. */
  lemma EncodeCharSplits(c: char, d: char, r: seq<Byte>, t: seq<Byte>)
    requires EncodeChar(c) + r == EncodeChar(d) + t
    ensures c == d && r == t
  {
    var a, b := EncodeChar(c), EncodeChar(d);
    assert a[0] == (a + r)[0] == (b + t)[0] == b[0];
    LeadByteTellsLength(c);
    LeadByteTellsLength(d);
    AppendInjective(a, r, b, t);
    EncodeCharInjective(c, d);
  }

  lemma LeadByteTellsLength(c: char)
    ensures var bytes := EncodeChar(c);
            |bytes| == if bytes[0] < 0xC0 then 1 else if bytes[0] < 0xE0 then 2 else if bytes[0] < 0xF0 then 3 else 4
  {
  }

  /** The scalar value that a well-formed encoding stands for. */
  function CharValue(bytes: seq<Byte>): int
    requires 1 <= |bytes| <= 4
  {
    if |bytes| == 1 then bytes[0]
    else if |bytes| == 2 then (bytes[0] as int - 0xC0) * 0x40 + (bytes[1] as int - 0x80)
    else if |bytes| == 3 then ((bytes[0] as int - 0xE0) * 0x40 + (bytes[1] as int - 0x80)) * 0x40 + (bytes[2] as int - 0x80)
    else (((bytes[0] as int - 0xF0) * 0x40 + (bytes[1] as int - 0x80)) * 0x40 + (bytes[2] as int - 0x80)) * 0x40 + (bytes[3] as int - 0x80)
  }

  lemma CharValueOfEncoding(c: char)
    ensures CharValue(EncodeChar(c)) == c as int
  {
  }

  /** Every byte after the first is a continuation byte, and no first byte is one. */
  lemma ContinuationBytes(c: char)
    ensures EncodeChar(c)[0] < 0x80 || 0xC2 <= EncodeChar(c)[0] <= 0xF4
    ensures forall i :: 1 <= i < |EncodeChar(c)| ==> 0x80 <= EncodeChar(c)[i] <= 0xBF
  {
  }

  lemma EncodeCharInjective(c: char, d: char)
    requires EncodeChar(c) == EncodeChar(d)
    ensures c == d
  {
    CharValueOfEncoding(c);
    CharValueOfEncoding(d);
  }

  lemma {:induction false} EncodeInjective(a: string, b: string)
    requires Encode(a) == Encode(b)
    ensures a == b
  {
    if a != "" && b != "" {
      EncodeCharSplits(a[0], b[0], Encode(a[1..]), Encode(b[1..]));
      EncodeInjective(a[1..], b[1..]);
    }
  }
}
