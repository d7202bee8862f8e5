/** Small shared vocabulary: options, results carrying the source's error codes, bytes. */
module Basics {
  datatype Option<+T> = None | Some(value: T)

  datatype Result<+T> = Ok(value: T) | Err(error: string)

  type Byte = b: int | 0 <= b < 256

  function Pow(base: nat, exponent: nat): (p: nat)
    ensures base > 0 ==> p > 0
  {
    if exponent == 0 then 1 else base * Pow(base, exponent - 1)
  }

  function Min(a: int, b: int): int { if a <= b then a else b }

  function Max(a: int, b: int): int { if a <= b then b else a }

  /** Two concatenations that agree, with first parts of equal length, agree part by part. */
  lemma AppendInjective<T>(a: seq<T>, b: seq<T>, c: seq<T>, d: seq<T>)
    requires a + b == c + d
    requires |a| == |c|
    ensures a == c && b == d
  {
    assert a == (a + b)[..|a|];
    assert c == (c + d)[..|c|];
    assert b == (a + b)[|a|..];
    assert d == (c + d)[|c|..];
  }

  /** The number that a byte string denotes, most significant byte first. */
  function BigEndian(bytes: seq<Byte>): nat {
    if bytes == [] then 0
    else BigEndian(bytes[..|bytes| - 1]) * 256 + bytes[|bytes| - 1]
  }

  lemma {:induction false} BigEndianBound(bytes: seq<Byte>)
    ensures BigEndian(bytes) < Pow(256, |bytes|)
  {
    if bytes != [] {
      BigEndianBound(bytes[..|bytes| - 1]);
    }
  }

  lemma BigEndianSnoc(bytes: seq<Byte>, last: Byte)
    ensures BigEndian(bytes + [last]) == BigEndian(bytes) * 256 + last
  {
    assert (bytes + [last])[..|bytes|] == bytes;
  }

  /** The first byte counts most. */
  lemma {:induction false} BigEndianCons(first: Byte, rest: seq<Byte>)
    ensures BigEndian([first] + rest) == first * Pow(256, |rest|) + BigEndian(rest)
  {
    if rest == [] {
      assert [first] + rest == [first] && [first][..0] == [];
    } else {
      var init, last := rest[..|rest| - 1], rest[|rest| - 1];
      BigEndianCons(first, init);
      assert [first] + rest == ([first] + init) + [last];
      BigEndianSnoc([first] + init, last);
    }
  }

  /** The low `width` bytes of `value`, most significant first. */
  function ToBytes(value: nat, width: nat): (bytes: seq<Byte>)
    ensures |bytes| == width
  {
    if width == 0 then [] else ToBytes(value / 256, width - 1) + [value % 256]
  }

  lemma {:induction false} ToBytesReadsBack(value: nat, width: nat)
    requires value < Pow(256, width)
    ensures BigEndian(ToBytes(value, width)) == value
  {
    if width > 0 {
      ToBytesReadsBack(value / 256, width - 1);
      BigEndianSnoc(ToBytes(value / 256, width - 1), value % 256);
    }
  }

  /** The capacities of two, four and eight bytes. */
  lemma PowersOf256()
    ensures Pow(256, 2) == 0x1_0000 && Pow(256, 4) == 0x1_0000_0000 && Pow(256, 8) == 0x1_0000_0000_0000_0000
  {
    assert Pow(256, 1) == 256;
    assert Pow(256, 3) == 256 * Pow(256, 2);
    assert Pow(256, 5) == 256 * Pow(256, 4);
    assert Pow(256, 6) == 256 * Pow(256, 5);
    assert Pow(256, 7) == 256 * Pow(256, 6);
  }

  lemma {:induction false} BigEndianWritesBack(bytes: seq<Byte>)
    ensures ToBytes(BigEndian(bytes), |bytes|) == bytes
  {
    if bytes != [] {
      BigEndianWritesBack(bytes[..|bytes| - 1]);
    }
  }
}
