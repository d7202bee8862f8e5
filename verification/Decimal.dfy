/** Decimal numerals as `toString` prints them, and why a numeral followed by a delimiter splits one way. */
module Decimal {
  import opened Basics

  predicate IsDigit(c: char) { '0' <= c <= '9' }

  function Nat(n: nat): (text: string)
    ensures text != ""
    ensures forall i :: 0 <= i < |text| ==> IsDigit(text[i])
  {
    if n < 10 then ['0' + n as char] else Nat(n / 10) + ['0' + (n % 10) as char]
  }

  function Int(n: int): string { if n < 0 then "-" + Nat(-n) else Nat(n) }

  function Parse(text: string): int {
    if text == "" then 0 else Parse(text[..|text| - 1]) * 10 + (text[|text| - 1] as int - '0' as int)
  }

  lemma {:induction false} ParseNat(n: nat)
    ensures Parse(Nat(n)) == n
  {
    if n < 10 {
      assert Nat(n)[..0] == "";
    } else {
      ParseNat(n / 10);
      assert Nat(n)[..|Nat(n)| - 1] == Nat(n / 10);
    }
  }

  lemma {:induction false} NoLeadingZero(n: nat)
    requires n > 0
    ensures Nat(n)[0] != '0'
  {
    if n >= 10 { NoLeadingZero(n / 10); }
  }

  lemma NatInjective(n: nat, m: nat)
    requires Nat(n) == Nat(m)
    ensures n == m
  {
    ParseNat(n);
    ParseNat(m);
  }

  lemma IntInjective(n: int, m: int)
    requires Int(n) == Int(m)
    ensures n == m
  {
    assert IsDigit(Nat(if n < 0 then -n else n)[0]) && IsDigit(Nat(if m < 0 then -m else m)[0]);
    assert Int(n)[0] == Int(m)[0];
    if n < 0 {
      assert Int(n)[1..] == Nat(-n) && Int(m)[1..] == Nat(-m);
      NatInjective(-n, -m);
    } else {
      NatInjective(n, m);
    }
  }

  /** Digits up to a delimiter that is no digit: both halves are determined. */
  lemma {:induction false} DelimitedSplits(a: string, b: string, delimiter: char, r: string, t: string)
    requires forall i :: 0 <= i < |a| ==> a[i] != delimiter
    requires forall i :: 0 <= i < |b| ==> b[i] != delimiter
    requires a + [delimiter] + r == b + [delimiter] + t
    ensures a == b && r == t
  {
    var whole := a + [delimiter] + r;
    assert whole[0] == if a == "" then delimiter else a[0];
    assert whole[0] == if b == "" then delimiter else b[0];
    if a == "" {
      assert whole[1..] == r;
      assert whole[1..] == t;
    } else {
      assert whole[1..] == a[1..] + [delimiter] + r;
      assert whole[1..] == b[1..] + [delimiter] + t;
      DelimitedSplits(a[1..], b[1..], delimiter, r, t);
    }
  }
}
