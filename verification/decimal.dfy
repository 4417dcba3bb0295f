/** Base-10 rendering of unsigned 64-bit integers, as done by Go's
    `strconv.FormatUint(n, 10)`, together with its inverse. */
module Decimal {

  /** 2^64: the values of a Go `uint64` are the naturals below this bound. */
  const Uint64Bound: nat := 0x1_0000_0000_0000_0000

  type Uint64 = n: nat | n < Uint64Bound

  predicate IsDigit(c: char) {
    '0' <= c <= '9'
  }

  function DigitChar(d: nat): (c: char)
    requires d < 10
    ensures IsDigit(c) && c as int - '0' as int == d
  {
    (('0' as int) + d) as char
  }

  function DigitValue(c: char): nat
    requires IsDigit(c)
  {
    c as int - '0' as int
  }

  /** A canonical decimal numeral: non-empty, digits only, and no leading zero
      unless the numeral is "0" itself. */
  predicate Canonical(s: string) {
    && |s| > 0
    && (forall i :: 0 <= i < |s| ==> IsDigit(s[i]))
    && (s[0] == '0' ==> s == "0")
  }

  function Pow10(k: nat): (p: nat)
    ensures p >= 1
  {
    if k == 0 then 1 else 10 * Pow10(k - 1)
  }

  /** `strconv.FormatUint(n, 10)`: most significant digit first. */
  function FormatUint(n: nat): (r: string)
    ensures Canonical(r)
    ensures r[0] == '0' <==> n == 0
  {
    if n < 10 then [DigitChar(n)] else FormatUint(n / 10) + [DigitChar(n % 10)]
  }

  /** The value a string of digits denotes (the inverse of FormatUint). */
  function ParseUint(s: string): nat
    requires forall i :: 0 <= i < |s| ==> IsDigit(s[i])
  {
    if |s| == 0 then 0 else ParseUint(s[..|s| - 1]) * 10 + DigitValue(s[|s| - 1])
  }

  /** Reading back a rendering gives the rendered number. */
  lemma {:induction false} ParseFormat(n: nat)
    ensures ParseUint(FormatUint(n)) == n
  {
    if n >= 10 {
      var s := FormatUint(n);
      assert s[..|s| - 1] == FormatUint(n / 10);
      ParseFormat(n / 10);
    }
  }

  /** A numeral with a non-zero leading digit denotes a positive number. */
  lemma {:induction false} ParsePositive(s: string)
    requires |s| > 0 && (forall i :: 0 <= i < |s| ==> IsDigit(s[i])) && s[0] != '0'
    ensures ParseUint(s) >= 1
  {
    if |s| > 1 {
      ParsePositive(s[..|s| - 1]);
    }
  }

  /** Dividing `10q + d` by ten recovers `q` and `d`. */
  lemma DivModTen(q: nat, d: nat)
    requires d < 10
    ensures (q * 10 + d) / 10 == q && (q * 10 + d) % 10 == d
  {
  }

  /** Appending a digit to the rendering of a positive number renders ten
      times it plus the digit. */
  lemma FormatAppend(q: nat, d: nat)
    requires q >= 1 && d < 10
    ensures FormatUint(q * 10 + d) == FormatUint(q) + [DigitChar(d)]
  {
    DivModTen(q, d);
  }

  /** Rendering the value of a canonical numeral gives the numeral back. */
  lemma {:induction false} FormatParse(s: string)
    requires Canonical(s)
    ensures FormatUint(ParseUint(s)) == s
  {
    if |s| > 1 {
      var p, c := s[..|s| - 1], s[|s| - 1];
      assert Canonical(p) by {
        assert p[0] == s[0];
      }
      ParsePositive(p);
      FormatParse(p);
      assert ParseUint(s) == ParseUint(p) * 10 + DigitValue(c);
      FormatAppend(ParseUint(p), DigitValue(c));
      assert s == p + [c];
    }
  }

  /** Two numbers render alike exactly when they are equal. */
  lemma FormatInjective(m: nat, n: nat)
    ensures FormatUint(m) == FormatUint(n) <==> m == n
  {
    ParseFormat(m);
    ParseFormat(n);
  }

  /** A rendering fits in k characters exactly when the number is below 10^k. */
  lemma {:induction false} FormatLength(n: nat, k: nat)
    requires k >= 1
    ensures |FormatUint(n)| <= k <==> n < Pow10(k)
  {
    if n >= 10 && k >= 2 {
      FormatLength(n / 10, k - 1);
    } else if n >= 10 {
      assert |FormatUint(n)| == |FormatUint(n / 10)| + 1;
    } else {
      assert Pow10(k) >= 10 by { assert Pow10(k) == 10 * Pow10(k - 1); }
    }
  }

  /** The widest rendering of a uint64 has 20 characters. */
  lemma Uint64Width(n: Uint64)
    ensures |FormatUint(n)| <= 20
  {
    assert Pow10(1) == 10;
    assert Pow10(2) == 100;
    assert Pow10(3) == 1000;
    assert Pow10(4) == 10000;
    assert Pow10(5) == 100000;
    assert Pow10(6) == 1000000;
    assert Pow10(7) == 10000000;
    assert Pow10(8) == 100000000;
    assert Pow10(9) == 1000000000;
    assert Pow10(10) == 10000000000;
    assert Pow10(11) == 100000000000;
    assert Pow10(12) == 1000000000000;
    assert Pow10(13) == 10000000000000;
    assert Pow10(14) == 100000000000000;
    assert Pow10(15) == 1000000000000000;
    assert Pow10(16) == 10000000000000000;
    assert Pow10(17) == 100000000000000000;
    assert Pow10(18) == 1000000000000000000;
    assert Pow10(19) == 10000000000000000000;
    assert Pow10(20) == 100000000000000000000;
    FormatLength(n, 20);
  }
}
