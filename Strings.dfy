/**
 * String helpers used by the client: `Array.prototype.join`, `String(n)` for integral numbers
 * (with a decimal parser as its inverse) and the substring relation used to state what a message
 * contains.
 */
module Strings {
  import opened Wrappers

  /** `xs.join(sep)`: the items in order, with `sep` between neighbours and nowhere else. */
  function Join(sep: string, xs: seq<string>): string
  {
    if |xs| == 0 then ""
    else if |xs| == 1 then xs[0]
    else xs[0] + sep + Join(sep, xs[1..])
  }

  /** `a` occurs in `b` at some position. */
  predicate IsInfix(a: string, b: string)
  {
    exists j :: 0 <= j <= |b| && OccursAt(a, b, j)
  }

  /** `a` occurs in `b` starting at index `j`. */
  predicate OccursAt(a: string, b: string, j: int)
  {
    0 <= j <= |b| - |a| && b[j..j + |a|] == a
  }

  lemma InfixAt(a: string, b: string, j: int)
    requires OccursAt(a, b, j)
    ensures IsInfix(a, b)
  {
  }

  /** A string occurs inside any string that has it between a prefix and a suffix. */
  lemma InfixOfConcat(p: string, a: string, q: string)
    ensures IsInfix(a, p + a + q)
  {
    var b := p + a + q;
    assert b[|p|..|p| + |a|] == a;
    InfixAt(a, b, |p|);
  }

  /** The infix relation is transitive. */
  lemma InfixTrans(a: string, b: string, c: string)
    requires IsInfix(a, b) && IsInfix(b, c)
    ensures IsInfix(a, c)
  {
    var i :| 0 <= i <= |b| && OccursAt(a, b, i);
    var j :| 0 <= j <= |c| && OccursAt(b, c, j);
    forall k | 0 <= k < |a|
      ensures c[j + i..j + i + |a|][k] == a[k]
    {
      assert a[k] == b[i..i + |a|][k] == b[i + k];
      assert b[i + k] == c[j..j + |b|][i + k] == c[j + i + k];
    }
    assert c[j + i..j + i + |a|] == a;
    InfixAt(a, c, j + i);
  }

  /** Every item of a list occurs in the list's join, whatever the separator. */
  lemma {:induction false} JoinHasEach(sep: string, xs: seq<string>, i: int)
    requires 0 <= i < |xs|
    ensures IsInfix(xs[i], Join(sep, xs))
    decreases |xs|, 1
  {
    if |xs| == 1 {
      InfixOfConcat("", xs[0], "");
      assert "" + xs[0] + "" == xs[0];
    } else if i == 0 {
      var after := sep + Join(sep, xs[1..]);
      assert Join(sep, xs) == "" + xs[0] + after;
      InfixOfConcat("", xs[0], after);
    } else {
      JoinHasLater(sep, xs, i);
    }
  }

  lemma {:induction false} JoinHasLater(sep: string, xs: seq<string>, i: int)
    requires 2 <= |xs| && 1 <= i < |xs|
    ensures IsInfix(xs[i], Join(sep, xs))
    decreases |xs|, 0
  {
    var tail := Join(sep, xs[1..]);
    assert xs[1..][i - 1] == xs[i];
    JoinHasEach(sep, xs[1..], i - 1);
    assert Join(sep, xs) == (xs[0] + sep) + tail + "";
    InfixOfConcat(xs[0] + sep, tail, "");
    InfixTrans(xs[i], tail, Join(sep, xs));
  }

  // ---------------------------------------------------------------------------------------
  // Decimal numerals: String(n) of an integral number, and its inverse

  function DigitChar(d: nat): (c: char)
    requires d < 10
    ensures '0' <= c <= '9'
  {
    "0123456789"[d]
  }

  function DigitValue(c: char): nat
    requires '0' <= c <= '9'
  {
    (c as int) - ('0' as int)
  }

  predicate AllDigits(s: string)
  {
    forall i :: 0 <= i < |s| ==> '0' <= s[i] <= '9'
  }

  /** The decimal numeral of a natural number: no sign, no leading zero. */
  function Digits(n: nat): (s: string)
    ensures |s| > 0 && AllDigits(s)
    ensures |s| > 1 ==> s[0] != '0'
  {
    if n < 10 then [DigitChar(n)] else Digits(n / 10) + [DigitChar(n % 10)]
  }

  /** `String(n)` for an integral JavaScript number: a minus sign for negatives, then the digits. */
  function DecimalString(n: int): (s: string)
  {
    if n < 0 then "-" + Digits(-n) else Digits(n)
  }

  /** The value of a string of decimal digits. */
  function DigitsValue(s: string): nat
    requires AllDigits(s)
  {
    if s == [] then 0 else 10 * DigitsValue(s[..|s| - 1]) + DigitValue(s[|s| - 1])
  }

  /** Reads back an optionally signed decimal numeral; `None` for anything else. */
  function ParseDecimal(s: string): Option<int>
  {
    if |s| > 1 && s[0] == '-' && AllDigits(s[1..]) then Some(0 - DigitsValue(s[1..]) as int)
    else if |s| > 0 && AllDigits(s) then Some(DigitsValue(s))
    else None
  }

  lemma {:induction false} DigitsRoundTrip(n: nat)
    ensures DigitsValue(Digits(n)) == n
  {
    var s := Digits(n);
    if n >= 10 {
      DigitsRoundTrip(n / 10);
      assert s[..|s| - 1] == Digits(n / 10);
      assert DigitValue("0123456789"[n % 10]) == n % 10;
    } else {
      assert DigitValue("0123456789"[n]) == n;
    }
  }

  lemma DecimalOne()
    ensures DecimalString(1) == "1"
  {
    assert Digits(1) == [DigitChar(1)];
  }

  /** The timestamp and the restriction code are rendered so that they can be read back exactly. */
  lemma DecimalRoundTrip(n: int)
    ensures ParseDecimal(DecimalString(n)) == Some(n)
  {
    if n < 0 {
      DigitsRoundTrip(-n);
      ParseNegative(Digits(-n), -n);
    } else {
      DigitsRoundTrip(n);
      ParseUnsigned(Digits(n), n);
    }
  }

  lemma ParseUnsigned(d: string, m: nat)
    requires |d| > 0 && AllDigits(d) && DigitsValue(d) == m
    ensures ParseDecimal(d) == Some(m)
  {
    assert '0' <= d[0] <= '9';
  }

  lemma ParseNegative(d: string, m: nat)
    requires |d| > 0 && AllDigits(d) && DigitsValue(d) == m
    ensures ParseDecimal("-" + d) == Some(-(m as int))
  {
    var s := "-" + d;
    assert s[0] == '-' && s[1..] == d;
  }
}
