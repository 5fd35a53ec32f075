/**
 * The parts of Python's `str` behaviour that the script relies on:
 * `str.lower`, `str.endswith` and the decimal rendering of an `int`
 * inside an f-string.
 */
module Text {

  /** `c.lower()` for one character; only ASCII letters are folded. */
  function LowerChar(c: char): char
  {
    if 'A' <= c <= 'Z' then (c as int + 32) as char else c
  }

  /** `s.lower()`, character by character. */
  function Lower(s: string): (r: string)
    ensures |r| == |s|
    ensures IsLowerCase(r)
  {
    seq(|s|, i requires 0 <= i < |s| => LowerChar(s[i]))
  }

  /** `s.endswith(suffix)`. */
  predicate EndsWith(s: string, suffix: string)
  {
    |suffix| <= |s| && s[|s| - |suffix|..] == suffix
  }

  /** A string that `lower()` leaves unchanged. */
  predicate IsLowerCase(s: string)
  {
    forall i :: 0 <= i < |s| ==> !('A' <= s[i] <= 'Z')
  }

  /**
   * Case-sensitive suffix matches survive lower-casing when the suffix has
   * no upper-case letter: a name ending in `.svg` also ends in `.svg` once
   * lower-cased.
   */
  lemma LowerKeepsLowerSuffix(s: string, suffix: string)
    requires IsLowerCase(suffix)
    ensures EndsWith(s, suffix) ==> EndsWith(Lower(s), suffix)
  {
    if EndsWith(s, suffix) {
      var k := |s| - |suffix|;
      forall i | 0 <= i < |suffix|
        ensures Lower(s)[k..][i] == suffix[i]
      {
        assert s[k..][i] == suffix[i];
      }
    }
  }

  /** The last `n` characters of a string that ends in `suffix` are those of `suffix`. */
  lemma EndsWithTail(s: string, suffix: string, n: nat)
    requires n <= |suffix|
    ensures EndsWith(s, suffix) ==> |s| >= n && s[|s| - n..] == suffix[|suffix| - n..]
  {
    if EndsWith(s, suffix) {
      assert s[|s| - n..] == s[|s| - |suffix|..][|suffix| - n..];
    }
  }

  predicate IsDigit(c: char)
  {
    '0' <= c <= '9'
  }

  function DigitChar(d: nat): (c: char)
    requires d < 10
  {
    ('0' as int + d) as char
  }

  function DigitValue(c: char): nat
    requires IsDigit(c)
  {
    c as int - '0' as int
  }

  predicate IsDecimal(s: string)
  {
    forall i :: 0 <= i < |s| ==> IsDigit(s[i])
  }

  /**
   * `str(n)` for a non-negative integer: its decimal digits, most
   * significant first, with no leading zero.
   */
  function NatToString(n: nat): (s: string)
    ensures |s| > 0 && IsDecimal(s)
    ensures |s| > 1 ==> s[0] != '0'
    ensures n < 10 <==> |s| == 1
  {
    if n < 10 then [DigitChar(n)] else NatToString(n / 10) + [DigitChar(n % 10)]
  }

  /** The value of a string of decimal digits (the empty string reads as 0). */
  function ParseDecimal(s: string): nat
    requires IsDecimal(s)
  {
    if s == [] then 0 else 10 * ParseDecimal(s[..|s| - 1]) + DigitValue(s[|s| - 1])
  }

  /** Reading back the decimal rendering gives the number again. */
  lemma {:induction false} ParseNatToString(n: nat)
    ensures ParseDecimal(NatToString(n)) == n
  {
    if n >= 10 {
      var s := NatToString(n / 10);
      var t := s + [DigitChar(n % 10)];
      assert t[..|t| - 1] == s;
      ParseNatToString(n / 10);
    }
  }

  /** Distinct numbers are rendered as distinct strings. */
  lemma NatToStringInjective(a: nat, b: nat)
    ensures NatToString(a) == NatToString(b) ==> a == b
  {
    ParseNatToString(a);
    ParseNatToString(b);
  }

  /**
   * Two strings that differ only in the decimal number between a common
   * prefix and a common suffix carry the same number.
   */
  lemma DecimalInfixInjective(prefix: string, j: nat, k: nat, suffix: string)
    requires prefix + NatToString(j) + suffix == prefix + NatToString(k) + suffix
    ensures j == k
  {
    var a, b := NatToString(j), NatToString(k);
    assert |a| == |b|;
    assert (prefix + a + suffix)[|prefix|..|prefix| + |a|] == a;
    assert (prefix + b + suffix)[|prefix|..|prefix| + |b|] == b;
    NatToStringInjective(j, k);
  }
}
