/**
 * The few `java.lang.String` and `Integer` operations the modelled code
 * relies on: `isBlank`, `equalsIgnoreCase` and decimal `Integer.toString`.
 */
module JavaStrings {
  import opened Wrappers

  /**
   * `Character.isWhitespace` on a character of the Basic Multilingual Plane:
   * the ASCII controls TAB..CR and FS..US, and the Unicode space, line and
   * paragraph separators other than the no-break spaces U+00A0, U+2007 and U+202F.
   */
  predicate IsWhitespace(c: char) {
    || ('\t' <= c <= '\r')
    || ('\U{1C}' <= c <= '\U{1F}')
    || c == ' '
    || c == '\U{1680}'
    || ('\U{2000}' <= c <= '\U{2006}')
    || ('\U{2008}' <= c <= '\U{200A}')
    || c == '\U{2028}'
    || c == '\U{2029}'
    || c == '\U{205F}'
    || c == '\U{3000}'
  }

  /** `s.isBlank()`: empty, or whitespace only. */
  predicate IsBlank(s: string) {
    forall i :: 0 <= i < |s| ==> IsWhitespace(s[i])
  }

  /** Lower-casing of the ASCII letters; every other character is left alone. */
  function ToLowerAscii(c: char): char {
    if 'A' <= c <= 'Z' then (c as int - 'A' as int + 'a' as int) as char else c
  }

  function FoldCase(s: string): (r: string)
    ensures |r| == |s|
    ensures forall i :: 0 <= i < |s| ==> r[i] == ToLowerAscii(s[i])
  {
    seq(|s|, i requires 0 <= i < |s| => ToLowerAscii(s[i]))
  }

  /**
   * `a.equalsIgnoreCase(b)`: false when `b` is null; otherwise the two have
   * the same length and agree character by character up to ASCII case.
   */
  /** `s.startsWith(prefix)`. */
  predicate StartsWith(s: string, prefix: string) {
    |prefix| <= |s| && s[..|prefix|] == prefix
  }

  predicate EqualsIgnoreCase(a: string, b: Option<string>) {
    b.Some? && FoldCase(a) == FoldCase(b.value)
  }

  lemma EqualsIgnoreCaseReflexive(a: string)
    ensures EqualsIgnoreCase(a, Some(a))
  {
  }

  function DecimalDigit(d: nat): (c: char)
    requires d < 10
    ensures '0' <= c <= '9'
  {
    ('0' as int + d) as char
  }

  function DigitValue(c: char): nat {
    if '0' <= c <= '9' then c as int - '0' as int else 0
  }

  /** `Integer.toString(n)` for a non-negative `n`: its decimal digits, most significant first. */
  function IntToString(n: nat): (s: string)
    ensures |s| >= 1
    decreases n
  {
    if n < 10 then [DecimalDigit(n)] else IntToString(n / 10) + [DecimalDigit(n % 10)]
  }

  /** The value of a string of decimal digits (the inverse of `IntToString`). */
  function ParseDecimal(s: string): nat
    decreases |s|
  {
    if s == [] then 0 else ParseDecimal(s[..|s| - 1]) * 10 + DigitValue(s[|s| - 1])
  }

  lemma {:induction false} ParseDecimalOfIntToString(n: nat)
    ensures ParseDecimal(IntToString(n)) == n
    decreases n
  {
    var s := IntToString(n);
    if n >= 10 {
      ParseDecimalOfIntToString(n / 10);
      assert s[..|s| - 1] == IntToString(n / 10);
      assert DigitValue(s[|s| - 1]) == n % 10;
    } else {
      assert s[..|s| - 1] == [];
    }
  }

  /** Distinct numbers have distinct decimal renderings. */
  lemma IntToStringInjective(a: nat, b: nat)
    requires IntToString(a) == IntToString(b)
    ensures a == b
  {
    ParseDecimalOfIntToString(a);
    ParseDecimalOfIntToString(b);
  }
}
