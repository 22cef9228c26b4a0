/** Text helpers: the decimal rendering of a millisecond timestamp inside
    a template string, and the case-insensitive substring test that the
    user directory's `contains` filter performs. */
module Text {

  import opened Common

  predicate IsDigit(c: char)
  {
    '0' <= c <= '9'
  }

  predicate AllDigits(s: string)
  {
    forall i :: 0 <= i < |s| ==> IsDigit(s[i])
  }

  function DigitChar(d: nat): (c: char)
    requires d < 10
    ensures IsDigit(c)
  {
    ('0' as int + d) as char
  }

  function DigitValue(c: char): (d: nat)
    requires IsDigit(c)
    ensures d < 10
  {
    c as int - '0' as int
  }

  /** The decimal digits of `n`, most significant first, as a number is written
      when it is interpolated into a JavaScript template string. */
  function Decimal(n: nat): (r: string)
    ensures |r| >= 1 && AllDigits(r)
    ensures r[0] == '0' ==> n == 0
  {
    if n < 10 then [DigitChar(n)] else Decimal(n / 10) + [DigitChar(n % 10)]
  }

  /** Reads a string of decimal digits back as a number. */
  function ParseDecimal(s: string): nat
    requires AllDigits(s)
  {
    if s == [] then 0 else ParseDecimal(s[..|s| - 1]) * 10 + DigitValue(s[|s| - 1])
  }

  /** Parsing undoes the rendering. */
  lemma {:induction false} ParseDecimalOfDecimal(n: nat)
    ensures ParseDecimal(Decimal(n)) == n
  {
    var r := Decimal(n);
    if n >= 10 {
      ParseDecimalOfDecimal(n / 10);
      assert r[..|r| - 1] == Decimal(n / 10);
    }
  }

  /** Different numbers are rendered differently. */
  lemma DecimalInjective(a: nat, b: nat)
    requires Decimal(a) == Decimal(b)
    ensures a == b
  {
    ParseDecimalOfDecimal(a);
    ParseDecimalOfDecimal(b);
  }

  /** In a run of digits followed by text that does not start with a digit,
      the digits are exactly the positions before the end of the run. */
  lemma DigitRunPositions(d: string, e: string)
    requires AllDigits(d) && (e == [] || !IsDigit(e[0]))
    ensures forall k :: 0 <= k < |d| ==> IsDigit((d + e)[k])
    ensures |d| < |d + e| ==> !IsDigit((d + e)[|d|])
  {
  }

  /** A run of digits followed by text that does not start with a digit
      splits in only one way. */
  lemma DigitRunSplit(d1: string, e1: string, d2: string, e2: string)
    requires AllDigits(d1) && AllDigits(d2)
    requires (e1 == [] || !IsDigit(e1[0])) && (e2 == [] || !IsDigit(e2[0]))
    requires d1 + e1 == d2 + e2
    ensures d1 == d2 && e1 == e2
  {
    var s := d1 + e1;
    DigitRunPositions(d1, e1);
    DigitRunPositions(d2, e2);
    assert |d1| == |d2|;
    assert d1 == s[..|d1|] && d2 == s[..|d2|];
  }

  /** Case folding of one character (ASCII letters only). */
  function Lower(c: char): (l: char)
    ensures 'A' <= c <= 'Z' ==> l as int == c as int + 32
    ensures !('A' <= c <= 'Z') ==> l == c
  {
    if 'A' <= c <= 'Z' then (c as int + 32) as char else c
  }

  function LowerString(s: string): (r: string)
    ensures |r| == |s|
    ensures forall i :: 0 <= i < |s| ==> r[i] == Lower(s[i])
  {
    seq(|s|, i requires 0 <= i < |s| => Lower(s[i]))
  }

  predicate IsPrefix(q: string, s: string)
  {
    |q| <= |s| && s[..|q|] == q
  }

  /** `s` holds `q` somewhere, scanning from the left. */
  predicate Contains(s: string, q: string)
    decreases |s|
  {
    IsPrefix(q, s) || (s != [] && Contains(s[1..], q))
  }

  /** `q` occurs in `s` starting at position `i`. */
  predicate OccursAt(s: string, q: string, i: int)
  {
    0 <= i && i + |q| <= |s| && s[i..i + |q|] == q
  }

  /** The scan finds `q` exactly when `q` occurs at some position of `s`. */
  lemma {:induction false} ContainsIffOccurs(s: string, q: string)
    ensures Contains(s, q) <==> exists i :: OccursAt(s, q, i)
    decreases |s|
  {
    if IsPrefix(q, s) {
      assert OccursAt(s, q, 0);
    } else if s == [] {
      assert forall i :: !OccursAt(s, q, i);
    } else {
      ContainsIffOccurs(s[1..], q);
      forall i | OccursAt(s[1..], q, i) ensures OccursAt(s, q, i + 1) {
        assert s[1..][i..i + |q|] == s[i + 1..i + 1 + |q|];
      }
      forall i | OccursAt(s, q, i) ensures OccursAt(s[1..], q, i - 1) {
        assert i != 0;
        assert s[1..][i - 1..i - 1 + |q|] == s[i..i + |q|];
      }
    }
  }

  /** A string in which the first character of `q` never appears does not
      contain `q`. */
  lemma {:induction false} MissingFirstChar(s: string, q: string)
    requires q != [] && forall i :: 0 <= i < |s| ==> s[i] != q[0]
    ensures !Contains(s, q)
    decreases |s|
  {
    if s != [] {
      assert !IsPrefix(q, s) by {
        if |q| <= |s| {
          assert s[..|q|][0] == s[0];
        }
      }
      MissingFirstChar(s[1..], q);
    }
  }

  /** Case-insensitive `contains` on a column that may be null: a null column
      never matches. */
  predicate ContainsIgnoringCase(field: Option<string>, q: string)
  {
    field.Some? && Contains(LowerString(field.value), LowerString(q))
  }
}
