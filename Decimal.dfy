/**
 * Decimal rendering of a natural number, as Rust's `format!("{}", n)` writes an
 * unsigned integer: the digits of `n` in base ten, most significant first, with
 * no sign, no padding and no leading zero (zero itself is written "0").
 *
 * `Parse` is the inverse on canonical digit strings; the two round-trip lemmas
 * show that rendering loses no information and that every canonical string is
 * the rendering of exactly one number.
 */
module Decimal {
  import opened Wrappers

  predicate IsDigit(c: char) {
    '0' <= c <= '9'
  }

  function DigitValue(c: char): (d: nat)
    requires IsDigit(c)
    ensures d < 10
  {
    c as int - '0' as int
  }

  /** The character of a single decimal digit. */
  function DigitChar(d: nat): (c: char)
    requires d < 10
    ensures IsDigit(c) && DigitValue(c) == d
  {
    ('0' as int + d) as char
  }

  /** A non-empty string of digits with no leading zero: the shape `format!` produces. */
  predicate IsCanonical(s: string) {
    && |s| > 0
    && (forall i :: 0 <= i < |s| ==> IsDigit(s[i]))
    && (s[0] == '0' ==> |s| == 1)
  }

  /** The number a string of digits denotes, read most significant digit first. */
  function Value(s: string): nat
    requires forall i :: 0 <= i < |s| ==> IsDigit(s[i])
  {
    if |s| == 0 then 0 else 10 * Value(s[..|s| - 1]) + DigitValue(s[|s| - 1])
  }

  /** The decimal rendering of `n`. */
  function Render(n: nat): (s: string)
    ensures IsCanonical(s)
    ensures s[0] == '0' <==> n == 0
    ensures forall i :: 0 <= i < |s| ==> s[i] != ',' && s[i] != ' '
    decreases n
  {
    if n < 10 then [DigitChar(n)] else Render(n / 10) + [DigitChar(n % 10)]
  }

  /** Reads a canonical decimal string back; anything else is refused. */
  function Parse(s: string): Option<nat> {
    if IsCanonical(s) then Some(Value(s)) else None
  }

  lemma {:induction false} ValueOfRender(n: nat)
    ensures Value(Render(n)) == n
    decreases n
  {
    if n >= 10 {
      var p, c := Render(n / 10), DigitChar(n % 10);
      assert Render(n) == p + [c];
      assert (p + [c])[..|p|] == p;
      ValueOfRender(n / 10);
    }
  }

  /** Rendering then parsing gives the number back. */
  lemma ParseRender(n: nat)
    ensures Parse(Render(n)) == Some(n)
  {
    ValueOfRender(n);
  }

  lemma {:induction false} ValuePositive(s: string)
    requires |s| > 0 && s[0] != '0'
    requires forall i :: 0 <= i < |s| ==> IsDigit(s[i])
    ensures Value(s) >= 1
    decreases |s|
  {
    if |s| > 1 {
      ValuePositive(s[..|s| - 1]);
    }
  }

  /** Parsing then rendering gives the string back. */
  lemma {:induction false} RenderParse(s: string, n: nat)
    requires Parse(s) == Some(n)
    ensures Render(n) == s
    decreases |s|
  {
    if |s| > 1 {
      var p := s[..|s| - 1];
      assert IsCanonical(p);
      ValuePositive(p);
      var d := DigitValue(s[|s| - 1]);
      assert n == 10 * Value(p) + d;
      assert n / 10 == Value(p) && n % 10 == d;
      RenderParse(p, Value(p));
      assert s == p + [s[|s| - 1]];
    }
  }

  /** Distinct numbers have distinct renderings. */
  lemma RenderInjective(m: nat, n: nat)
    requires Render(m) == Render(n)
    ensures m == n
  {
    ParseRender(m);
    ParseRender(n);
  }
}
