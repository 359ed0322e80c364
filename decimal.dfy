/**
 * Rendering of a non-negative `int` into text, as string interpolation does
 * for `{charCount}`: plain decimal digits '0'..'9', no sign, no grouping and
 * no leading zero. A reader of digits is given beside it so that the
 * rendering can be shown to lose nothing.
 */
module Decimal {
  import opened Utf16

  /** The code unit of the ASCII digit for `d`. */
  function DigitUnit(d: nat): (c: CodeUnit)
    requires d < 10
    ensures IsDigit(c) && DigitValue(c) == d
  {
    (0x30 + d) as CodeUnit
  }

  predicate IsDigit(c: CodeUnit) {
    0x30 <= c <= 0x39
  }

  function DigitValue(c: CodeUnit): nat
    requires IsDigit(c)
  {
    (c - 0x30) as nat
  }

  predicate AllDigits(t: Text) {
    forall i :: 0 <= i < |t| ==> IsDigit(t[i])
  }

  /** The form `int.ToString()` gives a non-negative value: non-empty, all
      digits, and no leading zero unless the value is zero itself. */
  predicate Canonical(t: Text) {
    |t| >= 1 && AllDigits(t) && (t[0] == 0x30 ==> |t| == 1)
  }

  /** Decimal rendering of `n`. */
  function Render(n: nat): (r: Text)
    ensures Canonical(r)
  {
    if n < 10 then [DigitUnit(n)]
    else Render(n / 10) + [DigitUnit(n % 10)]
  }

  /** The number a string of digits denotes. */
  function Value(t: Text): nat
    requires AllDigits(t)
  {
    if t == [] then 0
    else 10 * Value(t[..|t| - 1]) + DigitValue(t[|t| - 1])
  }

  /** Reading back a rendering gives the number rendered. */
  lemma {:induction false} ValueRender(n: nat)
    ensures Value(Render(n)) == n
  {
    if n >= 10 {
      ValueRender(n / 10);
      var r := Render(n);
      assert r[..|r| - 1] == Render(n / 10);
    }
  }

  /** Rendering the value of a canonical digit string gives the string back:
      with ValueRender, Render is a bijection between numbers and canonical
      digit strings. */
  lemma {:induction false} RenderValue(t: Text)
    requires Canonical(t)
    ensures Render(Value(t)) == t
    decreases |t|
  {
    if |t| > 1 {
      var init, last := t[..|t| - 1], t[|t| - 1];
      assert init[0] == t[0];
      RenderValue(init);
      var v := Value(init);
      assert v >= 1 by {
        if v == 0 { ZeroValueIsZeros(init); }
      }
      assert Value(t) / 10 == v && Value(t) % 10 == DigitValue(last);
      assert DigitUnit(DigitValue(last)) == last;
      assert t == init + [last];
    } else {
      assert DigitUnit(DigitValue(t[0])) == t[0];
    }
  }

  /** Only a string of zeros denotes zero. */
  lemma {:induction false} ZeroValueIsZeros(t: Text)
    requires AllDigits(t) && Value(t) == 0
    ensures forall i :: 0 <= i < |t| ==> t[i] == 0x30
  {
    if t != [] {
      var init := t[..|t| - 1];
      ZeroValueIsZeros(init);
      assert forall i :: 0 <= i < |t| - 1 ==> t[i] == init[i];
    }
  }

  /** Different numbers render differently. */
  lemma RenderInjective(m: nat, n: nat)
    requires Render(m) == Render(n)
    ensures m == n
  {
    ValueRender(m);
    ValueRender(n);
  }
}
