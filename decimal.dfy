/**
 * Decimal digit strings: the part of JavaScript's number/string conversions
 * that the geometry parser and the automatic window ids rely on, restricted
 * to natural numbers.
 */
module Decimal {

  predicate IsDigit(c: char) {
    '0' <= c <= '9'
  }

  predicate AllDigits(s: string) {
    forall i :: 0 <= i < |s| ==> IsDigit(s[i])
  }

  function DigitChar(d: nat): (c: char)
    requires d < 10
    ensures IsDigit(c)
  {
    (48 + d) as char
  }

  function DigitValue(c: char): (d: nat)
    requires IsDigit(c)
    ensures d < 10
  {
    c as int - 48
  }

  /** `"" + n` for a natural number n: its decimal rendering, without leading zeros. */
  function Render(n: nat): (s: string)
    ensures |s| > 0 && AllDigits(s)
    ensures n > 0 ==> s[0] != '0'
    decreases n
  {
    if n < 10 then [DigitChar(n)] else Render(n / 10) + [DigitChar(n % 10)]
  }

  /** The number a non-empty string of digits denotes (leading zeros allowed). */
  function Value(s: string): nat
    requires AllDigits(s)
  {
    if s == [] then 0 else Value(s[..|s| - 1]) * 10 + DigitValue(s[|s| - 1])
  }

  /** Length of the longest prefix of `s` made of digits. */
  function DigitRun(s: string): (k: nat)
    ensures k <= |s| && AllDigits(s[..k])
    ensures k < |s| ==> !IsDigit(s[k])
  {
    if s == [] || !IsDigit(s[0]) then 0
    else
      var k := DigitRun(s[1..]);
      assert s[..k + 1] == [s[0]] + s[1..][..k];
      k + 1
  }

  /** Reading back a rendered number gives the number. */
  lemma {:induction false} ValueRender(n: nat)
    ensures Value(Render(n)) == n
    decreases n
  {
    if n >= 10 {
      var s := Render(n);
      assert s[..|s| - 1] == Render(n / 10);
      ValueRender(n / 10);
    }
  }

  /** Distinct numbers render to distinct strings. */
  lemma RenderInjective(a: nat, b: nat)
    requires a != b
    ensures Render(a) != Render(b)
  {
    ValueRender(a);
    ValueRender(b);
  }

  /** The digit run of a rendered number followed by a non-digit suffix is the rendering. */
  lemma {:induction false} DigitRunOfRender(n: nat, u: string)
    requires u == [] || !IsDigit(u[0])
    ensures DigitRun(Render(n) + u) == |Render(n)|
    ensures (Render(n) + u)[..|Render(n)|] == Render(n)
  {
    var r := Render(n);
    DigitRunPrefix(r, u);
    assert (r + u)[..|r|] == r;
  }

  lemma {:induction false} DigitRunPrefix(r: string, u: string)
    requires AllDigits(r)
    requires u == [] || !IsDigit(u[0])
    ensures DigitRun(r + u) == |r|
    decreases |r|
  {
    if r == [] {
      assert r + u == u;
    } else {
      assert (r + u)[1..] == r[1..] + u;
      DigitRunPrefix(r[1..], u);
    }
  }

  /** A digit string that does not start with '0' denotes a positive number. */
  lemma {:induction false} ValuePositive(t: string)
    requires t != [] && AllDigits(t) && t[0] != '0'
    ensures Value(t) > 0
    decreases |t|
  {
    if |t| > 1 {
      ValuePositive(t[..|t| - 1]);
    }
  }

  /**
   * Rendering the value of a digit string gives the string back when it
   * has no leading zero, and a strictly shorter string when it has one.
   */
  lemma {:induction false} RenderValue(t: string)
    requires t != [] && AllDigits(t)
    ensures |Render(Value(t))| <= |t|
    ensures t[0] != '0' ==> Render(Value(t)) == t
    ensures t[0] == '0' && |t| > 1 ==> |Render(Value(t))| < |t|
    ensures |Render(Value(t))| == |t| ==> Render(Value(t)) == t
    decreases |t|
  {
    var n := Value(t);
    var last := t[|t| - 1];
    if |t| == 1 {
      assert n == DigitValue(last) < 10;
      assert Render(n) == [DigitChar(n)];
      assert DigitChar(DigitValue(last)) == last;
      assert Render(n) == t;
    } else {
      var init := t[..|t| - 1];
      var a := Value(init);
      RenderValue(init);
      assert n == a * 10 + DigitValue(last);
      assert n / 10 == a && n % 10 == DigitValue(last);
      assert DigitChar(DigitValue(last)) == last;
      assert init[0] == t[0];
      if n >= 10 {
        assert Render(n) == Render(a) + [last];
        if t[0] != '0' {
          assert t == init + [last];
        }
      } else if t[0] != '0' {
        ValuePositive(init);
        assert false;
      }
    }
  }
}
