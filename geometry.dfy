/**
 * Window geometry values and the geometry parser `parse`
 * (src/js/winbox.js:209-235), which turns a configured dimension or position
 * into pixels.
 */
module Geometry {
  import opened Wrappers
  import opened Decimal

  /** A rectangle as the source stores or renders it: position and size in pixels. */
  datatype Rect = Rect(x: real, y: real, w: real, h: real)

  /** The fixed margins a window reserves from the viewport. */
  datatype Insets = Insets(top: real, left: real, bottom: real, right: real)

  /** A viewport (root_w, root_h) together with a window's insets. */
  datatype Bounds = Bounds(rootW: real, rootH: real, top: real, left: real, bottom: real, right: real)

  /**
   * A configured dimension or position, as the forms `parse` tells apart:
   * the string "center", a numeric string whose unit is "%", any other
   * numeric string (its numeric prefix), and a plain number.
   */
  datatype Dim = Center | Percent(p: real) | NumStr(v: real) | Num(v: real)

  /** Sizes and insets are never "center" (that would make `parse` yield NaN). */
  type Size = d: Dim | !d.Center? witness Num(0.0)

  /** JavaScript truthiness of the value: only the number 0 is falsy (strings here are never empty). */
  predicate Truthy(d: Dim) {
    !(d.Num? && d.v == 0.0)
  }

  function Min(a: real, b: real): real { if a <= b then a else b }
  function Max(a: real, b: real): real { if a >= b then a else b }

  /** `parse(num, base, center)`: pixels for `d` within a span of `base`, centring a length `own`. */
  function Parse(d: Dim, base: real, own: real): (r: real)
    ensures d.Center? ==> r + own + r == base
    ensures d.Percent? ==> r * 100.0 == base * d.p
    ensures d.NumStr? || d.Num? ==> r == d.v
  {
    match d
    case Center => (base - own) / 2.0
    case Percent(p) => base / 100.0 * p
    case NumStr(v) => v
    case Num(v) => v
  }

  /** JavaScript `s.substring(i)` for a non-negative start: past the end it is empty. */
  function Substring(s: string, i: nat): string {
    if i <= |s| then s[i..] else ""
  }

  /**
   * The string branch of `parse`, classifying a string into a `Dim`:
   * "center" is recognised first; otherwise the numeric prefix is read
   * (`parseFloat`, here natural numbers only) and the unit is what follows
   * the number's own rendering (`num.substring(("" + value).length)`).
   * `None` is the NaN that `parseFloat` gives a string with no numeric prefix.
   */
  function ToDim(s: string): (r: Option<Dim>)
    ensures r == Some(Center) <==> s == "center"
    ensures r.Some? ==> !r.value.Num?
    ensures r.Some? && !r.value.Center? ==> s != [] && IsDigit(s[0])
    ensures r.Some? && r.value.Percent? ==> |s| >= 2 && s[|s| - 1] == '%'
  {
    if s == "center" then Some(Center)
    else
      var k := DigitRun(s);
      if k == 0 then None
      else
        var v := Value(s[..k]);
        var shown := Render(v);
        if shown != s && Substring(s, |shown|) == "%" then Some(Percent(v as real))
        else Some(NumStr(v as real))
  }

  /**
   * A number followed by "%" is a percentage of the span; followed by any
   * other unit that cannot continue a JavaScript number (not a digit, `.`,
   * `e` or `E`) it is its numeric prefix.
   */
  lemma ToDimNumber(n: nat, unit: string)
    requires unit == [] || !(IsDigit(unit[0]) || unit[0] in ".eE")
    ensures ToDim(Render(n) + unit) == Some(if unit == "%" then Percent(n as real) else NumStr(n as real))
  {
    var s := Render(n) + unit;
    DigitRunOfRender(n, unit);
    ValueRender(n);
    assert s != "center" by { assert IsDigit(s[0]); }
    assert Substring(s, |Render(n)|) == unit;
  }

  /**
   * Every string with a numeric prefix reads as the value of that prefix,
   * leading zeros included; it is a percentage exactly when it is that
   * value's own rendering followed by "%" alone.
   */
  lemma ToDimValue(s: string)
    requires s != "center" && DigitRun(s) > 0
    ensures var n := Value(s[..DigitRun(s)]);
      ToDim(s) == if s == Render(n) + "%" then Some(Percent(n as real)) else Some(NumStr(n as real))
  {
    var k := DigitRun(s);
    var t := s[..k];
    var r := Render(Value(t));
    RenderValue(t);
    if r != s && Substring(s, |r|) == "%" {
      // The '%' right after the rendering ends the digit run there, so the
      // run is exactly as long as its rendering, hence equal to it.
      assert |s| == |r| + 1 && s[|r|] == '%';
      assert !IsDigit(s[|r|]);
      assert k <= |r|;
      assert s == t + "%";
    }
  }

  /** A string that is neither "center" nor starts with a digit has no numeric value (NaN), and conversely. */
  lemma ToDimNaN(s: string)
    ensures ToDim(s) == None <==> s != "center" && (s == [] || !IsDigit(s[0]))
  {
    if s != [] && IsDigit(s[0]) {
      assert DigitRun(s) > 0;
    }
  }

  /** What `parse` gives for each string form, in terms of the span. */
  lemma {:induction false} ParseStrings(n: nat, base: real, own: real)
    ensures Parse(ToDim("center").value, base, own) == (base - own) / 2.0
    ensures Parse(ToDim(Render(n) + "%").value, base, own) == base / 100.0 * n as real
    ensures Parse(ToDim(Render(n) + "px").value, base, own) == n as real
    ensures Parse(ToDim(Render(n)).value, base, own) == n as real
  {
    ToDimNumber(n, "%");
    assert ToDim(Render(n) + "%").value == Percent(n as real);
    ToDimNumber(n, "px");
    assert ToDim(Render(n) + "px").value == NumStr(n as real);
    ToDimNumber(n, "");
    assert Render(n) + "" == Render(n);
    assert ToDim(Render(n)).value == NumStr(n as real);
  }

  /** A leading zero hides the unit: "050%" renders its value as "50", so the unit read is "0%" and the result is 50 pixels. */
  lemma LeadingZeroHidesPercent()
    ensures ToDim("050%") == Some(NumStr(50.0))
  {
    var s := "050%";
    assert DigitRun(s) == 3 by {
      assert DigitRun(s[3..]) == 0;
    }
    assert s[..3] == "050";
    assert Value("050") == 50 by {
      assert "050"[..2] == "05";
      assert "05"[..1] == "0";
      assert "0"[..0] == "";
    }
    assert Render(50) == "50";
  }

  /** The worked examples: "50%" of 200 is 100, "center" of a 40-wide window in 200 is 80, the number 30 is 30. */
  lemma ParseExamples()
    ensures Parse(ToDim("50%").value, 200.0, 0.0) == 100.0
    ensures Parse(Center, 200.0, 40.0) == 80.0
    ensures Parse(Num(30.0), 200.0, 0.0) == 30.0
  {
    assert Render(50) == "50";
    assert "50%" == Render(50) + "%";
    ToDimNumber(50, "%");
  }
}
