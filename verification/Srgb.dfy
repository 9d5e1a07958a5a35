/**
 The WCAG 2.2 colour arithmetic under `branding-theme.ts`: relative luminance and contrast.

 The exponent 2.4 in the channel curve is 12/5, so `y == x ** 2.4` is stated over the reals as the
 non-negative `y` with `y^5 == x^12`. A curve is the table of the 256 values a channel can take.
 Everything about contrast needs only the five facts of `IsCurve`; `SrgbIsCurve` proves them of the
 curve the code evaluates.
 */
module Srgb {
  import opened Common

  type Byte = v: int | 0 <= v < 256

  datatype Rgb = Rgb(r: Byte, g: Byte, b: Byte)

  const WHITE: Rgb := Rgb(255, 255, 255)
  const BLACK: Rgb := Rgb(0, 0, 0)

  // --- The curve -------------------------------------------------------------------------------

  function Pow(x: real, n: nat): real {
    if n == 0 then 1.0 else x * Pow(x, n - 1)
  }

  /** `y` is what `channelLuminance(v)` evaluates to. */
  ghost predicate IsChannelLuminance(v: Byte, y: real) {
    var channel := v as real / 255.0;
    if channel <= 0.04045 then y == channel / 12.92
    else y >= 0.0 && Pow(y, 5) == Pow((channel + 0.055) / 1.055, 12)
  }

  ghost predicate IsSrgb(f: seq<real>) {
    |f| == 256 && forall v: Byte :: IsChannelLuminance(v, f[v])
  }

  /** Named so that the ordering of the curve is used only where it is asked for. */
  ghost predicate Rises(f: seq<real>, v: int, w: int)
    requires |f| == 256 && 0 <= v < w < 256
  {
    f[v] < f[w]
  }

  ghost predicate IsCurve(f: seq<real>) {
    && |f| == 256
    && f[0] == 0.0
    && f[255] == 1.0
    && (forall v, w :: 0 <= v < w < 256 ==> Rises(f, v, w))
    && f[246] > 0.6
    && f[23] < 0.2
  }

  /** The identity curve: `IsCurve` is a real constraint that something meets. */
  ghost function LinearCurve(): (f: seq<real>)
    ensures IsCurve(f)
  {
    var f := seq(256, (i: int) => i as real / 255.0);
    assert forall v, w :: 0 <= v < w < 256 ==> f[v] < f[w];
    f
  }

  type Curve = f: seq<real> | IsCurve(f) ghost witness LinearCurve()

  lemma {:induction false} PowPositive(x: real, n: nat)
    requires x > 0.0
    ensures Pow(x, n) > 0.0
  {
    if n > 0 {
      PowPositive(x, n - 1);
    }
  }

  lemma {:induction false} PowMonotone(x: real, y: real, n: nat)
    requires 0.0 <= x < y
    ensures n > 0 ==> Pow(x, n) < Pow(y, n)
  {
    if n == 1 {
      assert Pow(x, 1) == x * Pow(x, 0) && Pow(y, 1) == y * Pow(y, 0);
    } else if n > 1 {
      PowMonotone(x, y, n - 1);
      PowPositive(y, n - 1);
      ProductMonotone(x, y, Pow(x, n - 1), Pow(y, n - 1));
    }
  }

  lemma ProductMonotone(x: real, y: real, p: real, q: real)
    requires 0.0 <= x < y && p < q && 0.0 < q
    ensures x * p < y * q
  {
    assert x * p <= x * q;
    assert x * q < y * q;
  }

  /** The non-negative root is unique and grows with what it is a root of. */
  lemma RootMonotone(x: real, y: real)
    requires 0.0 <= x && 0.0 <= y
    requires Pow(x, 5) < Pow(y, 5)
    ensures x < y
  {
    if y < x {
      PowMonotone(y, x, 5);
    }
  }

  /** The defining equations leave no choice: there is at most one sRGB curve. */
  lemma SrgbUnique(f: seq<real>, g: seq<real>)
    requires IsSrgb(f) && IsSrgb(g)
    ensures f == g
  {
    forall v: Byte
      ensures f[v] == g[v]
    {
      assert IsChannelLuminance(v, f[v]) && IsChannelLuminance(v, g[v]);
      if v as real / 255.0 > 0.04045 {
        if f[v] < g[v] {
          PowMonotone(f[v], g[v], 5);
        } else if g[v] < f[v] {
          PowMonotone(g[v], f[v], 5);
        }
      }
    }
  }

  /** In the power segment a bound on `y` is a rational inequality between powers. */
  lemma ChannelAbove(v: Byte, y: real, x: real, bound: real)
    requires IsChannelLuminance(v, y)
    requires v > 10
    requires 0.0 < x < (v as real / 255.0 + 0.055) / 1.055 && bound >= 0.0
    requires Pow(bound, 5) <= Pow(x, 12)
    ensures y > bound
  {
    PowMonotone(x, (v as real / 255.0 + 0.055) / 1.055, 12);
    RootMonotone(bound, y);
  }

  lemma ChannelBelow(v: Byte, y: real, x: real, bound: real)
    requires IsChannelLuminance(v, y)
    requires v > 10
    requires (v as real / 255.0 + 0.055) / 1.055 < x && bound >= 0.0
    requires Pow(x, 12) <= Pow(bound, 5)
    ensures y < bound
  {
    PowMonotone((v as real / 255.0 + 0.055) / 1.055, x, 12);
    RootMonotone(y, bound);
  }

  lemma ChannelMonotone(v: Byte, w: Byte, y: real, z: real)
    requires v < w
    requires IsChannelLuminance(v, y) && IsChannelLuminance(w, z)
    ensures y < z
  {
    if v > 10 {
      PowMonotone((v as real / 255.0 + 0.055) / 1.055, (w as real / 255.0 + 0.055) / 1.055, 12);
      RootMonotone(y, z);
    } else if w > 10 {
      assert Pow(0.0031, 5) <= Pow(0.093, 12);
      ChannelAbove(w, z, 0.093, 0.0031);
      assert y < 0.0031;
    }
  }

  /** The curve the code evaluates has the five facts the rest of the project uses. */
  lemma SrgbIsCurve(f: seq<real>)
    requires IsSrgb(f)
    ensures IsCurve(f)
  {
    forall v, w | 0 <= v < w < 256
      ensures Rises(f, v, w)
    {
      ChannelMonotone(v, w, f[v], f[w]);
    }
    assert IsChannelLuminance(0, f[0]);
    assert IsChannelLuminance(255, f[255]);
    assert Pow(1.0, 12) == 1.0 && Pow(1.0, 5) == 1.0;
    if f[255] < 1.0 {
      PowMonotone(f[255], 1.0, 5);
    } else if f[255] > 1.0 {
      PowMonotone(1.0, f[255], 5);
    }
    assert Pow(0.6, 5) <= Pow(0.9, 12);
    ChannelAbove(246, f[246], 0.9, 0.6);
    assert Pow(0.2, 12) <= Pow(0.2, 5);
    ChannelBelow(23, f[23], 0.2, 0.2);
  }

  // --- Luminance and contrast ------------------------------------------------------------------

  function Luminance(f: Curve, c: Rgb): real {
    0.2126 * f[c.r] + 0.7152 * f[c.g] + 0.0722 * f[c.b]
  }

  lemma LuminanceRange(f: Curve, c: Rgb)
    ensures 0.0 <= Luminance(f, c) <= 1.0
    ensures Luminance(f, BLACK) == 0.0 && Luminance(f, WHITE) == 1.0
  {
    ChannelRange(f, c.r);
    ChannelRange(f, c.g);
    ChannelRange(f, c.b);
  }

  lemma ChannelRange(f: Curve, v: Byte)
    ensures 0.0 <= f[v] <= 1.0
  {
    assert v == 0 || Rises(f, 0, v);
    assert v == 255 || Rises(f, v, 255);
  }

  function ContrastRatio(f: Curve, left: Rgb, right: Rgb): real {
    LuminanceRange(f, left);
    LuminanceRange(f, right);
    ContrastOf(Luminance(f, left), Luminance(f, right))
  }

  function ContrastOf(a: real, b: real): real
    requires 0.0 <= a && 0.0 <= b
  {
    (MaxReal(a, b) + 0.05) / (MinReal(a, b) + 0.05)
  }

  /** A contrast clears a threshold exactly when the lighter side reaches that multiple of the darker. */
  lemma ContrastClears(a: real, b: real, threshold: real)
    requires 0.0 <= a && 0.0 <= b
    ensures ContrastOf(a, b) >= threshold <==> MaxReal(a, b) + 0.05 >= threshold * (MinReal(a, b) + 0.05)
  {
    QuotientClears(MaxReal(a, b) + 0.05, MinReal(a, b) + 0.05, threshold);
  }

  lemma QuotientClears(n: real, d: real, t: real)
    requires d > 0.0
    ensures n / d >= t <==> n >= t * d
  {
    var q := n / d;
    assert q * d == n;
    if q >= t {
      assert q * d >= t * d;
    } else {
      assert q * d < t * d;
    }
  }

  /** WCAG 2.2 contrast is symmetric, at least 1, and 1 exactly for equal luminance. */
  lemma ContrastLaws(f: Curve, left: Rgb, right: Rgb)
    ensures ContrastRatio(f, left, right) == ContrastRatio(f, right, left)
    ensures ContrastRatio(f, left, right) >= 1.0
    ensures ContrastRatio(f, left, right) == 1.0 <==> Luminance(f, left) == Luminance(f, right)
  {
    LuminanceRange(f, left);
    LuminanceRange(f, right);
    ContrastOfLaws(Luminance(f, left), Luminance(f, right));
  }

  lemma ContrastOfLaws(a: real, b: real)
    requires 0.0 <= a && 0.0 <= b
    ensures ContrastOf(a, b) == ContrastOf(b, a)
    ensures ContrastOf(a, b) >= 1.0
    ensures ContrastOf(a, b) == 1.0 <==> a == b
  {
    QuotientLaws(MaxReal(a, b) + 0.05, MinReal(a, b) + 0.05);
  }

  lemma QuotientLaws(n: real, d: real)
    requires n >= d > 0.0
    ensures n / d >= 1.0
    ensures n / d == 1.0 <==> n == d
  {
    QuotientClears(n, d, 1.0);
    var q := n / d;
    assert q * d == n;
  }

  /** For every colour, contrast to white times contrast to black is 21. */
  lemma WhiteTimesBlack(f: Curve, c: Rgb)
    ensures ContrastRatio(f, WHITE, c) * ContrastRatio(f, BLACK, c) == 21.0
  {
    LuminanceRange(f, c);
    LuminanceRange(f, WHITE);
    LuminanceRange(f, BLACK);
    var d := Luminance(f, c) + 0.05;
    assert ContrastRatio(f, WHITE, c) == 1.05 / d;
    assert ContrastRatio(f, BLACK, c) == d / 0.05;
    QuotientProduct(1.05, d, 0.05);
  }

  lemma QuotientProduct(n: real, d: real, e: real)
    requires d > 0.0 && e > 0.0
    ensures (n / d) * (d / e) == n / e
  {
    var p, q := n / d, d / e;
    assert p * d == n && q * e == d;
    assert p * q * e == p * (q * e) == n;
  }

  /** So one of the two pure extremes always clears 4.5, whatever the colour. */
  lemma PureExtremeClears(f: Curve, c: Rgb)
    ensures ContrastRatio(f, WHITE, c) >= 4.5 || ContrastRatio(f, BLACK, c) >= 4.5
  {
    WhiteTimesBlack(f, c);
    ContrastLaws(f, WHITE, c);
    ContrastLaws(f, BLACK, c);
    var p, q := ContrastRatio(f, WHITE, c), ContrastRatio(f, BLACK, c);
    if p < 4.5 && q < 4.5 {
      assert p * q <= 4.5 * q;
    }
  }

  /** Each channel of `c` lies between the same channel of `a` and of `b`. */
  predicate Between(a: Rgb, c: Rgb, b: Rgb) {
    && (a.r <= c.r <= b.r || b.r <= c.r <= a.r)
    && (a.g <= c.g <= b.g || b.g <= c.g <= a.g)
    && (a.b <= c.b <= b.b || b.b <= c.b <= a.b)
  }

  lemma CurveMonotone(f: Curve, v: Byte, w: Byte)
    requires v <= w
    ensures f[v] <= f[w]
  {
    assert v == w || Rises(f, v, w);
  }

  /**
   The crossing argument. As a colour moves from `start` toward a pure extreme, its contrast against a
   fixed background may dip where the two luminances cross, but never exceeds the larger of the two
   ends: a threshold neither end clears is cleared nowhere between them.
   */
  lemma NoPeakBetween(f: Curve, start: Rgb, stepped: Rgb, extreme: Rgb, background: Rgb, threshold: real)
    requires extreme == BLACK || extreme == WHITE
    requires Between(start, stepped, extreme)
    requires ContrastRatio(f, start, background) < threshold
    requires ContrastRatio(f, extreme, background) < threshold
    ensures ContrastRatio(f, stepped, background) < threshold
  {
    LuminanceRange(f, start);
    LuminanceRange(f, stepped);
    LuminanceRange(f, background);
    LuminanceRange(f, extreme);
    var s, m, e, g := Luminance(f, start), Luminance(f, stepped), Luminance(f, extreme), Luminance(f, background);
    assert s <= m <= e || e <= m <= s by {
      if extreme == WHITE {
        CurveMonotone(f, start.r, stepped.r);
        CurveMonotone(f, start.g, stepped.g);
        CurveMonotone(f, start.b, stepped.b);
      } else {
        CurveMonotone(f, stepped.r, start.r);
        CurveMonotone(f, stepped.g, start.g);
        CurveMonotone(f, stepped.b, start.b);
      }
    }
    NoPeak(s, m, e, g, threshold);
  }

  lemma NoPeak(s: real, m: real, e: real, g: real, threshold: real)
    requires 0.0 <= s && 0.0 <= m && 0.0 <= e && 0.0 <= g
    requires s <= m <= e || e <= m <= s
    requires ContrastOf(s, g) < threshold && ContrastOf(e, g) < threshold
    ensures ContrastOf(m, g) < threshold
  {
    if m >= g {
      ContrastGrows(g, m, MaxReal(s, e));
    } else {
      ContrastShrinks(g, MinReal(s, e), m);
    }
  }

  /** Above the background, lighter is more contrast. */
  lemma ContrastGrows(g: real, m: real, hi: real)
    requires 0.0 <= g <= m <= hi
    ensures ContrastOf(m, g) <= ContrastOf(hi, g)
  {
    QuotientClears(hi + 0.05, g + 0.05, ContrastOf(m, g));
  }

  /** Below it, darker is. */
  lemma ContrastShrinks(g: real, lo: real, m: real)
    requires 0.0 <= lo <= m <= g
    ensures ContrastOf(m, g) <= ContrastOf(lo, g)
  {
    var q := ContrastOf(m, g);
    QuotientLaws(g + 0.05, m + 0.05);
    assert q * (m + 0.05) == g + 0.05;
    assert q * (lo + 0.05) <= q * (m + 0.05);
    QuotientClears(g + 0.05, lo + 0.05, q);
  }
}
