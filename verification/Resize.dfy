/** The dimension arithmetic of resize, irmik/imagex/imagex.go. Integers are unbounded: the products are
    assumed to fit the machine word. */
module Resize {

  /** What the two truncating steps compute. */
  function Fit(w: nat, h: nat, maxW: int, maxH: int): (int, int)
    requires w > 0 && h > 0
  {
    var (w1, h1) := if 0 < maxW < w then (maxW, h * maxW / w) else (w, h);
    if 0 < maxH < h1 then (w1 * maxH / h1, maxH) else (w1, h1)
  }

  method NewSize(w: nat, h: nat, maxW: int, maxH: int) returns (nw: int, nh: int)
    requires w > 0 && h > 0
    ensures (nw, nh) == Fit(w, h, maxW, maxH)
  {
    nw, nh := w, h;
    if maxW <= 0 && maxH <= 0 {
      return;
    }
    if maxW > 0 && nw > maxW {
      nh := nh * maxW / nw;
      nw := maxW;
    }
    if maxH > 0 && nh > maxH {
      nw := nw * maxH / nh;
      nh := maxH;
    }
  }

  // ----- Arithmetic -----

  lemma Quotient(a: nat, b: nat)
    requires b > 0
    ensures 0 <= a - a / b * b < b && 0 <= a / b
  {
  }

  lemma Cancel(x: int, y: int, c: int)
    requires c > 0 && x * c < y * c
    ensures x < y
  {
  }

  lemma Times(a: int, b: int)
    requires a >= 0 && b >= 0
    ensures a * b >= 0
  {
  }

  /** A part that is no larger than its share of the whole. */
  lemma Share(n: int, h: int, m: int, w: int)
    requires 0 <= n * w <= h * m && 0 <= m <= w && w > 0 && h >= 0
    ensures n <= h
  {
    Times(h, w - m);
    assert h * (w - m) == h * w - h * m;
    assert (h + 1) * w == h * w + w;
    Cancel(n, h + 1, w);
  }

  /** Both steps together stay within one unit of the aspect ratio. r and s are the two remainders. */
  lemma BothSteps(w: int, h: int, a: int, b: int, n: int, v: int, r: int, s: int)
    requires w > 0 && h > 0 && a > 0 && b >= 0 && n > 0 && 0 <= v <= a
    requires h * a == n * w + r && 0 <= r < w && a * b == v * n + s && 0 <= s < n
    ensures b * w - v * h < h && v * h - b * w < w
  {
    var d := v * h - b * w;
    Scaled(w, h, a, b, n, v, r, s);
    Times(w, s);
    Times(v, r);
    Times(a - v, r);
    assert (a - v) * r == a * r - v * r;
    Times(a, w - r - 1);
    assert a * (w - r - 1) == a * w - a * r - a;
    assert d * a < w * a;
    Cancel(d, w, a);
    Times(w, n - s - 1);
    assert w * (n - s - 1) == w * n - w * s - w;
    assert (0 - d) * a == w * s - v * r;
    assert (0 - d) * a < h * a;
    Cancel(0 - d, h, a);
  }

  lemma Scaled(w: int, h: int, a: int, b: int, n: int, v: int, r: int, s: int)
    requires h * a == n * w + r && a * b == v * n + s
    ensures (v * h - b * w) * a == v * r - w * s
  {
    assert (v * h) * a == v * (h * a);
    assert v * (n * w + r) == v * (n * w) + v * r;
    assert (b * w) * a == w * (a * b);
    assert w * (v * n + s) == w * (v * n) + w * s;
    assert v * (n * w) == w * (v * n);
    assert (v * h - b * w) * a == (v * h) * a - (b * w) * a;
  }

  /** The width step. */
  lemma WidthStep(w: nat, h: nat, m: nat)
    requires w > 0 && m < w
    ensures Near(w, h, m, h * m / w)
    ensures h * m / w == 0 <==> h * m < w
  {
    Quotient(h * m, w);
    Times(h * m / w, w);
    Share(h * m / w, h, m, w);
  }

  /** A size within w by h that loses less than one pixel of height. */
  predicate Near(w: int, h: int, w1: int, h1: int) {
    0 <= w1 <= w && 0 <= h1 <= h && 0 <= h * w1 - h1 * w < w
  }

  /** A size within w by h and within one unit of its aspect ratio. */
  predicate Faithful(w: int, h: int, nw: int, nh: int) {
    0 <= nw <= w && 0 <= nh <= h && nh * w - nw * h < h && nw * h - nh * w < w
  }

  lemma NearIsFaithful(w: int, h: int, w1: int, h1: int)
    requires h > 0 && Near(w, h, w1, h1)
    ensures Faithful(w, h, w1, h1)
  {
    assert h * w1 == w1 * h;
  }

  /** The height step after whatever the width step left. */
  lemma HeightStep(w: int, h: int, w1: int, h1: int, m: int)
    requires w > 0 && h > 0 && w1 > 0 && Near(w, h, w1, h1) && 0 < m < h1
    ensures Faithful(w, h, w1 * m / h1, m) && w1 * m / h1 <= w1
  {
    Times(w1, m);
    Quotient(w1 * m, h1);
    var v := w1 * m / h1;
    Times(v, h1);
    Share(v, w1, m, h1);
    BothSteps(w, h, w1, m, h1, v, h * w1 - h1 * w, w1 * m - v * h1);
  }

  /** Main result: the new size is within every positive limit, never larger than the original, the original
      itself exactly when that fits, at one of the limits otherwise, and as close to its aspect ratio as whole pixels in either direction
      allow, even when both steps truncate. */
  lemma FitKeepsAspect(w: nat, h: nat, maxW: int, maxH: int)
    requires w > 0 && h > 0
    ensures var (nw, nh) := Fit(w, h, maxW, maxH);
      && (maxW > 0 ==> nw <= maxW) && (maxH > 0 ==> nh <= maxH)
      && 0 <= nw <= w && 0 <= nh <= h
      && nh * w - nw * h < h && nw * h - nh * w < w
    ensures Fit(w, h, maxW, maxH) == (w, h) <==> (maxW <= 0 || w <= maxW) && (maxH <= 0 || h <= maxH)
    ensures var (nw, nh) := Fit(w, h, maxW, maxH); (nw, nh) != (w, h) ==> 0 < maxW == nw || 0 < maxH == nh
  {
    var w1, h1 := if 0 < maxW < w then maxW else w, if 0 < maxW < w then h * maxW / w else h;
    if 0 < maxW < w {
      WidthStep(w, h, maxW);
    } else {
      assert h * w - h * w == 0;
    }
    if 0 < maxH < h1 {
      HeightStep(w, h, w1, h1, maxH);
      assert Faithful(w, h, w1 * maxH / h1, maxH);
    } else {
      NearIsFaithful(w, h, w1, h1);
      assert Faithful(w, h, w1, h1);
    }
  }

  /** What the width step leaves. */
  function AfterWidth(w: nat, h: nat, maxW: int): (int, int)
    requires w > 0
  {
    if 0 < maxW < w then (maxW, h * maxW / w) else (w, h)
  }

  /** Too flat for the width limit: less than one row is left. */
  predicate TooFlat(w: nat, h: nat, maxW: int) { 0 < maxW < w && h * maxW < w }

  /** Too narrow for the height limit, after the width step: less than one column is left. */
  predicate TooNarrow(w: nat, h: nat, maxW: int, maxH: int)
    requires w > 0
  {
    var (w1, h1) := AfterWidth(w, h, maxW);
    0 < maxH < h1 && w1 * maxH < h1
  }

  lemma ZeroQuotient(a: nat, b: nat)
    requires b > 0
    ensures a / b == 0 <==> a < b
  {
  }

  /** Main result: the height is zero exactly when the image is too flat for the width limit, the width exactly when it
      is too narrow for the height limit; both sides are positive exactly when it is neither. */
  lemma FlatImagesVanish(w: nat, h: nat, maxW: int, maxH: int)
    requires w > 0 && h > 0
    ensures Fit(w, h, maxW, maxH).1 == 0 <==> TooFlat(w, h, maxW)
    ensures Fit(w, h, maxW, maxH).0 == 0 <==> TooNarrow(w, h, maxW, maxH)
    ensures Fit(w, h, maxW, maxH).0 > 0 && Fit(w, h, maxW, maxH).1 > 0
      <==> !TooFlat(w, h, maxW) && !TooNarrow(w, h, maxW, maxH)
  {
    FitKeepsAspect(w, h, maxW, maxH);
    if 0 < maxW < w {
      WidthStep(w, h, maxW);
    }
    var (w1, h1) := AfterWidth(w, h, maxW);
    if 0 < maxH < h1 {
      Times(w1, maxH);
      ZeroQuotient(w1 * maxH, h1);
    }
  }

  /** A flat and a narrow image that vanish. */
  lemma VanishingImages()
    ensures Fit(1000, 1, 100, 0) == (100, 0)
    ensures Fit(1, 1000, 0, 100) == (0, 100)
  {
  }
}
