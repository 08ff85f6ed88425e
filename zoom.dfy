/** The zoom block of the frame loop: an affine contraction (or expansion)
    of the target rectangle around a focal point chosen by the cursor. */
module Zoom {
  import opened Geometry
  import opened Reals

  /** Zoom fraction per wheel tick. */
  const ZoomSpeed: real := 0.03

  /** `m`: the fraction by which every edge moves toward the focal point. */
  function Fraction(dzoom: int): real {
    dzoom as real * ZoomSpeed
  }

  /** The texture coordinate that sits at pixel `p` of a viewport `extent`
      pixels wide when the span lo..hi is shown across it. */
  function Focal(lo: real, hi: real, p: int, extent: int): real
    requires extent > 0
  {
    lo + (hi - lo) * Rel(p, extent)
  }

  /** The pointer's relative position `p / extent`, as the source divides it. */
  function Rel(p: int, extent: int): real
    requires extent > 0
  {
    p as real / extent as real
  }

  /** One edge moved the fraction `m` of the way to the focal coordinate `c`. */
  function Contract(v: real, c: real, m: real): real {
    v + m * (c - v)
  }

  /** The target rectangle after applying `dzoom` ticks with the pointer at
      pixel (mx, my) of a width x height viewport. */
  function ZoomRect(r: Rect, dzoom: int, mx: int, my: int, width: int, height: int): Rect
    requires width > 0 && height > 0
  {
    var m := Fraction(dzoom);
    var cx := Focal(r.x0, r.x1, mx, width);
    var cy := Focal(r.y0, r.y1, my, height);
    Rect(Contract(r.x0, cx, m), Contract(r.y0, cy, m), Contract(r.x1, cx, m), Contract(r.y1, cy, m))
  }

  /** One axis of the zoom: the span shrinks by (1 - m) and the point at
      relative position t stays where it was. */
  lemma AxisScales(lo: real, hi: real, t: real, m: real)
    ensures var c := lo + (hi - lo) * t;
      Contract(hi, c, m) - Contract(lo, c, m) == (1.0 - m) * (hi - lo) &&
      Contract(lo, c, m) + (Contract(hi, c, m) - Contract(lo, c, m)) * t == c
  {
    var c := lo + (hi - lo) * t;
    var a, b := Contract(lo, c, m), Contract(hi, c, m);
    assert b - a == (hi - lo) - m * (hi - lo);
    assert a == lo + m * ((hi - lo) * t);
    calc {
      a + (b - a) * t;
      lo + m * ((hi - lo) * t) + ((1.0 - m) * (hi - lo)) * t;
      lo + (hi - lo) * t;
    }
  }

  /** One axis, zooming in with the pointer inside the viewport: both
      edges move inward and do not cross. */
  lemma AxisContracts(lo: real, hi: real, p: int, extent: int, m: real)
    requires extent > 0 && 0 <= p <= extent
    requires lo <= hi && 0.0 <= m <= 1.0
    ensures var c := Focal(lo, hi, p, extent);
      lo <= Contract(lo, c, m) <= Contract(hi, c, m) <= hi
  {
    var t := Rel(p, extent);
    RelInUnit(p, extent);
    var c := lo + (hi - lo) * t;
    AxisScales(lo, hi, t, m);
    var d := hi - lo;
    NonnegProduct(d, t);
    NonnegProduct(d, 1.0 - t);
    NonnegProduct(m, d * t);
    NonnegProduct(m, d * (1.0 - t));
    NonnegProduct(1.0 - m, d);
    assert Contract(lo, c, m) - lo == m * (d * t);
    assert hi - Contract(hi, c, m) == m * (d * (1.0 - t));
  }

  /** One axis, zooming out with the pointer inside the viewport: both
      edges move outward. */
  lemma AxisExpands(lo: real, hi: real, p: int, extent: int, m: real)
    requires extent > 0 && 0 <= p <= extent
    requires lo <= hi && m < 0.0
    ensures var c := Focal(lo, hi, p, extent);
      Contract(lo, c, m) <= lo <= hi <= Contract(hi, c, m)
  {
    var t := Rel(p, extent);
    RelInUnit(p, extent);
    var c := lo + (hi - lo) * t;
    var d := hi - lo;
    NonnegProduct(d, t);
    NonnegProduct(d, 1.0 - t);
    NonnegProduct(-m, d * t);
    NonnegProduct(-m, d * (1.0 - t));
    assert lo - Contract(lo, c, m) == (-m) * (d * t);
    assert Contract(hi, c, m) - hi == (-m) * (d * (1.0 - t));
  }

  /** Width and height are scaled by exactly (1 - m). */
  lemma ZoomScales(r: Rect, dzoom: int, mx: int, my: int, width: int, height: int)
    requires width > 0 && height > 0
    ensures ZoomRect(r, dzoom, mx, my, width, height).Width() == (1.0 - Fraction(dzoom)) * r.Width()
    ensures ZoomRect(r, dzoom, mx, my, width, height).Height() == (1.0 - Fraction(dzoom)) * r.Height()
  {
    AxisScales(r.x0, r.x1, Rel(mx, width), Fraction(dzoom));
    AxisScales(r.y0, r.y1, Rel(my, height), Fraction(dzoom));
  }

  /** The focal point keeps its relative position: the texel under the
      cursor before the zoom is still under it afterwards. */
  lemma ZoomKeepsFocalPoint(r: Rect, dzoom: int, mx: int, my: int, width: int, height: int)
    requires width > 0 && height > 0
    ensures var z := ZoomRect(r, dzoom, mx, my, width, height);
      Focal(z.x0, z.x1, mx, width) == Focal(r.x0, r.x1, mx, width) &&
      Focal(z.y0, z.y1, my, height) == Focal(r.y0, r.y1, my, height)
  {
    AxisScales(r.x0, r.x1, Rel(mx, width), Fraction(dzoom));
    AxisScales(r.y0, r.y1, Rel(my, height), Fraction(dzoom));
  }

  /** No ticks, no change. */
  lemma ZoomZeroIsIdentity(r: Rect, mx: int, my: int, width: int, height: int)
    requires width > 0 && height > 0
    ensures ZoomRect(r, 0, mx, my, width, height) == r
  {
  }

  /** Zooming in (0 <= m <= 1) with the pointer inside the viewport yields a
      rectangle inside the old one, and still ordered. */
  lemma ZoomInStaysWithin(r: Rect, dzoom: int, mx: int, my: int, width: int, height: int)
    requires width > 0 && height > 0
    requires Ordered(r)
    requires 0 <= mx <= width && 0 <= my <= height
    requires 0.0 <= Fraction(dzoom) <= 1.0
    ensures Within(ZoomRect(r, dzoom, mx, my, width, height), r)
    ensures Ordered(ZoomRect(r, dzoom, mx, my, width, height))
  {
    AxisContracts(r.x0, r.x1, mx, width, Fraction(dzoom));
    AxisContracts(r.y0, r.y1, my, height, Fraction(dzoom));
  }

  /** Zooming out (m < 0) with the pointer inside the viewport yields a
      rectangle that contains the old one. */
  lemma ZoomOutContains(r: Rect, dzoom: int, mx: int, my: int, width: int, height: int)
    requires width > 0 && height > 0
    requires Ordered(r)
    requires 0 <= mx <= width && 0 <= my <= height
    requires dzoom < 0
    ensures Within(r, ZoomRect(r, dzoom, mx, my, width, height))
    ensures Ordered(ZoomRect(r, dzoom, mx, my, width, height))
  {
    AxisExpands(r.x0, r.x1, mx, width, Fraction(dzoom));
    AxisExpands(r.y0, r.y1, my, height, Fraction(dzoom));
  }

  lemma RelInUnit(p: int, extent: int)
    requires extent > 0 && 0 <= p <= extent
    ensures 0.0 <= Rel(p, extent) <= 1.0
  {
  }

  /** With 34 or more ticks in one frame, m exceeds 1 and a rectangle of
      positive width comes out mirrored (negative width). */
  lemma ZoomOvershootMirrors(r: Rect, dzoom: int, mx: int, my: int, width: int, height: int)
    requires width > 0 && height > 0
    requires dzoom >= 34 && r.Width() > 0.0
    ensures ZoomRect(r, dzoom, mx, my, width, height).Width() < 0.0
  {
    ZoomScales(r, dzoom, mx, my, width, height);
    assert 1.0 - Fraction(dzoom) < 0.0;
  }

  /** One tick in and one tick out at the same pointer do not undo each
      other: the span ends at (1 - m)(1 + m) = 0.9991 of what it was. */
  lemma ZoomInThenOutShrinks(r: Rect, mx: int, my: int, width: int, height: int)
    requires width > 0 && height > 0
    ensures var z := ZoomRect(ZoomRect(r, 1, mx, my, width, height), -1, mx, my, width, height);
      z.Width() == 0.9991 * r.Width() && z.Height() == 0.9991 * r.Height()
  {
    var z1 := ZoomRect(r, 1, mx, my, width, height);
    ZoomScales(r, 1, mx, my, width, height);
    ZoomScales(z1, -1, mx, my, width, height);
  }

  /** One tick at the centre of the viewport, from the home rectangle. */
  lemma ZoomExample(mx: int, my: int, width: int, height: int)
    requires width > 0 && height > 0
    requires 2 * mx == width && 2 * my == height
    ensures ZoomRect(Home, 1, mx, my, width, height) == Rect(0.015, 0.015, 0.985, 0.985)
  {
    assert mx as real / width as real == 0.5;
    assert my as real / height as real == 0.5;
  }
}
