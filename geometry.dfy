/** View rectangles in normalised texture space (the source's `union rect`). */
module Geometry {

  /** The named-field side of `union rect`: corners (x0, y0) and (x1, y1). */
  datatype Rect = Rect(x0: real, y0: real, x1: real, y1: real) {

    /** The flat `s[4]` side of the union, in field order x0, y0, x1, y1. */
    function S(): seq<real> {
      [x0, y0, x1, y1]
    }

    function Width(): real {
      x1 - x0
    }

    function Height(): real {
      y1 - y0
    }
  }

  /** Reads the named fields back out of a four-element `s` view. */
  function FromS(s: seq<real>): (r: Rect)
    requires |s| == 4
    ensures r.S() == s
  {
    Rect(s[0], s[1], s[2], s[3])
  }

  /** The whole captured image: every session starts here. */
  const Home: Rect := Rect(0.0, 0.0, 1.0, 1.0)

  /** Left edge not right of the right edge, top edge not below the bottom edge. */
  predicate Ordered(r: Rect) {
    r.x0 <= r.x1 && r.y0 <= r.y1
  }

  /** `inner` lies inside `outer` (edges included). */
  predicate Within(inner: Rect, outer: Rect) {
    outer.x0 <= inner.x0 && inner.x1 <= outer.x1 &&
    outer.y0 <= inner.y0 && inner.y1 <= outer.y1
  }

  lemma FromSRoundTrip(r: Rect)
    ensures FromS(r.S()) == r
  {
  }
}
