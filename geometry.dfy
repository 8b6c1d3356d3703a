/** The geometric helpers of the audit (components/Tools.tsx): the rectangle overlap
    test, the centre distance used by the packshot-nearest rule and the edge gap used by
    the 24-unit clearance rule. Frames are integers; distances are compared through
    their squares, with centres doubled so that no halving is needed. */
module Geometry {
  import opened Types

  /** `isOverlapping`: the negation of "r2 lies strictly left of, right of, below or
      above r1". Shared edges therefore count as overlap. */
  predicate IsOverlapping(r1: Element, r2: Element)
  {
    !(r2.x > r1.x + r1.width ||
      r2.x + r2.width < r1.x ||
      r2.y > r1.y + r1.height ||
      r2.y + r2.height < r1.y)
  }

  /** A point of the closed rectangle covered by an element's frame. */
  predicate Covers(e: Element, px: int, py: int)
  {
    e.x <= px <= e.x + e.width && e.y <= py <= e.y + e.height
  }

  lemma OverlapSymmetric(a: Element, b: Element)
    ensures IsOverlapping(a, b) == IsOverlapping(b, a)
  {
  }

  /** Independent reference: for frames of non-negative size, the overlap test holds
      exactly when the two closed rectangles share a point, so touching edges overlap. */
  lemma OverlapIffSharedPoint(a: Element, b: Element)
    requires a.width >= 0 && a.height >= 0 && b.width >= 0 && b.height >= 0
    ensures IsOverlapping(a, b) <==> exists px, py :: Covers(a, px, py) && Covers(b, px, py)
  {
    if IsOverlapping(a, b) {
      var px := if a.x < b.x then b.x else a.x;
      var py := if a.y < b.y then b.y else a.y;
      assert Covers(a, px, py) && Covers(b, px, py);
    }
  }

  function Max3(a: int, b: int, c: int): (m: int)
    ensures m >= a && m >= b && m >= c
    ensures m == a || m == b || m == c
  {
    if a >= b && a >= c then a else if b >= c then b else c
  }

  /** Horizontal clearance between the CTA and the packshot, `max(0, ...)`. */
  function GapX(cta: Element, p: Element): int
  {
    Max3(0, cta.x - (p.x + p.width), p.x - (cta.x + cta.width))
  }

  /** Vertical clearance between the CTA and the packshot. */
  function GapY(cta: Element, p: Element): int
  {
    Max3(0, cta.y - (p.y + p.height), p.y - (cta.y + cta.height))
  }

  /** The square of `Math.hypot(xGap, yGap)`. */
  function GapSq(cta: Element, p: Element): int
  {
    GapX(cta, p) * GapX(cta, p) + GapY(cta, p) * GapY(cta, p)
  }

  /** Four times the squared distance between the centres of two frames:
      `(2 * (centre difference))^2` in each axis. */
  function CentreDistSq4(e: Element, c: Element): int
  {
    var dx := (2 * e.x + e.width) - (2 * c.x + c.width);
    var dy := (2 * e.y + e.height) - (2 * c.y + c.height);
    dx * dx + dy * dy
  }

  /** The gap is zero exactly when the two frames overlap or touch. */
  lemma GapZeroIffOverlap(cta: Element, p: Element)
    ensures GapSq(cta, p) == 0 <==> IsOverlapping(cta, p)
  {
    SumOfSquaresZero(GapX(cta, p), GapY(cta, p));
  }

  lemma SumOfSquaresZero(a: int, b: int)
    requires a >= 0 && b >= 0
    ensures a * a + b * b == 0 <==> a == 0 && b == 0
  {
    assert a * a >= 0 && b * b >= 0;
    if a > 0 {
      assert a * a >= a;
    }
    if b > 0 {
      assert b * b >= b;
    }
  }

  /** The gap is the same whichever of the two frames is called the CTA. */
  lemma GapSymmetric(a: Element, b: Element)
    ensures GapSq(a, b) == GapSq(b, a)
  {
    assert GapX(a, b) == GapX(b, a);
    assert GapY(a, b) == GapY(b, a);
  }

  /** Bridge to the source's floating-point test `Math.hypot(xGap, yGap) < 24`: for any
      non-negative g whose square is `xGap^2 + yGap^2`, `g < 24` exactly when the
      integer square is below 576. */
  lemma GapBelow24(cta: Element, p: Element, g: real)
    requires g >= 0.0 && g * g == GapSq(cta, p) as real
    ensures g < 24.0 <==> GapSq(cta, p) < 576
  {
    if g < 24.0 {
      assert g * g < 24.0 * 24.0 by { SquareMonotone(g, 24.0); }
    } else if g > 24.0 {
      assert g * g > 24.0 * 24.0 by { SquareMonotone(24.0, g); }
    }
  }

  /** The centre of `e` in the source's units is `(e.x + e.width / 2, e.y + e.height / 2)`;
      the integer `CentreDistSq4` is exactly four times the square of their distance. */
  function CentreDistSqReal(e: Element, c: Element): real
  {
    var dx := (e.x as real + e.width as real / 2.0) - (c.x as real + c.width as real / 2.0);
    var dy := (e.y as real + e.height as real / 2.0) - (c.y as real + c.height as real / 2.0);
    dx * dx + dy * dy
  }

  lemma CentreDistDoubled(e: Element, c: Element)
    ensures CentreDistSq4(e, c) as real == 4.0 * CentreDistSqReal(e, c)
  {
    var dx := (e.x as real + e.width as real / 2.0) - (c.x as real + c.width as real / 2.0);
    var dy := (e.y as real + e.height as real / 2.0) - (c.y as real + c.height as real / 2.0);
    var ix := (2 * e.x + e.width) - (2 * c.x + c.width);
    var iy := (2 * e.y + e.height) - (2 * c.y + c.height);
    assert ix as real == 2.0 * dx;
    assert iy as real == 2.0 * dy;
    assert (ix * ix) as real == (ix as real) * (ix as real);
    assert (iy * iy) as real == (iy as real) * (iy as real);
  }

  /** Bridge to `Math.hypot(...) < packshotDist`: for the two non-negative Euclidean
      distances from `e` and from the packshot `p` to the CTA `c`, `e` is strictly closer
      exactly when its integer `CentreDistSq4` is smaller. */
  lemma CloserIffSmallerSquare(e: Element, p: Element, c: Element, de: real, dp: real)
    requires de >= 0.0 && de * de == CentreDistSqReal(e, c)
    requires dp >= 0.0 && dp * dp == CentreDistSqReal(p, c)
    ensures de < dp <==> CentreDistSq4(e, c) < CentreDistSq4(p, c)
  {
    CentreDistDoubled(e, c);
    CentreDistDoubled(p, c);
    if de < dp {
      SquareMonotone(de, dp);
    } else {
      if dp < de {
        SquareMonotone(dp, de);
      } else {
        assert de == dp;
      }
    }
  }

  lemma SquareMonotone(a: real, b: real)
    requires 0.0 <= a < b
    ensures a * a < b * b
  {
    var d := b - a;
    assert d > 0.0;
    assert a * d >= 0.0;
    assert d * d > 0.0;
    assert b * b == a * a + 2.0 * a * d + d * d;
  }
}
