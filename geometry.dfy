/** The horizontal span available on one pixel row of a round display
    (circleLineBounds in CircleText.cpp).

    The source takes a float square root of the squared half-chord and rounds
    it to the nearest integer. Here the rounded square root is computed exactly
    on integers: the square root of an integer is never a half-integer, so
    rounding to nearest never meets a tie and round(cx - dx) equals
    cx - round(dx). */
module Geometry {
  import opened Optional

  /** d is sqrt(n) rounded to the nearest integer: (d - 1/2)^2 < n < (d + 1/2)^2. */
  ghost predicate IsRoundedSqrt(n: int, d: int)
  {
    0 <= d && d * d - d < n <= d * d + d
  }

  /** The square of x, written as a sum of odd numbers so that what unfolds
      from it stays linear arithmetic; SquareIsProduct gives Square(x) == x * x. */
  function Square(x: int): nat
    decreases if x < 0 then 1 - x else x
  {
    if x < 0 then Square(-x)
    else if x == 0 then 0
    else Square(x - 1) + 2 * x - 1
  }

  lemma {:induction false} SquareIsProduct(x: int)
    ensures Square(x) == x * x
    decreases if x < 0 then 1 - x else x
  {
    if x < 0 {
      SquareIsProduct(-x);
    } else if x > 0 {
      SquareIsProduct(x - 1);
    }
  }

  /** Integer square root, by halving. */
  function ISqrt(n: nat): nat
    decreases n
  {
    if n < 4 then (if n == 0 then 0 else 1)
    else
      var s := 2 * ISqrt(n / 4);
      if Square(s + 1) <= n then s + 1 else s
  }

  /** Doubling a number quadruples its square. */
  lemma DoubleSquares(t: int)
    ensures (2 * t) * (2 * t) == 4 * (t * t)
    ensures (2 * t + 2) * (2 * t + 2) == 4 * ((t + 1) * (t + 1))
  {
  }

  /** ISqrt(n) is the k with k*k <= n < (k+1)*(k+1). */
  lemma {:induction false} ISqrtBounds(n: nat)
    ensures ISqrt(n) * ISqrt(n) <= n < (ISqrt(n) + 1) * (ISqrt(n) + 1)
    decreases n
  {
    if n >= 4 {
      var q := n / 4;
      assert 4 * q <= n < 4 * q + 4;
      var t := ISqrt(q);
      ISqrtBounds(q);
      DoubleSquares(t);
      SquareIsProduct(2 * t + 1);
      if Square(2 * t + 1) <= n {
        assert ISqrt(n) == 2 * t + 1;
      } else {
        assert ISqrt(n) == 2 * t;
      }
    }
  }

  /** The nearest integer to the square root of n. */
  function RoundSqrt(n: nat): nat
  {
    var k := ISqrt(n);
    if n > Square(k) + k then k + 1 else k
  }

  /** RoundSqrt(n) is the rounded square root of a positive n. */
  lemma RoundSqrtCorrect(n: nat)
    requires n > 0
    ensures IsRoundedSqrt(n, RoundSqrt(n))
  {
    ISqrtBounds(n);
    SquareIsProduct(ISqrt(n));
  }

  /** x*x - x grows with x: d*d + d <= e*e - e whenever d < e. */
  lemma {:induction false} SquareGapGrows(d: nat, e: nat)
    requires d < e
    ensures d * d + d <= e * e - e
    decreases e - d
  {
    if e == d + 1 {
      assert e * e == d * d + 2 * d + 1;
    } else {
      SquareGapGrows(d, e - 1);
      assert (e - 1) * (e - 1) == e * e - 2 * e + 1;
    }
  }

  /** A positive integer has exactly one rounded square root. */
  lemma RoundedSqrtUnique(n: int, d: int, e: int)
    requires IsRoundedSqrt(n, d) && IsRoundedSqrt(n, e)
    ensures d == e
  {
    if d < e {
      SquareGapGrows(d, e);
    } else if e < d {
      SquareGapGrows(e, d);
    }
  }

  /** The usable horizontal extent of one row: pixels xLeft .. xRight. */
  datatype Span = Span(xLeft: int, xRight: int)
  {
    function Width(): int { xRight - xLeft }
  }

  /** Row y of the circle with centre (cx, cy) and radius r, inset by margin on
      both sides. Absent when the row is on or outside the circle, or when the
      margins leave no pixel between them. */
  function RowBounds(cx: int, cy: int, r: int, y: int, margin: int): (b: Option<Span>)
    ensures b.Some? ==> b.value.xLeft < b.value.xRight
    ensures b.Some? ==> b.value.xLeft + b.value.xRight == 2 * cx
  {
    var dy := y - cy;
    var rr := Square(r);
    var ddy := Square(dy);
    if ddy >= rr then None
    else
      var dx := RoundSqrt(rr - ddy);
      var xl := (cx - dx) + margin;
      var xr := (cx + dx) - margin;
      if xr <= xl then None else Some(Span(xl, xr))
  }

  /** A row has a span exactly when it lies strictly inside the circle and the
      rounded half-chord exceeds the margin; the span then reaches the rounded
      half-chord less the margin to each side of the centre. */
  lemma RowBoundsChord(cx: int, cy: int, r: int, y: int, margin: int)
    ensures var b := RowBounds(cx, cy, r, y, margin);
      && (b.Some? <==> (y - cy) * (y - cy) < r * r && margin < RoundSqrt(r * r - (y - cy) * (y - cy)))
      && (b.Some? ==> IsRoundedSqrt(r * r - (y - cy) * (y - cy), cx - b.value.xLeft + margin))
  {
    SquareIsProduct(r);
    SquareIsProduct(y - cy);
    if (y - cy) * (y - cy) < r * r {
      RoundSqrtCorrect(r * r - (y - cy) * (y - cy));
    }
  }

  /** The rows of the worked example on the 240x240 display (centre 120, radius
      118, margin 8): row 6 spans [98, 142], row 16 spans [72, 168] and row 24
      spans [59, 181]. */
  lemma StatusBandRows()
    ensures RowBounds(120, 120, 118, 6, 8) == Some(Span(98, 142))
    ensures RowBounds(120, 120, 118, 16, 8) == Some(Span(72, 168))
    ensures RowBounds(120, 120, 118, 24, 8) == Some(Span(59, 181))
  {
    SquareIsProduct(118);
    SquareIsProduct(-114);
    SquareIsProduct(-104);
    SquareIsProduct(-96);
    RoundSqrtCorrect(928);
    RoundedSqrtUnique(928, RoundSqrt(928), 30);
    RoundSqrtCorrect(3108);
    RoundedSqrtUnique(3108, RoundSqrt(3108), 56);
    RoundSqrtCorrect(4708);
    RoundedSqrtUnique(4708, RoundSqrt(4708), 69);
  }
}
