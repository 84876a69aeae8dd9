/** The aperture-windowing rule shared by aperture extraction and pixel collection:
    which rows of one detector column lie inside the aperture around a trace position.
    Python's `round` on a float is modelled exactly (nearest integer, ties to even). */
module Windowing {

  /** `n` is the rounding of `x` by Python's `round` on a float: the nearest integer,
      a tie going to the even neighbour. */
  predicate RoundsTo(x: real, n: int)
  {
    && n as real - 0.5 <= x <= n as real + 0.5
    && ((x == n as real - 0.5 || x == n as real + 0.5) ==> n % 2 == 0)
  }

  /** Every real rounds to some integer. */
  lemma RoundingExists(x: real)
    ensures exists n :: RoundsTo(x, n)
  {
    var f := x.Floor;
    var frac := x - f as real;
    if frac < 0.5 {
      assert RoundsTo(x, f);
    } else if frac > 0.5 {
      assert RoundsTo(x, f + 1);
    } else if f % 2 == 0 {
      assert RoundsTo(x, f);
    } else {
      assert RoundsTo(x, f + 1);
    }
  }

  /** No real rounds to two integers: the nearest integer is unique, and of two
      equally near ones exactly one is even. */
  lemma RoundingUnique(x: real, n: int, m: int)
    requires RoundsTo(x, n) && RoundsTo(x, m)
    ensures n == m
  {
  }

  /** Python's `round` on a float (round half to even). */
  function Round(x: real): (n: int)
    ensures RoundsTo(x, n)
  {
    RoundingExists(x);
    assert forall n, m :: RoundsTo(x, n) && RoundsTo(x, m) ==> n == m by {
      forall n, m | RoundsTo(x, n) && RoundsTo(x, m) ensures n == m {
        RoundingUnique(x, n, m);
      }
    }
    var n :| RoundsTo(x, n);
    n
  }

  /** Rounding never reverses the order of two reals. */
  lemma RoundMonotone(x: real, y: real)
    requires x <= y
    ensures Round(x) <= Round(y)
  {
  }

  /** A trace position that lies on a frame of `nrows` rows; any other skips the column. */
  predicate OnFrame(p: real, nrows: int)
  {
    0.0 <= p < nrows as real
  }

  /** The rows of one column that an aperture covers: the half-open range `[lo, hi)`,
      or nothing at all when the trace position is off the frame. */
  datatype Window = Skipped | Rows(lo: int, hi: int)

  /** The number of rows a window covers; a skipped column covers none. */
  function Width(w: Window): int
  {
    if w.Skipped? then 0 else w.hi - w.lo
  }

  /** The shared windowing rule: `i0 = round(p - apRad)`, `i1 = round(p + apRad)`,
      `i0` raised to 0, and `i1` lowered to `nrows - 1` once it reaches `nrows`.
      The clamp keeps the last row `nrows - 1` out of every window; with a radius of
      at least half a pixel the window is a well-formed, possibly empty, range. */
  function TraceWindow(p: real, apRad: real, nrows: int): (w: Window)
    ensures w.Skipped? <==> !OnFrame(p, nrows)
    ensures w.Rows? ==> 0 <= w.lo && w.hi <= nrows - 1
    ensures w.Rows? ==> Round(p - apRad) <= w.lo && w.hi <= Round(p + apRad)
    ensures w.Rows? && apRad >= 0.5 ==> w.lo <= w.hi
  {
    if p < 0.0 || p >= nrows as real then Skipped
    else
      var i0 := Round(p - apRad);
      var i1 := Round(p + apRad);
      var i0 := if i0 < 0 then 0 else i0;
      var i1 := if i1 >= nrows then nrows - 1 else i1;
      Rows(i0, i1)
  }

  /** With a non-negative radius an on-frame window lies inside the column: its start is
      at most `nrows` (rounding `p < nrows` cannot pass `nrows`) and its end at most
      `nrows - 1`, so both bounds are ordinary, non-negative slice indices. */
  lemma WindowInFrame(p: real, apRad: real, nrows: int)
    requires OnFrame(p, nrows) && apRad >= 0.0
    ensures var w := TraceWindow(p, apRad, nrows);
      w.Rows? && 0 <= w.lo <= nrows && 0 <= w.hi <= nrows - 1
  {
    RoundMonotone(p - apRad, p);
    RoundMonotone(p, p + apRad);
    RoundMonotone(0.0, p);
    assert RoundsTo(0.0, 0);
    RoundingUnique(0.0, Round(0.0), 0);
  }

  /** A wider aperture around the same trace position covers every row a narrower one
      covers: the windows nest. */
  lemma WindowsNest(p: real, r1: real, r2: real, nrows: int)
    requires OnFrame(p, nrows) && 0.0 <= r1 <= r2
    ensures var w1, w2 := TraceWindow(p, r1, nrows), TraceWindow(p, r2, nrows);
      w2.lo <= w1.lo && w1.hi <= w2.hi
  {
    RoundMonotone(p - r2, p - r1);
    RoundMonotone(p + r1, p + r2);
  }

  /** The offset `r - p` of every row `r` of a window from the trace lies in
      `[-apRad - 1/2, apRad - 1/2]`: rounding can reach half a pixel past the lower
      edge of the aperture, and the half-open upper bound stays half a pixel inside. */
  lemma WindowRowsNearTrace(p: real, apRad: real, nrows: int, r: int)
    requires TraceWindow(p, apRad, nrows).Rows?
    requires TraceWindow(p, apRad, nrows).lo <= r < TraceWindow(p, apRad, nrows).hi
    ensures -apRad - 0.5 <= r as real - p <= apRad - 0.5
  {
  }

  /** Clamping only narrows a window: its width is at most the unclamped width
      `round(p + apRad) - round(p - apRad)`, with equality exactly when neither bound
      was clamped; the unclamped width is within one pixel of the nominal `2 * apRad`. */
  lemma WindowWidth(p: real, apRad: real, nrows: int)
    requires OnFrame(p, nrows) && apRad >= 0.5
    ensures var w := TraceWindow(p, apRad, nrows);
      var full := Round(p + apRad) - Round(p - apRad);
      && w.hi - w.lo <= full
      && (w.hi - w.lo == full <==> 0 <= Round(p - apRad) && Round(p + apRad) <= nrows - 1)
      && 2.0 * apRad - 1.0 <= full as real <= 2.0 * apRad + 1.0
  {
  }
}
