/** Simple aperture extraction (`aperture_extract`): one frame and its variance map are
    reduced, column by column, to a spectrum and its variance by summing (box mode) or
    averaging and rescaling (uniform mode) the pixels inside the trace window. */
module BoxExtraction {
  import opened Windowing

  /** `np.sum(img[lo:hi, col])`: an empty or reversed row range sums to 0. */
  function ColumnSum(img: array2<real>, col: int, lo: int, hi: int): real
    reads img
    requires 0 <= col < img.Length1 && 0 <= lo && hi <= img.Length0
    decreases hi - lo
  {
    if hi <= lo then 0.0 else ColumnSum(img, col, lo, hi - 1) + img[hi - 1, col]
  }

  /** The row numpy starts or stops a slice at for the bound `x` on a column of `n` rows:
      a negative bound counts back from the end, and the result is clamped to `[0, n]`,
      so it is always a row boundary of the column. */
  function SliceBound(x: int, n: int): (k: int)
    requires n >= 0
    ensures 0 <= k <= n
    ensures 0 <= x <= n ==> k == x
    ensures -n <= x < 0 ==> k == n + x
  {
    if x < 0 then (if x + n < 0 then 0 else x + n)
    else if x > n then n
    else x
  }

  /** A window sum splits at any row in between. */
  lemma {:induction false} ColumnSumSplit(img: array2<real>, col: int, lo: int, mid: int, hi: int)
    requires 0 <= col < img.Length1 && 0 <= lo <= mid <= hi <= img.Length0
    ensures ColumnSum(img, col, lo, hi) == ColumnSum(img, col, lo, mid) + ColumnSum(img, col, mid, hi)
    decreases hi - mid
  {
    if mid < hi {
      ColumnSumSplit(img, col, lo, mid, hi - 1);
    }
  }

  /** Over a window where the column is constant, the sum is that value times the width. */
  lemma {:induction false} ColumnSumConstant(img: array2<real>, col: int, lo: int, hi: int, v: real)
    requires 0 <= col < img.Length1 && 0 <= lo <= hi <= img.Length0
    requires forall r :: lo <= r < hi ==> img[r, col] == v
    ensures ColumnSum(img, col, lo, hi) == v * (hi - lo) as real
    decreases hi - lo
  {
    if lo < hi {
      ColumnSumConstant(img, col, lo, hi - 1, v);
    }
  }

  /** A window sum of non-negative pixels (a variance map) is non-negative. */
  lemma {:induction false} ColumnSumNonNegative(img: array2<real>, col: int, lo: int, hi: int)
    requires 0 <= col < img.Length1 && 0 <= lo && hi <= img.Length0
    requires forall r :: lo <= r < hi ==> img[r, col] >= 0.0
    ensures ColumnSum(img, col, lo, hi) >= 0.0
    decreases hi - lo
  {
    if lo < hi {
      ColumnSumNonNegative(img, col, lo, hi - 1);
    }
  }

  /** Uniform-mode value of a window: its mean, `sum / width`, times the nominal slit
      length `nslitpix`. */
  function UniformValue(sum: real, width: int, nslitpix: real): real
    requires width > 0
  {
    sum / width as real * nslitpix
  }

  /** Multiplying a uniform-mode value back by the window width gives the sum rescaled
      by the slit length. */
  lemma UniformValueTimesWidth(sum: real, width: int, nslitpix: real)
    requires width > 0
    ensures UniformValue(sum, width, nslitpix) * width as real == sum * nslitpix
  {
  }

  /** The mean of `width` copies of `v`, rescaled by `nslitpix`, is `v * nslitpix`. */
  lemma UniformValueOfConstant(v: real, width: int, nslitpix: real)
    requires width > 0
    ensures UniformValue(v * width as real, width, nslitpix) == v * nslitpix
  {
    var n, u := width as real, UniformValue(v * width as real, width, nslitpix);
    UniformValueTimesWidth(v * n, width, nslitpix);
    assert (u - v * nslitpix) * n == 0.0;
  }

  /** The value `aperture_extract` writes for column `col` of image `img` (the frame or
      the variance map) given the column's window: 0 for a skipped column; otherwise,
      over the rows numpy's slice `img[lo:hi, col]` selects, the sum (box mode), or the
      mean times the nominal slit length `2 * apRad` (uniform mode), whatever the width
      of the possibly clamped window. So uniform mode, multiplied back by the number of
      rows summed, is box mode rescaled to the nominal slit length. */
  function WindowValue(img: array2<real>, col: int, w: Window, apRad: real, uniform: bool): (v: real)
    reads img
    requires 0 <= col < img.Length1
    requires uniform && w.Rows? ==> SliceBound(w.lo, img.Length0) < SliceBound(w.hi, img.Length0)
    ensures w.Skipped? ==> v == 0.0
    ensures w.Rows? && uniform ==>
      var lo, hi := SliceBound(w.lo, img.Length0), SliceBound(w.hi, img.Length0);
      v * (hi - lo) as real == ColumnSum(img, col, lo, hi) * (2.0 * apRad)
  {
    match w
    case Skipped => 0.0
    case Rows(i0, i1) =>
      var lo, hi := SliceBound(i0, img.Length0), SliceBound(i1, img.Length0);
      if uniform then
        UniformValueTimesWidth(ColumnSum(img, col, lo, hi), hi - lo, 2.0 * apRad);
        UniformValue(ColumnSum(img, col, lo, hi), hi - lo, 2.0 * apRad)
      else ColumnSum(img, col, lo, hi)
  }

  /** A window inside the column is sliced as it stands. */
  lemma SliceOfWindow(img: array2<real>, col: int, lo: int, hi: int, apRad: real, uniform: bool)
    requires 0 <= col < img.Length1 && 0 <= lo <= img.Length0 && 0 <= hi <= img.Length0
    requires uniform ==> lo < hi
    ensures !uniform ==> WindowValue(img, col, Rows(lo, hi), apRad, uniform) == ColumnSum(img, col, lo, hi)
    ensures uniform ==>
      WindowValue(img, col, Rows(lo, hi), apRad, uniform) == UniformValue(ColumnSum(img, col, lo, hi), hi - lo, 2.0 * apRad)
  {
  }

  /** Uniform mode is the box sum rescaled by the nominal slit length over the actual
      window width (for an unclamped window that width is
      `round(p + apRad) - round(p - apRad)`, see `WindowWidth`). */
  lemma UniformRescalesBox(img: array2<real>, col: int, lo: int, hi: int, apRad: real)
    requires 0 <= col < img.Length1 && 0 <= lo < hi <= img.Length0
    ensures WindowValue(img, col, Rows(lo, hi), apRad, true) * (hi - lo) as real
      == WindowValue(img, col, Rows(lo, hi), apRad, false) * (2.0 * apRad)
  {
    SliceOfWindow(img, col, lo, hi, apRad, false);
    UniformValueTimesWidth(ColumnSum(img, col, lo, hi), hi - lo, 2.0 * apRad);
  }

  /** On a column that is constant (`v`) over the window, box mode yields `v` times the
      window width and uniform mode `v` times the nominal slit length `2 * apRad`. */
  lemma ConstantColumn(img: array2<real>, col: int, lo: int, hi: int, apRad: real, v: real)
    requires 0 <= col < img.Length1 && 0 <= lo <= hi <= img.Length0
    requires forall r :: lo <= r < hi ==> img[r, col] == v
    ensures WindowValue(img, col, Rows(lo, hi), apRad, false) == v * (hi - lo) as real
    ensures lo < hi ==> WindowValue(img, col, Rows(lo, hi), apRad, true) == v * (2.0 * apRad)
  {
    ColumnSumConstant(img, col, lo, hi, v);
    SliceOfWindow(img, col, lo, hi, apRad, false);
    if lo < hi {
      SliceOfWindow(img, col, lo, hi, apRad, true);
      UniformValueOfConstant(v, hi - lo, 2.0 * apRad);
    }
  }

  /** A negative radius can make the window's stop negative (`Rows(1, -1)` for a trace at
      row 0 with radius -1); numpy then counts the stop back from the end of the column,
      so box mode sums rows 1 to `nrows - 2` instead of nothing. */
  lemma NegativeStopCountsFromEnd(img: array2<real>)
    requires img.Length0 == 5 && img.Length1 == 1
    ensures TraceWindow(0.0, -1.0, 5) == Rows(1, -1)
    ensures WindowValue(img, 0, TraceWindow(0.0, -1.0, 5), -1.0, false) == ColumnSum(img, 0, 1, 4)
  {
    assert RoundsTo(1.0, 1) && RoundsTo(-1.0, -1);
    RoundingUnique(1.0, Round(1.0), 1);
    RoundingUnique(-1.0, Round(-1.0), -1);
  }

  /** Extracted values of a non-negative image (a variance map) are non-negative. */
  lemma WindowValueNonNegative(img: array2<real>, col: int, w: Window, apRad: real, uniform: bool)
    requires 0 <= col < img.Length1 && apRad >= 0.0
    requires uniform && w.Rows? ==> SliceBound(w.lo, img.Length0) < SliceBound(w.hi, img.Length0)
    requires forall r :: 0 <= r < img.Length0 ==> img[r, col] >= 0.0
    ensures WindowValue(img, col, w, apRad, uniform) >= 0.0
  {
    if w.Rows? {
      ColumnSumNonNegative(img, col, SliceBound(w.lo, img.Length0), SliceBound(w.hi, img.Length0));
    }
  }

  /** On a non-negative image (a variance map) a wider aperture never extracts less in
      box mode: the narrower window nests inside the wider one, and the rows it leaves
      out add non-negative amounts. */
  lemma WiderApertureSumsMore(img: array2<real>, col: int, p: real, r1: real, r2: real)
    requires 0 <= col < img.Length1 && OnFrame(p, img.Length0) && 0.0 <= r1 <= r2
    requires forall r :: 0 <= r < img.Length0 ==> img[r, col] >= 0.0
    ensures WindowValue(img, col, TraceWindow(p, r1, img.Length0), r1, false)
         <= WindowValue(img, col, TraceWindow(p, r2, img.Length0), r2, false)
  {
    var n := img.Length0;
    var w1, w2 := TraceWindow(p, r1, n), TraceWindow(p, r2, n);
    WindowInFrame(p, r1, n);
    WindowInFrame(p, r2, n);
    WindowsNest(p, r1, r2, n);
    SliceOfWindow(img, col, w1.lo, w1.hi, r1, false);
    SliceOfWindow(img, col, w2.lo, w2.hi, r2, false);
    if w1.lo < w1.hi {
      ColumnSumSplit(img, col, w2.lo, w1.lo, w2.hi);
      ColumnSumSplit(img, col, w1.lo, w1.hi, w2.hi);
      ColumnSumNonNegative(img, col, w2.lo, w1.lo);
      ColumnSumNonNegative(img, col, w1.hi, w2.hi);
    } else {
      ColumnSumNonNegative(img, col, w2.lo, w2.hi);
    }
  }

  /** One turn of the loop of `aperture_extract`: writes the spectrum and variance of
      column `col`, and leaves the other columns as they were. */
  method ExtractColumn(frame: array2<real>, variance: array2<real>, ordPos: seq<real>, apRad: real, uniform: bool,
                       col: int, s: array<real>, v: array<real>)
    modifies s, v
    requires variance.Length0 == frame.Length0 && variance.Length1 == frame.Length1
    requires |ordPos| == frame.Length1 && 0 <= col < frame.Length1
    requires s.Length == frame.Length1 && v.Length == frame.Length1 && s != v
    requires uniform ==>
      var w := TraceWindow(ordPos[col], apRad, frame.Length0);
      w.Skipped? || SliceBound(w.lo, frame.Length0) < SliceBound(w.hi, frame.Length0)
    requires !OnFrame(ordPos[col], frame.Length0) ==> s[col] == 0.0 && v[col] == 0.0
    ensures var w := TraceWindow(ordPos[col], apRad, frame.Length0);
      && s[..] == old(s[..])[col := WindowValue(frame, col, w, apRad, uniform)]
      && v[..] == old(v[..])[col := WindowValue(variance, col, w, apRad, uniform)]
  {
    var nslitpix := apRad * 2.0;
    var w := TraceWindow(ordPos[col], apRad, frame.Length0);
    if w.Skipped? {
      return;
    }
    // the rows `frame[i0:i1, col]` selects
    var i0, i1 := SliceBound(w.lo, frame.Length0), SliceBound(w.hi, frame.Length0);
    if uniform {
      s[col] := UniformValue(ColumnSum(frame, col, i0, i1), i1 - i0, nslitpix);
      v[col] := UniformValue(ColumnSum(variance, col, i0, i1), i1 - i0, nslitpix);
    } else {
      s[col] := ColumnSum(frame, col, i0, i1);
      v[col] := ColumnSum(variance, col, i0, i1);
    }
  }

  /** `aperture_extract`: fills zero-initialised spectrum and variance arrays column by
      column; an off-frame column is skipped and keeps its 0. */
  method ApertureExtract(frame: array2<real>, variance: array2<real>, ordPos: seq<real>, apRad: real, uniform: bool)
    returns (spec: seq<real>, specVar: seq<real>)
    requires variance.Length0 == frame.Length0 && variance.Length1 == frame.Length1
    requires |ordPos| == frame.Length1
    requires uniform ==> forall col :: 0 <= col < frame.Length1 ==>
      var w := TraceWindow(ordPos[col], apRad, frame.Length0);
      w.Skipped? || SliceBound(w.lo, frame.Length0) < SliceBound(w.hi, frame.Length0)
    ensures |spec| == frame.Length1 && |specVar| == frame.Length1
    ensures forall col :: 0 <= col < frame.Length1 ==>
      var w := TraceWindow(ordPos[col], apRad, frame.Length0);
      && spec[col] == WindowValue(frame, col, w, apRad, uniform)
      && specVar[col] == WindowValue(variance, col, w, apRad, uniform)
    ensures forall col :: 0 <= col < frame.Length1 && !OnFrame(ordPos[col], frame.Length0) ==>
      spec[col] == 0.0 && specVar[col] == 0.0
  {
    var ncols := frame.Length1;
    var s := new real[ncols](_ => 0.0);
    var v := new real[ncols](_ => 0.0);
    for col := 0 to ncols
      invariant forall c :: 0 <= c < col ==>
        var w := TraceWindow(ordPos[c], apRad, frame.Length0);
        && s[c] == WindowValue(frame, c, w, apRad, uniform)
        && v[c] == WindowValue(variance, c, w, apRad, uniform)
      invariant forall c :: col <= c < ncols ==> s[c] == 0.0 && v[c] == 0.0
    {
      ExtractColumn(frame, variance, ordPos, apRad, uniform, col, s, v);
    }
    spec, specVar := s[..], v[..];
  }
}
