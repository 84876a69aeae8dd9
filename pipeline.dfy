/** `flux_coo` followed by `norm_flux_coo`: what a row of the normalised pixel list
    says about the cube it came from. */
module Pipeline {
  import opened Windowing
  import opened RaggedTable
  import opened PixelCollector
  import opened FluxNormalizer

  /** Row `start + k` of the run of slot `(i, c)`, once normalised, is pixel row
      `lo + k` of column `c` in integration `i`: it keeps that row's offset from the
      trace and the column index `c`, and carries the pixel's flux over the column's
      normalisation and its variance over the square of it. Only on-frame columns have
      rows, and no row comes from the last row of the frame. */
  lemma NormalizedPixel(cube: Cube, apRad: real, pixels: seq<Sample>, table: seq<seq<Slot>>,
                        spec: Option<seq<seq<real>>>, out: seq<Sample>, i: int, c: int, k: int)
    requires cube.Valid() && apRad >= 0.5
    requires Tiled(table, |pixels|) && SpecShape(table, spec) && NormalizedBy(pixels, table, spec, out)
    requires 0 <= i < cube.Nints() && 0 <= c < cube.ncols && i < |table| && c < |table[i]|
    requires RunRecorded(cube, pixels, i, c, table[i][c], TraceWindow(cube.ordPos[i][c], apRad, cube.nrows))
    requires 0 <= k < table[i][c].count
    ensures OnFrame(cube.ordPos[i][c], cube.nrows)
    ensures 0 <= TraceWindow(cube.ordPos[i][c], apRad, cube.nrows).lo + k < cube.nrows - 1
    ensures var n, r := ColumnNorm(pixels, table, spec, i, c), TraceWindow(cube.ordPos[i][c], apRad, cube.nrows).lo + k;
      out[table[i][c].start + k]
        == Sample(r as real - cube.ordPos[i][c], cube.frame[i][r][c] / n, cube.variance[i][r][c] / (n * n), c)
  {
    var w := TraceWindow(cube.ordPos[i][c], apRad, cube.nrows);
    var j := table[i][c].start + k;
    RecordedRow(cube, pixels, i, c, table[i][c], w, k);
    NormalizedRunRow(pixels, table, spec, out, i, c, j);
    RescaledPixel(cube, i, c, w.lo + k, ColumnNorm(pixels, table, spec, i, c), out[j]);
  }

  /** Row `start + k` of a recorded run is pixel row `lo + k` of its window. */
  lemma RecordedRow(cube: Cube, pixels: seq<Sample>, i: int, c: int, s: Slot, w: Window, k: int)
    requires cube.Valid() && Fits(w, cube.nrows)
    requires 0 <= i < cube.Nints() && 0 <= c < cube.ncols
    requires RunRecorded(cube, pixels, i, c, s, w) && 0 <= k < s.count
    ensures w.Rows? && 0 <= w.lo + k < w.hi <= cube.nrows && 0 <= s.start + k < |pixels|
    ensures pixels[s.start + k] == PixelSample(cube, i, c, w.lo + k)
  {
    assert s.start <= s.start + k < s.start + s.count;
  }

  /** A row of a run of a normalised list is its input row rescaled by the run's
      column normalisation. */
  lemma NormalizedRunRow(pixels: seq<Sample>, table: seq<seq<Slot>>, spec: Option<seq<seq<real>>>,
                         out: seq<Sample>, i: int, c: int, j: int)
    requires Tiled(table, |pixels|) && SpecShape(table, spec) && NormalizedBy(pixels, table, spec, out)
    requires 0 <= i < |table| && 0 <= c < |table[i]| && InRun(table, i, c, j)
    ensures 0 <= j < |out| && out[j] == Rescaled(pixels[j], ColumnNorm(pixels, table, spec, i, c))
  {
  }

  /** A pixel's sample rescaled by `n`, written out field by field. */
  lemma RescaledPixel(cube: Cube, i: int, c: int, r: int, n: real, o: Sample)
    requires cube.Valid() && n > 0.0
    requires 0 <= i < cube.Nints() && 0 <= r < cube.nrows && 0 <= c < cube.ncols
    requires o == Rescaled(PixelSample(cube, i, c, r), n)
    ensures o == Sample(r as real - cube.ordPos[i][c], cube.frame[i][r][c] / n, cube.variance[i][r][c] / (n * n), c)
  {
  }
}
