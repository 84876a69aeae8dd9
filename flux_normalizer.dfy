/** Flux normalisation (`norm_flux_coo`): every run of the flat pixel list that
    `flux_coo` produces is divided by a per-column normalisation, either the run's own
    flux sum or a caller-supplied reference spectrum, floored at `MinNorm`; the
    variances are divided by the square of the same normalisation. */
module FluxNormalizer {
  import opened RaggedTable

  datatype Option<T> = None | Some(value: T)

  /** The floor `min_norm` of every normalisation. */
  const MinNorm: real := 0.01

  /** `np.sum(pix_array[lo:hi, 1])`: the flux of positions `[lo, hi)` of the flat list. */
  function FluxSum(pixels: seq<Sample>, lo: int, hi: int): real
    requires 0 <= lo && hi <= |pixels|
    decreases hi - lo
  {
    if hi <= lo then 0.0 else FluxSum(pixels, lo, hi - 1) + pixels[hi - 1].flux
  }

  /** The reference spectrum, if any, has one value per integration and column. */
  predicate SpecShape(table: seq<seq<Slot>>, spec: Option<seq<seq<real>>>)
  {
    spec.Some? ==> |spec.value| == |table| && forall i :: 0 <= i < |table| ==> |spec.value[i]| == |table[i]|
  }

  /** `np.maximum(x, y)`. */
  function Max(x: real, y: real): (m: real)
    ensures m >= x && m >= y && (m == x || m == y)
  {
    if x >= y then x else y
  }

  /** The normalisation of slot `(i, c)` before the floor: the reference spectrum value
      when one is supplied, otherwise the flux sum of the slot's run. */
  function Reference(pixels: seq<Sample>, table: seq<seq<Slot>>, spec: Option<seq<seq<real>>>, i: int, c: int): real
    requires Tiled(table, |pixels|) && SpecShape(table, spec)
    requires 0 <= i < |table| && 0 <= c < |table[i]|
  {
    match spec
    case Some(s) => s[i][c]
    case None => FluxSum(pixels, table[i][c].start, table[i][c].start + table[i][c].count)
  }

  /** `norm_sum` of slot `(i, c)`: its reference floored at `MinNorm`, so always positive. */
  function ColumnNorm(pixels: seq<Sample>, table: seq<seq<Slot>>, spec: Option<seq<seq<real>>>, i: int, c: int): (n: real)
    requires Tiled(table, |pixels|) && SpecShape(table, spec)
    requires 0 <= i < |table| && 0 <= c < |table[i]|
    ensures n >= MinNorm > 0.0
    ensures n >= Reference(pixels, table, spec, i, c)
    ensures n == MinNorm || n == Reference(pixels, table, spec, i, c)
  {
    Max(Reference(pixels, table, spec, i, c), MinNorm)
  }

  /** A sample with its flux divided by `n` and its variance by `n * n`; its offset and
      column are kept. */
  function Rescaled(s: Sample, n: real): (r: Sample)
    requires n > 0.0
  {
    s.(flux := s.flux / n, variance := s.variance / (n * n))
  }

  /** Rescaling loses nothing: multiplying the flux back by `n` and the variance by
      `n * n` recovers the sample, so the variance scales as the square of the flux. */
  lemma RescaledInverse(s: Sample, n: real)
    requires n > 0.0
    ensures Rescaled(s, n).flux * n == s.flux
    ensures Rescaled(s, n).variance * (n * n) == s.variance
  {
  }

  /** Position `j` of the flat list lies in the run of slot `(i, c)`. */
  predicate InRun(table: seq<seq<Slot>>, i: int, c: int, j: int)
    requires 0 <= i < |table| && 0 <= c < |table[i]|
  {
    table[i][c].start <= j < table[i][c].start + table[i][c].count
  }

  /** `out` is `pixels` with every run rescaled by its column's normalisation. */
  ghost predicate NormalizedBy(pixels: seq<Sample>, table: seq<seq<Slot>>, spec: Option<seq<seq<real>>>, out: seq<Sample>)
    requires Tiled(table, |pixels|) && SpecShape(table, spec)
  {
    && |out| == |pixels|
    && forall i, c, j :: 0 <= i < |table| && 0 <= c < |table[i]| && InRun(table, i, c, j) ==>
         out[j] == Rescaled(pixels[j], ColumnNorm(pixels, table, spec, i, c))
  }

  /** Dividing every flux of a range by `n` divides the range's flux sum by `n`. */
  lemma {:induction false} FluxSumDivided(pixels: seq<Sample>, out: seq<Sample>, lo: int, hi: int, n: real)
    requires 0 <= lo && hi <= |pixels| && hi <= |out| && n > 0.0
    requires forall j :: lo <= j < hi ==> out[j].flux == pixels[j].flux / n
    ensures FluxSum(out, lo, hi) == FluxSum(pixels, lo, hi) / n
    decreases hi - lo
  {
    if lo < hi {
      FluxSumDivided(pixels, out, lo, hi - 1, n);
    }
  }

  /** After normalisation the flux of every run sums to the run's input flux sum over
      its column's normalisation. */
  lemma RunFluxNormalized(pixels: seq<Sample>, table: seq<seq<Slot>>, spec: Option<seq<seq<real>>>,
                          out: seq<Sample>, i: int, c: int)
    requires Tiled(table, |pixels|) && SpecShape(table, spec)
    requires NormalizedBy(pixels, table, spec, out)
    requires 0 <= i < |table| && 0 <= c < |table[i]|
    ensures var lo, hi := table[i][c].start, table[i][c].start + table[i][c].count;
      FluxSum(out, lo, hi) == FluxSum(pixels, lo, hi) / ColumnNorm(pixels, table, spec, i, c)
  {
    var lo, hi := table[i][c].start, table[i][c].start + table[i][c].count;
    FluxSumDivided(pixels, out, lo, hi, ColumnNorm(pixels, table, spec, i, c));
  }

  /** A sum divided by itself floored at `MinNorm` is 1 when the sum reaches the floor,
      and `sum / MinNorm`, below 1, otherwise. */
  lemma FlooredRatio(sum: real)
    ensures sum >= MinNorm ==> sum / Max(sum, MinNorm) == 1.0
    ensures sum < MinNorm ==> sum / Max(sum, MinNorm) == sum / MinNorm < 1.0
  {
  }

  /** Normalising by the column's own flux sum, either computed (no reference spectrum)
      or supplied as the reference value, makes a run whose flux sum reaches `MinNorm`
      sum to exactly 1; a fainter run is divided by the floor instead, so its sum stays
      `sum / MinNorm`, below 1. */
  lemma ColumnSumNormalized(pixels: seq<Sample>, table: seq<seq<Slot>>, spec: Option<seq<seq<real>>>,
                            out: seq<Sample>, i: int, c: int)
    requires Tiled(table, |pixels|) && SpecShape(table, spec)
    requires NormalizedBy(pixels, table, spec, out)
    requires 0 <= i < |table| && 0 <= c < |table[i]|
    requires spec.Some? ==>
      spec.value[i][c] == FluxSum(pixels, table[i][c].start, table[i][c].start + table[i][c].count)
    ensures var lo, hi := table[i][c].start, table[i][c].start + table[i][c].count;
      var sum := FluxSum(pixels, lo, hi);
      && (sum >= MinNorm ==> FluxSum(out, lo, hi) == 1.0)
      && (sum < MinNorm ==> FluxSum(out, lo, hi) == sum / MinNorm < 1.0)
  {
    var lo, hi := table[i][c].start, table[i][c].start + table[i][c].count;
    RunFluxNormalized(pixels, table, spec, out, i, c);
    assert Reference(pixels, table, spec, i, c) == FluxSum(pixels, lo, hi);
    FlooredRatio(FluxSum(pixels, lo, hi));
  }

  /** Normalisation changes only the flux and variance columns: every row keeps its
      offset and its column index, since the runs cover the whole list. */
  lemma CoordinatesKept(pixels: seq<Sample>, table: seq<seq<Slot>>, spec: Option<seq<seq<real>>>, out: seq<Sample>)
    requires Tiled(table, |pixels|) && SpecShape(table, spec)
    requires NormalizedBy(pixels, table, spec, out)
    ensures |out| == |pixels|
    ensures forall j :: 0 <= j < |out| ==> out[j].offset == pixels[j].offset && out[j].col == pixels[j].col
  {
    forall j | 0 <= j < |out|
      ensures out[j].offset == pixels[j].offset && out[j].col == pixels[j].col
    {
      RunsCover(table, |pixels|, j);
      var i, c :| && 0 <= i < |table| && 0 <= c < |table[i]|
                  && table[i][c].start <= j < table[i][c].start + table[i][c].count;
      assert InRun(table, i, c, j);
    }
  }

  /** Slot `(i2, c2)` comes before slot `(i, c)` integration-major, column-minor. */
  predicate Before(i2: int, c2: int, i: int, c: int)
  {
    i2 < i || (i2 == i && c2 < c)
  }

  /** The flat-list position where slot `(i, c)` starts when the table tiles the list;
      `(|table|, 0)` stands for the end of the table. */
  function Cursor(table: seq<seq<Slot>>, i: int, c: int): nat
    requires 0 <= i <= |table| && (i < |table| ==> 0 <= c <= |table[i]|)
  {
    if i == |table| then TableTotal(table) else Offset(table, i, c)
  }

  /** The state of `norm_array` once every slot before `(i, c)` is normalised: those runs
      are rescaled, and every position from the cursor on still holds its input sample. */
  ghost predicate NormalizedUpTo(pixels: seq<Sample>, table: seq<seq<Slot>>, spec: Option<seq<seq<real>>>,
                                 norm: seq<Sample>, i: int, c: int)
    requires Tiled(table, |pixels|) && SpecShape(table, spec)
    requires 0 <= i <= |table| && (i < |table| ==> 0 <= c <= |table[i]|)
  {
    && |norm| == |pixels|
    && (forall i2, c2, j :: 0 <= i2 < |table| && 0 <= c2 < |table[i2]| && InRun(table, i2, c2, j) && Before(i2, c2, i, c) ==>
          norm[j] == Rescaled(pixels[j], ColumnNorm(pixels, table, spec, i2, c2)))
    && forall j :: Cursor(table, i, c) <= j < |pixels| ==> norm[j] == pixels[j]
  }

  /** Nothing is normalised yet when `norm_array` is a copy of the input. */
  lemma {:induction false} NormalizedUpToStart(pixels: seq<Sample>, table: seq<seq<Slot>>, spec: Option<seq<seq<real>>>)
    requires Tiled(table, |pixels|) && SpecShape(table, spec)
    ensures NormalizedUpTo(pixels, table, spec, pixels, 0, 0)
  {
    if |table| > 0 {
      assert table[..0] == [] && table[0][..0] == [];
    }
  }

  /** The run of the slot at the cursor still holds the input samples. */
  lemma UnprocessedRun(pixels: seq<Sample>, table: seq<seq<Slot>>, spec: Option<seq<seq<real>>>,
                       norm: seq<Sample>, i: int, c: int)
    requires Tiled(table, |pixels|) && SpecShape(table, spec)
    requires 0 <= i < |table| && 0 <= c < |table[i]|
    requires NormalizedUpTo(pixels, table, spec, norm, i, c)
    ensures forall j :: InRun(table, i, c, j) ==> 0 <= j < |norm| && norm[j] == pixels[j]
  {
    assert Cursor(table, i, c) == table[i][c].start;
  }

  /** Rescaling the run of slot `(i, c)` in place, and nothing else, moves the cursor past
      that slot: the runs before it lie below its start, those after it above its end. */
  lemma {:induction false} NormalizedUpToStep(pixels: seq<Sample>, table: seq<seq<Slot>>, spec: Option<seq<seq<real>>>,
                                             norm: seq<Sample>, norm': seq<Sample>, i: int, c: int, n: real)
    requires Tiled(table, |pixels|) && SpecShape(table, spec)
    requires 0 <= i < |table| && 0 <= c < |table[i]|
    requires NormalizedUpTo(pixels, table, spec, norm, i, c)
    requires n == ColumnNorm(pixels, table, spec, i, c)
    requires |norm'| == |norm|
    requires forall j :: 0 <= j < |norm| && !InRun(table, i, c, j) ==> norm'[j] == norm[j]
    requires forall j :: InRun(table, i, c, j) ==> norm'[j] == Rescaled(pixels[j], n)
    ensures NormalizedUpTo(pixels, table, spec, norm', i, c + 1)
  {
    RunEnd(table, i, c);
    forall i2, c2, j | 0 <= i2 < |table| && 0 <= c2 < |table[i2]| && InRun(table, i2, c2, j) && Before(i2, c2, i, c + 1)
      ensures norm'[j] == Rescaled(pixels[j], ColumnNorm(pixels, table, spec, i2, c2))
    {
      if i2 != i || c2 != c {
        RunsInOrder(table, |pixels|, i2, c2, i, c);
      }
    }
  }

  /** Writing the flux and the variance column of the run at the cursor, each divided
      by the column's normalisation (the variance by its square), rescales that run. */
  lemma ColumnWritten(pixels: seq<Sample>, table: seq<seq<Slot>>, spec: Option<seq<seq<real>>>,
                      norm: seq<Sample>, norm': seq<Sample>, i: int, c: int, n: real)
    requires Tiled(table, |pixels|) && SpecShape(table, spec)
    requires 0 <= i < |table| && 0 <= c < |table[i]|
    requires NormalizedUpTo(pixels, table, spec, norm, i, c)
    requires n == ColumnNorm(pixels, table, spec, i, c)
    requires |norm'| == |norm|
    requires forall j :: 0 <= j < |norm| && !InRun(table, i, c, j) ==> norm'[j] == norm[j]
    requires forall j :: InRun(table, i, c, j) ==>
      norm'[j] == norm[j].(flux := pixels[j].flux / n, variance := pixels[j].variance / (n * n))
    ensures NormalizedUpTo(pixels, table, spec, norm', i, c + 1)
  {
    UnprocessedRun(pixels, table, spec, norm, i, c);
    NormalizedUpToStep(pixels, table, spec, norm, norm', i, c, n);
  }

  /** Finishing the last slot of integration `i` is starting integration `i + 1`. */
  lemma {:induction false} NormalizedUpToNextRow(pixels: seq<Sample>, table: seq<seq<Slot>>, spec: Option<seq<seq<real>>>,
                                                norm: seq<Sample>, i: int)
    requires Tiled(table, |pixels|) && SpecShape(table, spec)
    requires 0 <= i < |table|
    requires NormalizedUpTo(pixels, table, spec, norm, i, |table[i]|)
    ensures NormalizedUpTo(pixels, table, spec, norm, i + 1, 0)
  {
    TableTotalStep(table, i);
    assert table[i][..|table[i]|] == table[i];
    if i + 1 < |table| {
      assert table[i + 1][..0] == [];
    } else {
      assert table[..i + 1] == table;
    }
  }

  /** The body of the inner loop of `norm_flux_coo` for slot `(i, c)`: `norm_sum` is the
      reference (own flux sum or spectrum value) floored at `min_norm`, and the run's
      flux and variance columns of `norm_array` are divided by it and by its square,
      reading the input list. */
  method NormalizeColumn(pixels: seq<Sample>, table: seq<seq<Slot>>, spec: Option<seq<seq<real>>>,
                         i: int, c: int, normArray: array<Sample>)
    modifies normArray
    requires Tiled(table, |pixels|) && SpecShape(table, spec)
    requires 0 <= i < |table| && 0 <= c < |table[i]|
    requires NormalizedUpTo(pixels, table, spec, normArray[..], i, c)
    ensures NormalizedUpTo(pixels, table, spec, normArray[..], i, c + 1)
  {
    ghost var norm := normArray[..];
    var ind0 := table[i][c].start;
    var ind1 := ind0 + table[i][c].count;
    var normSum;
    if spec.None? {
      normSum := FluxSum(pixels, ind0, ind1);
    } else {
      normSum := spec.value[i][c];
    }
    normSum := Max(normSum, MinNorm);
    forall j | ind0 <= j < ind1 {
      normArray[j] := normArray[j].(flux := pixels[j].flux / normSum);
    }
    forall j | ind0 <= j < ind1 {
      normArray[j] := normArray[j].(variance := pixels[j].variance / (normSum * normSum));
    }
    ColumnWritten(pixels, table, spec, norm, normArray[..], i, c, normSum);
  }

  /** `norm_flux_coo`: a copy of the flat list in which every slot's run is rescaled by
      its column's normalisation, integration by integration, column by column. */
  method NormFluxCoo(pixels: seq<Sample>, table: seq<seq<Slot>>, spec: Option<seq<seq<real>>>)
    returns (out: seq<Sample>)
    requires Tiled(table, |pixels|) && SpecShape(table, spec)
    ensures NormalizedBy(pixels, table, spec, out)
  {
    var normArray := new Sample[|pixels|](j requires 0 <= j < |pixels| => pixels[j]);
    NormalizedUpToStart(pixels, table, spec);
    for i := 0 to |table|
      invariant NormalizedUpTo(pixels, table, spec, normArray[..], i, 0)
    {
      for c := 0 to |table[i]|
        invariant NormalizedUpTo(pixels, table, spec, normArray[..], i, c)
      {
        NormalizeColumn(pixels, table, spec, i, c, normArray);
      }
      NormalizedUpToNextRow(pixels, table, spec, normArray[..], i);
    }
    out := normArray[..];
  }
}
