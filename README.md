# Aperture extraction and pixel collection, modelled in Dafny

This project models `stark/extract.py`, the aperture-extraction core of a spectroscopic
pipeline. It contains three array routines that share one windowing rule:

- **Windowing rule** (`windowing.dfy`, module `Windowing`). It decides which rows of a
  detector column lie inside an aperture of radius `apRad` around a trace position `p`:
  - a position outside `[0, nrows)` skips the column;
  - otherwise the window is `[round(p - apRad), round(p + apRad))`;
  - the lower bound is raised to 0;
  - an upper bound at or past `nrows` is lowered to `nrows - 1`, so the last row is never
    inside a window.

  Python's `round` on a float rounds half to even. It is defined exactly over `real`, by
  a uniqueness proof. The rule appears twice in the source, at lines 49-57 and 108-116;
  the model defines it once.
- **`aperture_extract`** (`box_extraction.dfy`, module `BoxExtraction`). It reduces a 2D
  frame and its variance map to a per-column spectrum and variance, in one of two modes:
  - box mode sums the window;
  - uniform mode takes the window mean times the nominal slit length `2 * apRad`.

  Off-frame columns keep their initial 0.
- **`flux_coo`** (`pixel_collector.dfy`, module `PixelCollector`). It walks a data cube
  integration-major, column-minor, with a running cursor that is never reset. Every pixel
  in an aperture becomes a `Sample` (offset from the trace, flux, variance, column) in a
  flat list. An index table `col_array_pos[i][c] = (start, count)` records where each
  column's run lies.
- **`norm_flux_coo`** (`flux_normalizer.dfy`, module `FluxNormalizer`). It copies the flat
  list and divides every run's flux by the column normalisation, and its variance by the
  square of it. The normalisation is the run's own flux sum or a supplied reference
  value, floored at 0.01.

`ragged_table.dfy` (module `RaggedTable`) holds what the last two share:
- the sample and slot types;
- prefix-sum offsets;
- the `Tiled` invariant: runs are contiguous, in emission order, without gaps, and hold
  exactly the list.

`pipeline.dfy` (module `Pipeline`) composes `flux_coo` with `norm_flux_coo`.

The model's state follows the source:
- `aperture_extract` fills zero-initialised arrays in a loop.
- `flux_coo` fills an `array2` index table in place, with a cursor. It then copies the
  runs into one array with a second cursor.
- `norm_flux_coo` rescales a copied array run by run. It writes the flux column and then
  the variance column of each run.

Each method is proved against a specification function or predicate. The properties the
source promises are proved about those specifications as lemmas.

Three behaviours of the code that the model keeps as written:
- **Rounding.** Each window bound is `int(round(...))`. Python's `round` on a float
  rounds half to even, so a bound at `k + 0.5` goes to the even neighbour. The model
  rounds the same way.
- **Window width.** The `nrows - 1` clamp narrows a window exactly when
  `round(p + apRad) >= nrows`; the lower clamp narrows it exactly when
  `round(p - apRad) < 0`. `WindowWidth` proves that a window has its full width
  `round(p + apRad) - round(p - apRad)` exactly when neither condition holds.
- **All columns skipped.** `flux_coo` raises when every column of every integration is
  off the frame. `np.sum` of an empty list is the float `0.0`, which `np.zeros` rejects
  as a shape. The model returns the error value `EmptyPixelList` exactly in that case.

Slices follow numpy. `frame[i0:i1, col]` treats a negative bound as counting back from
the end of the column, then clamps both bounds to the column. With a negative `apRad`
the upper bound can be negative, and the model sums the rows numpy selects.

## Model

| member | source | states |
|---|---|---|
| Windowing.Round | stark/extract.py:51-52 | the result is the nearest integer to `x`; a tie goes to the even neighbour, as Python's `round` does |
| Windowing.RoundingUnique | stark/extract.py:51-52 | no real rounds to two different integers, so `round` is a function |
| Windowing.RoundMonotone | stark/extract.py:51-52 | rounding preserves order: `x <= y` implies `round(x) <= round(y)` |
| Windowing.TraceWindow | stark/extract.py:49-57 | skipped exactly when the trace position is off the frame; otherwise `0 <= lo` and `hi <= nrows - 1`, so the last row is never covered; the bounds lie between `round(p - apRad)` and `round(p + apRad)`; `lo <= hi` once `apRad >= 0.5` (the same rule as lines 108-116) |
| Windowing.WindowRowsNearTrace | stark/extract.py:51-57 | every row `r` of a window is within `[-apRad - 1/2, apRad - 1/2]` of the trace position |
| Windowing.WindowWidth | stark/extract.py:51-57 | a clamped window is never wider than `round(p + apRad) - round(p - apRad)`, and is that wide exactly when neither bound was clamped; that width is within one pixel of `2 * apRad` |
| Windowing.WindowInFrame | stark/extract.py:49-57 | with a non-negative radius, both bounds of an on-frame window are row boundaries of the column: `0 <= lo <= nrows` and `0 <= hi <= nrows - 1` |
| Windowing.WindowsNest | stark/extract.py:51-57 | a larger radius gives a window that contains the smaller one's |
| BoxExtraction.SliceBound | stark/extract.py:59-63 | numpy's slice bound: always within `[0, n]`; a bound already inside the column is used as is; a negative bound down to `-n` counts back from the end |
| BoxExtraction.ColumnSum | stark/extract.py:62-63 | definition of `np.sum(frame[lo:hi, col])`: the sum of rows `lo` to `hi - 1`, and 0 for an empty range |
| BoxExtraction.UniformValue | stark/extract.py:59-60 | definition of `np.mean(...) * nslitpix`: the window sum over its width, times the slit length |
| BoxExtraction.ColumnSumSplit | stark/extract.py:62-63 | a window sum splits into the sums of two adjacent sub-windows |
| BoxExtraction.ColumnSumConstant | stark/extract.py:62-63 | over a constant column the window sum is the value times the width |
| BoxExtraction.WindowValue | stark/extract.py:58-63 | a skipped column yields 0; in uniform mode the value times the number of sliced rows is the sliced box sum times `2 * apRad`; the slice follows numpy's bounds |
| BoxExtraction.SliceOfWindow | stark/extract.py:58-63 | for a window already inside the column, the extracted value is the plain box sum, or its mean times `2 * apRad` in uniform mode |
| BoxExtraction.NegativeStopCountsFromEnd | stark/extract.py:51-63 | with `apRad = -1` on a 5-row column and `p = 0`, the window is `(1, -1)` and box mode sums rows 1 to 3, as `frame[1:-1, col]` does |
| BoxExtraction.WiderApertureSumsMore | stark/extract.py:51-63 | on a column of non-negative values, box mode with a larger radius never yields less |
| BoxExtraction.UniformValueOfConstant | stark/extract.py:59-60 | the uniform value of `width` copies of `v` is `v * nslitpix`, whatever the width |
| BoxExtraction.UniformRescalesBox | stark/extract.py:58-63 | uniform mode times the window width equals box mode times the nominal slit length `2 * apRad` |
| BoxExtraction.ConstantColumn | stark/extract.py:58-63 | on a constant column, box mode gives value times width and uniform mode gives value times `2 * apRad` |
| BoxExtraction.WindowValueNonNegative | stark/extract.py:58-63 | a non-negative variance map gives non-negative extracted variances in both modes |
| BoxExtraction.ExtractColumn | stark/extract.py:49-63 | one loop turn: the column's spectrum and variance become their window values, and every other column is unchanged |
| BoxExtraction.ApertureExtract | stark/extract.py:13-64 | for any radius, negative included: one value per column; each equals the window value of that column's trace window, sliced as numpy slices it, for the frame and for the variance map; off-frame columns are 0 |
| RaggedTable.CountSumMonotone | stark/extract.py:123-124 | cursor positions within an integration never decrease |
| RaggedTable.RunEnd | stark/extract.py:123-124 | a slot's run ends where the next slot starts, and no later than the end of its integration |
| RaggedTable.RunsInOrder | stark/extract.py:102-124 | in a tiled table a run ends no later than any run emitted after it, across integrations too, so runs are disjoint |
| RaggedTable.StartsNonDecreasing | stark/extract.py:102-106 | start offsets never decrease over the whole table, because the cursor is not reset between integrations |
| RaggedTable.RunsCover | stark/extract.py:128-134 | every position of the flat list lies in some slot's run: the runs leave no gaps |
| PixelCollector.PixelSample | stark/extract.py:119-122 | definition of one row of `col_array`: offset `r - p`, the frame and variance values at row `r`, and the column index |
| PixelCollector.Flatten | stark/extract.py:128-134 | definition of `pix_array`: the runs of `pix_list` laid end to end, in order |
| PixelCollector.ColumnRun | stark/extract.py:117-122 | definition of `col_array`: the samples of rows `lo` to `hi - 1` of column `c`, in row order |
| PixelCollector.ColumnRunNearTrace | stark/extract.py:108-122 | a column's run under the aperture rule has one sample per window row; every sample carries column `c`; offsets step by exactly 1 and lie within `[-apRad - 1/2, apRad - 1/2]` |
| PixelCollector.TotalRows | stark/extract.py:128 | the summed run lengths equal the length of the runs laid end to end |
| PixelCollector.ContributionRecorded | stark/extract.py:117-125 | appending a column's run records it at the old end of the flat list, with count equal to the window width |
| PixelCollector.CollectedIsTiled | stark/extract.py:102-124 | a table whose slots start at the running cursor tiles the laid-out runs |
| PixelCollector.CollectColumn | stark/extract.py:106-125 | writes `(colPos, count)` into the slot `(i, c)` only; the count is the window width, and 0 for a skipped column; the cursor advances by the count; the column's samples are appended |
| PixelCollector.CollectIntegration | stark/extract.py:105-125 | the row of the table for integration `i` records every column's window, and the other rows are untouched |
| PixelCollector.RowCollectedStep | stark/extract.py:106-125 | appending a column's slot and run keeps every earlier slot of the integration recorded, and the new slot starts at the cursor |
| PixelCollector.ColumnCollectedStep | stark/extract.py:105-125 | one inner-loop turn keeps the inner invariant: slot `(colPos, width)`, the cursor advanced by the width, and a run list that stays empty only while every column so far was off the frame |
| PixelCollector.TableCollectedStep | stark/extract.py:104-125 | adding a finished integration's row keeps every earlier slot at its offset, so the cursor carries across integrations |
| PixelCollector.IntegrationCollectedStep | stark/extract.py:104-125 | one outer-loop turn keeps the outer invariant, and the cursor equals the new table total |
| PixelCollector.CollectCube | stark/extract.py:100-125 | the whole table is filled integration-major; every slot starts at its offset and records its trace window; the laid-out runs hold exactly the table total; the run list is empty exactly when no column is on the frame |
| PixelCollector.FlattenRuns | stark/extract.py:128-134 | the copy loop yields exactly the runs laid end to end |
| PixelCollector.AllIntegrationsCollected | stark/extract.py:104-134 | the collected table tiles the flat list, and each slot's run holds the samples of its trace window |
| PixelCollector.FluxCoo | stark/extract.py:66-135 | fails exactly when no column of any integration is on the frame; otherwise the table has shape `[nints][ncols]` and tiles the flat list; each start is the sum of all earlier counts; each count is the window width; each run holds the window's samples in row order |
| FluxNormalizer.Max | stark/extract.py:173 | the result is the larger of the two arguments |
| FluxNormalizer.ColumnNorm | stark/extract.py:164-173 | the normalisation is at least 0.01, at least the reference value, and equals one of the two |
| FluxNormalizer.FluxSum | stark/extract.py:170 | definition of `np.sum(pix_array[ind0:ind1, 1])`: the flux sum of a range of rows |
| FluxNormalizer.Reference | stark/extract.py:169-172 | definition of `norm_sum` before the floor: the run's own flux sum when no spectrum is given, else the supplied value for the slot |
| FluxNormalizer.Rescaled | stark/extract.py:174-175 | definition of one rescaled row: flux over `n`, variance over `n * n`, offset and column unchanged |
| FluxNormalizer.RescaledInverse | stark/extract.py:174-175 | multiplying back by `n`, and by `n * n`, recovers the flux and the variance |
| FluxNormalizer.FluxSumDivided | stark/extract.py:170-174 | dividing every flux of a range by `n` divides the range's sum by `n` |
| FluxNormalizer.RunFluxNormalized | stark/extract.py:169-174 | each normalised run's flux sums to the input sum over the column normalisation |
| FluxNormalizer.ColumnSumNormalized | stark/extract.py:169-175 | normalising by the column's own sum (computed, or supplied as the reference) makes it sum to 1 when it reaches 0.01, and to `sum / 0.01 < 1` otherwise |
| FluxNormalizer.CoordinatesKept | stark/extract.py:161-175 | every row keeps its offset and column index after normalisation |
| FluxNormalizer.UnprocessedRun | stark/extract.py:161-175 | the run at the cursor still holds the input samples |
| FluxNormalizer.NormalizedUpToStep | stark/extract.py:166-175 | rescaling only slot `(i, c)`'s run advances the loop invariant past that slot, and leaves every earlier run and every later position as they were |
| FluxNormalizer.ColumnWritten | stark/extract.py:174-175 | writing the flux column and then the variance column of the run at the cursor rescales that run |
| FluxNormalizer.NormalizedUpToNextRow | stark/extract.py:165-166 | finishing the last column of an integration is starting the next one |
| FluxNormalizer.NormalizeColumn | stark/extract.py:167-175 | one inner-loop step takes the invariant from slot `(i, c)` to `(i, c + 1)` |
| FluxNormalizer.NormFluxCoo | stark/extract.py:137-176 | the output has the input's length; every row in slot `(i, c)`'s run is its input row with flux over `max(norm, 0.01)` and variance over its square |
| Pipeline.NormalizedPixel | stark/extract.py:119-122 | after `flux_coo` and `norm_flux_coo`, row `start + k` of slot `(i, c)` comes from on-frame pixel row `lo + k < nrows - 1`; it keeps offset `lo + k - p` and column `c`, and has flux over the normalisation and variance over its square |

## Left out

- Floating point: flux, variance and trace positions are `real`. IEEE rounding, NaN,
  infinities and numpy's warnings are not modelled.
- ApertureExtract: in uniform mode every on-frame column must have a non-empty slice.
  `np.mean` of an empty slice is NaN with a warning, which has no counterpart over
  `real`.
- FluxCoo: requires `apRad >= 0.5`. With a smaller radius a window can have length -1,
  and `np.zeros` then raises. That exception is not modelled.
- FluxCoo: requires `Cube.Valid()`, and ApertureExtract requires the frame, variance map
  and trace to agree in shape. The source never checks shapes; numpy's indexing errors
  are not modelled.
- NormFluxCoo: requires a table that tiles the list, as `flux_coo` produces. numpy's slice
  clamping for overlapping or out-of-range tables is not modelled.
- NormFluxCoo: requires the reference spectrum to have one value per slot.
- The imports `multiprocessing.Pool`, `LSQUnivariateSpline`, `LSQBivariateSpline`,
  `warnings` and `time` (lines 8-11) are not used by these routines.
- Layout: the 4-column float arrays `pix_array` and `norm_array` become sequences of
  `Sample` records. The column index is an `int`, not a float.
- Layout: `col_array_pos` is filled in place as an `array2<Slot>` and returned as a
  `seq<seq<Slot>>`.
- Layout: the cube is an immutable value, because `flux_coo` only reads it.
- Loop bodies are separate methods, each proved against the loop invariant:
  - `CollectColumn` and `CollectIntegration` for the loops of `flux_coo`;
  - `NormalizeColumn` for the inner loop of `norm_flux_coo`.
- FluxCoo: the all-skipped error is the result `EmptyPixelList`, not an exception.
