/** Pixel collection (`flux_coo`): every pixel inside the aperture of every column of
    every integration of a data cube becomes one sample of a flat list, and an index
    table records where each column's run of samples lies in that list. */
module PixelCollector {
  import opened Windowing
  import opened RaggedTable

  /** The outcome of `flux_coo`: the flat sample list and its index table, or the error
      raised when no column of any integration is on the frame (`np.sum` of the empty
      list of run lengths is the float `0.0`, which `np.zeros` rejects as a shape). */
  datatype Collected = Collected(pixels: seq<Sample>, table: seq<seq<Slot>>) | EmptyPixelList

  /** The inputs of `flux_coo`, which it only reads: a data cube `frame[i][r][c]`
      (integration, row, column), its variance cube of the same shape, and the trace
      position `ordPos[i][c]` of one spectral order in every integration and column.
      The row and column counts are kept apart so that a cube without integrations still
      has a shape. */
  datatype Cube = Cube(frame: seq<seq<seq<real>>>, variance: seq<seq<seq<real>>>,
                       ordPos: seq<seq<real>>, nrows: nat, ncols: nat)
  {
    /** The number of integrations. */
    function Nints(): nat
    {
      |frame|
    }

    /** The cube, its variance and the trace positions agree in shape. */
    predicate Valid()
    {
      && |variance| == |frame| && |ordPos| == |frame|
      && (forall i :: 0 <= i < |frame| ==>
            |frame[i]| == nrows && |variance[i]| == nrows && |ordPos[i]| == ncols)
      && forall i, r :: 0 <= i < |frame| && 0 <= r < nrows ==>
           |frame[i][r]| == ncols && |variance[i][r]| == ncols
    }
  }

  /** The sample that pixel row `r` of column `c` in integration `i` contributes. */
  function PixelSample(cube: Cube, i: int, c: int, r: int): Sample
    requires cube.Valid()
    requires 0 <= i < cube.Nints() && 0 <= r < cube.nrows && 0 <= c < cube.ncols
  {
    Sample(r as real - cube.ordPos[i][c], cube.frame[i][r][c], cube.variance[i][r][c], c)
  }

  /** The samples of rows `[lo, hi)` of column `c` in integration `i`, in row order
      (`col_array` in `flux_coo`). */
  function ColumnRun(cube: Cube, i: int, c: int, lo: int, hi: int): (run: seq<Sample>)
    requires cube.Valid()
    requires 0 <= i < cube.Nints() && 0 <= lo <= hi <= cube.nrows && 0 <= c < cube.ncols
  {
    seq(hi - lo, k requires 0 <= k < hi - lo => PixelSample(cube, i, c, lo + k))
  }

  /** The runs of `pix_list` laid end to end. */
  function Flatten(runs: seq<seq<Sample>>): seq<Sample>
  {
    if runs == [] then [] else Flatten(runs[..|runs| - 1]) + runs[|runs| - 1]
  }

  /** `np.sum([p.shape[0] for p in pix_list])`: the number of rows the flat array needs. */
  function TotalRows(runs: seq<seq<Sample>>): (n: nat)
    ensures n == |Flatten(runs)|
  {
    if runs == [] then 0 else TotalRows(runs[..|runs| - 1]) + |runs[|runs| - 1]|
  }

  /** Laying out one more run appends it to the flat list. */
  lemma {:induction false} FlattenStep(runs: seq<seq<Sample>>, q: int)
    requires 0 <= q < |runs|
    ensures Flatten(runs[..q + 1]) == Flatten(runs[..q]) + runs[q]
  {
    assert runs[..q + 1][..q] == runs[..q];
  }

  /** Appending a run to the list appends its samples to the flat list. */
  lemma {:induction false} FlattenAppend(runs: seq<seq<Sample>>, run: seq<Sample>)
    ensures Flatten(runs + [run]) == Flatten(runs) + run
  {
    assert (runs + [run])[..|runs|] == runs;
  }

  /** A window that lies within a column of `nrows` rows. */
  predicate Fits(w: Window, nrows: int)
  {
    w.Rows? ==> 0 <= w.lo <= w.hi <= nrows
  }

  /** The run a column with window `w` contributes: the samples of the window's rows,
      or none when the column is skipped. */
  function Contribution(cube: Cube,
                        i: int, c: int, w: Window): (run: seq<Sample>)
    requires cube.Valid() && Fits(w, cube.nrows)
    requires 0 <= i < cube.Nints() && 0 <= c < cube.ncols
    ensures |run| == Width(w)
  {
    if w.Skipped? then [] else ColumnRun(cube, i, c, w.lo, w.hi)
  }

  /** The run a column contributes under the aperture rule: one sample per row of its
      trace window, all tagged with column `c`, whose offsets from the trace step by one
      pixel and stay within half a pixel of the aperture `[-apRad, apRad]`. */
  lemma ColumnRunNearTrace(cube: Cube, apRad: real, i: int, c: int)
    requires cube.Valid() && apRad >= 0.5
    requires 0 <= i < cube.Nints() && 0 <= c < cube.ncols
    ensures var p := cube.ordPos[i][c];
      var w := TraceWindow(p, apRad, cube.nrows);
      var run := Contribution(cube, i, c, w);
      && |run| == Width(w)
      && forall k :: 0 <= k < |run| ==>
        && run[k].col == c
        && -apRad - 0.5 <= run[k].offset <= apRad - 0.5
        && (k > 0 ==> run[k].offset == run[k - 1].offset + 1.0)
  {
    var p := cube.ordPos[i][c];
    var w := TraceWindow(p, apRad, cube.nrows);
    var run := Contribution(cube, i, c, w);
    forall k | 0 <= k < |run|
      ensures run[k] == PixelSample(cube, i, c, w.lo + k)
      ensures -apRad - 0.5 <= run[k].offset <= apRad - 0.5
    {
      assert run == ColumnRun(cube, i, c, w.lo, w.hi);
      WindowRowsNearTrace(p, apRad, cube.nrows, w.lo + k);
    }
  }

  /** Slot `s` records column `c` of integration `i` with window `w`: its count is the
      window's width, and its run of `flat` holds the samples of the window's rows in
      row order. */
  ghost predicate RunRecorded(cube: Cube,
                              flat: seq<Sample>, i: int, c: int, s: Slot, w: Window)
    requires cube.Valid() && Fits(w, cube.nrows)
    requires 0 <= i < cube.Nints() && 0 <= c < cube.ncols
  {
    && s.count == Width(w)
    && 0 <= s.start && s.start + s.count <= |flat|
    && forall j :: s.start <= j < s.start + s.count ==>
         flat[j] == PixelSample(cube, i, c, w.lo + (j - s.start))
  }

  /** Appending to the flat list keeps every recorded run in place. */
  lemma {:induction false} RunRecordedExtends(cube: Cube,
                           flat: seq<Sample>, flat': seq<Sample>, i: int, c: int, s: Slot, w: Window)
    requires cube.Valid() && Fits(w, cube.nrows)
    requires 0 <= i < cube.Nints() && 0 <= c < cube.ncols
    requires RunRecorded(cube, flat, i, c, s, w) && flat <= flat'
    ensures RunRecorded(cube, flat', i, c, s, w)
  {
  }

  /** Appending a slot to a table row adds its count, and keeps the row's prefixes. */
  lemma {:induction false} SlotAppended(row: seq<Slot>, s: Slot)
    ensures CountSum(row + [s]) == CountSum(row) + s.count
    ensures forall c :: 0 <= c <= |row| ==> (row + [s])[..c] == row[..c]
  {
    assert (row + [s])[..|row|] == row;
  }

  /** A finished table row keeps its slot offsets when more rows follow it. */
  lemma {:induction false} OffsetsKeptByNextRow(done: seq<seq<Slot>>, row: seq<Slot>, i: int, c: int)
    requires 0 <= i < |done| && 0 <= c <= |done[i]|
    ensures Offset(done + [row], i, c) == Offset(done, i, c)
  {
    assert (done + [row])[..i] == done[..i];
  }

  /** The slots of a new last row start after all earlier rows. */
  lemma {:induction false} OffsetsOfLastRow(done: seq<seq<Slot>>, row: seq<Slot>, c: int)
    requires 0 <= c <= |row|
    ensures Offset(done + [row], |done|, c) == TableTotal(done) + CountSum(row[..c])
    ensures TableTotal(done + [row]) == TableTotal(done) + CountSum(row)
  {
    assert (done + [row])[..|done|] == done;
    assert done + [row] != [];
    assert (done + [row])[..|done + [row]| - 1] == done;
  }

  /** Every window of a row of windows fits the column. */
  predicate AllFit(wins: seq<Window>, nrows: int)
  {
    forall c :: 0 <= c < |wins| ==> Fits(wins[c], nrows)
  }

  /** The first `|row|` columns of integration `i`, with windows `wins`, are collected
      into `flat`: each slot starts at `base` plus the counts before it, and records its
      column's window. */
  ghost predicate RowCollected(cube: Cube,
                               i: int, base: int, row: seq<Slot>, wins: seq<Window>, flat: seq<Sample>)
    requires cube.Valid() && AllFit(wins, cube.nrows)
    requires 0 <= i < cube.Nints() && |row| == |wins| <= cube.ncols
  {
    forall c {:trigger wins[c]} :: 0 <= c < |row| ==>
      && row[c].start == base + CountSum(row[..c])
      && RunRecorded(cube, flat, i, c, row[c], wins[c])
  }

  /** The integrations of `done`, with windows `wins`, are collected into `flat`: each
      slot starts at its offset in the table and records its column's window. */
  ghost predicate TableCollected(cube: Cube,
                                 done: seq<seq<Slot>>, wins: seq<seq<Window>>, flat: seq<Sample>)
    requires cube.Valid()
    requires |done| == |wins| <= cube.Nints()
    requires forall i :: 0 <= i < |done| ==> |done[i]| == |wins[i]| == cube.ncols
    requires forall i, c :: 0 <= i < |wins| && 0 <= c < |wins[i]| ==> Fits(wins[i][c], cube.nrows)
  {
    forall i, c {:trigger wins[i][c]} :: 0 <= i < |done| && 0 <= c < cube.ncols ==>
      && done[i][c].start == Offset(done, i, c)
      && RunRecorded(cube, flat, i, c, done[i][c], wins[i][c])
  }

  /** The run a column contributes, appended at the end of `flat`, is recorded by a
      slot that starts there. */
  lemma {:induction false} ContributionRecorded(cube: Cube,
                             i: int, c: int, flat: seq<Sample>, w: Window, run: seq<Sample>)
    requires cube.Valid() && Fits(w, cube.nrows)
    requires 0 <= i < cube.Nints() && 0 <= c < cube.ncols
    requires run == Contribution(cube, i, c, w)
    ensures RunRecorded(cube, flat + run, i, c, Slot(|flat|, |run|), w)
  {
    forall j | |flat| <= j < |flat| + |run|
      ensures (flat + run)[j] == PixelSample(cube, i, c, w.lo + (j - |flat|))
    {
      assert (flat + run)[j] == run[j - |flat|];
    }
  }

  /** Collecting the next column of integration `i`, with the cursor at the end of
      `flat`, extends a collected row by the column's slot and run. */
  lemma {:induction false} RowCollectedStep(cube: Cube,
                         i: int, base: int, row: seq<Slot>, wins: seq<Window>, flat: seq<Sample>,
                         w: Window, run: seq<Sample>)
    requires cube.Valid() && AllFit(wins, cube.nrows) && Fits(w, cube.nrows)
    requires 0 <= i < cube.Nints() && |row| == |wins| < cube.ncols
    requires RowCollected(cube, i, base, row, wins, flat)
    requires base + CountSum(row) == |flat|
    requires run == Contribution(cube, i, |row|, w)
    ensures AllFit(wins + [w], cube.nrows)
    ensures RowCollected(cube, i, base, row + [Slot(|flat|, |run|)], wins + [w], flat + run)
    ensures base + CountSum(row + [Slot(|flat|, |run|)]) == |flat + run|
  {
    var row', wins' := row + [Slot(|flat|, |run|)], wins + [w];
    SlotAppended(row, Slot(|flat|, |run|));
    assert AllFit(wins', cube.nrows) by {
      assert forall c :: 0 <= c < |wins| ==> wins'[c] == wins[c];
    }
    forall c | 0 <= c < |row|
      ensures row'[c].start == base + CountSum(row'[..c])
      ensures RunRecorded(cube, flat + run, i, c, row'[c], wins'[c])
    {
      assert wins'[c] == wins[c];
      RunRecordedExtends(cube, flat, flat + run, i, c, row[c], wins[c]);
    }
    ContributionRecorded(cube, i, |row|, flat, w, run);
    assert row'[..|row|] == row;
  }

  /** A finished collected row, laid out after a collected table, extends the table. */
  lemma {:induction false} TableCollectedStep(cube: Cube,
                           done: seq<seq<Slot>>, wins: seq<seq<Window>>, row: seq<Slot>, rowWins: seq<Window>,
                           flat: seq<Sample>, flat': seq<Sample>)
    requires cube.Valid()
    requires |done| == |wins| < cube.Nints()
    requires forall i :: 0 <= i < |done| ==> |done[i]| == |wins[i]| == cube.ncols
    requires forall i, c :: 0 <= i < |wins| && 0 <= c < |wins[i]| ==> Fits(wins[i][c], cube.nrows)
    requires |row| == |rowWins| == cube.ncols && AllFit(rowWins, cube.nrows)
    requires TableCollected(cube, done, wins, flat) && flat <= flat'
    requires RowCollected(cube, |done|, TableTotal(done), row, rowWins, flat')
    ensures TableCollected(cube, done + [row], wins + [rowWins], flat')
    ensures TableTotal(done + [row]) == TableTotal(done) + CountSum(row)
  {
    var done': seq<seq<Slot>>, wins' := done + [row], wins + [rowWins];
    forall i, c | 0 <= i < |done'| && 0 <= c < cube.ncols
      ensures done'[i][c].start == Offset(done', i, c)
      ensures RunRecorded(cube, flat', i, c, done'[i][c], wins'[i][c])
    {
      if i < |done| {
        assert done'[i] == done[i] && wins'[i] == wins[i];
        OffsetsKeptByNextRow(done, row, i, c);
        RunRecordedExtends(cube, flat, flat', i, c, done[i][c], wins[i][c]);
      } else {
        assert done'[i] == row && wins'[i] == rowWins && rowWins[c] == rowWins[c];
        OffsetsOfLastRow(done, row, c);
      }
    }
    OffsetsOfLastRow(done, row, 0);
  }

  /** A collected table whose total is the length of the flat list tiles it. */
  lemma {:induction false} CollectedIsTiled(cube: Cube,
                         done: seq<seq<Slot>>, wins: seq<seq<Window>>, flat: seq<Sample>)
    requires cube.Valid()
    requires |done| == |wins| <= cube.Nints()
    requires forall i :: 0 <= i < |done| ==> |done[i]| == |wins[i]| == cube.ncols
    requires forall i, c :: 0 <= i < |wins| && 0 <= c < |wins[i]| ==> Fits(wins[i][c], cube.nrows)
    requires TableCollected(cube, done, wins, flat) && TableTotal(done) == |flat|
    ensures Tiled(done, |flat|)
  {
    forall i, c | 0 <= i < |done| && 0 <= c < |done[i]|
      ensures done[i][c].start == Offset(done, i, c)
      ensures done[i][c].start + done[i][c].count <= |flat|
    {
      assert RunRecorded(cube, flat, i, c, done[i][c], wins[i][c]);
    }
  }

  /** The state of the inner loop of `flux_coo` after the first `c` columns of integration
      `i`, which started with the run list `pixList0` and the cursor at `base`: `row` and
      `wins` hold the slots and windows of those columns, the run list has grown to
      `pixList` and the cursor stands at its end. */
  ghost predicate ColumnsCollected(cube: Cube, apRad: real,
                                   i: int, base: int, pixList0: seq<seq<Sample>>, c: int,
                                   row: seq<Slot>, wins: seq<Window>, pixList: seq<seq<Sample>>, colPos: int)
    requires cube.Valid()
    requires 0 <= i < cube.Nints() && 0 <= c <= cube.ncols
  {
    && |row| == |wins| == c
    && (forall c' :: 0 <= c' < c ==> wins[c'] == TraceWindow(cube.ordPos[i][c'], apRad, cube.nrows))
    && AllFit(wins, cube.nrows)
    && colPos == base + CountSum(row) == |Flatten(pixList)|
    && Flatten(pixList0) <= Flatten(pixList)
    && RowCollected(cube, i, base, row, wins, Flatten(pixList))
    && (|pixList| == 0 <==> |pixList0| == 0 && forall c' :: 0 <= c' < c ==> !OnFrame(cube.ordPos[i][c'], cube.nrows))
  }

  /** One turn of the inner loop of `flux_coo`: column `c` gets the slot `(colPos, n)`
      where `n` is its window width, and an on-frame column appends its run. */
  lemma {:induction false} ColumnCollectedStep(cube: Cube, apRad: real,
                                               i: int, base: int, pixList0: seq<seq<Sample>>, c: int,
                                               row: seq<Slot>, wins: seq<Window>, pixList: seq<seq<Sample>>, colPos: int,
                                               w: Window, run: seq<Sample>, pixList': seq<seq<Sample>>)
    requires cube.Valid() && apRad >= 0.5
    requires 0 <= i < cube.Nints() && 0 <= c < cube.ncols
    requires ColumnsCollected(cube, apRad, i, base, pixList0, c, row, wins, pixList, colPos)
    requires w == TraceWindow(cube.ordPos[i][c], apRad, cube.nrows)
    requires run == Contribution(cube, i, c, w)
    requires pixList' == if w.Rows? then pixList + [run] else pixList
    ensures ColumnsCollected(cube, apRad, i, base, pixList0, c + 1,
                             row + [Slot(colPos, |run|)], wins + [w], pixList', colPos + |run|)
  {
    var flat := Flatten(pixList);
    if w.Rows? {
      FlattenAppend(pixList, run);
    } else {
      assert flat + run == flat;
    }
    RowCollectedStep(cube, i, base, row, wins, flat, w, run);
    var wins' := wins + [w];
    assert forall c' :: 0 <= c' < c ==> wins'[c'] == wins[c'];
  }

  /** The body of the inner loop of `flux_coo` for column `c` of integration `i`: the
      column's slot gets the running cursor as its start; an off-frame column stops
      there, and an on-frame one also gets its window width as count, appends its
      window's samples to the runs and advances the cursor. */
  method CollectColumn(cube: Cube, apRad: real, i: int, c: int, colArrayPos: array2<Slot>,
                       pixList: seq<seq<Sample>>, colPos: int,
                       ghost base: int, ghost pixList0: seq<seq<Sample>>, ghost row: seq<Slot>, ghost wins: seq<Window>)
    returns (pixList': seq<seq<Sample>>, colPos': int)
    modifies colArrayPos
    requires cube.Valid() && apRad >= 0.5
    requires 0 <= i < cube.Nints() && 0 <= c < cube.ncols
    requires colArrayPos.Length0 == cube.Nints() && colArrayPos.Length1 == cube.ncols
    requires colArrayPos[i, c] == Slot(0, 0)
    requires ColumnsCollected(cube, apRad, i, base, pixList0, c, row, wins, pixList, colPos)
    ensures colPos' >= colPos && colArrayPos[i, c] == Slot(colPos, colPos' - colPos)
    ensures forall i', c' :: 0 <= i' < cube.Nints() && 0 <= c' < cube.ncols && (i' != i || c' != c) ==>
      colArrayPos[i', c'] == old(colArrayPos[i', c'])
    ensures ColumnsCollected(cube, apRad, i, base, pixList0, c + 1, row + [Slot(colPos, colPos' - colPos)],
                             wins + [TraceWindow(cube.ordPos[i][c], apRad, cube.nrows)], pixList', colPos')
  {
    colArrayPos[i, c] := colArrayPos[i, c].(start := colPos);
    var w := TraceWindow(cube.ordPos[i][c], apRad, cube.nrows);
    if w.Skipped? {
      ColumnCollectedStep(cube, apRad, i, base, pixList0, c, row, wins, pixList, colPos, w, [], pixList);
      return pixList, colPos;
    }
    var i0, i1 := w.lo, w.hi;
    var npix := i1 - i0;
    var colArray := ColumnRun(cube, i, c, i0, i1);
    colArrayPos[i, c] := colArrayPos[i, c].(count := npix);
    ColumnCollectedStep(cube, apRad, i, base, pixList0, c, row, wins, pixList, colPos, w, colArray, pixList + [colArray]);
    colPos' := colPos + npix;
    pixList' := pixList + [colArray];
  }

  /** The inner loop of `flux_coo` over the columns of integration `i`, which leaves every
      other row of the index table as it was. */
  method CollectIntegration(cube: Cube, apRad: real, i: int, colArrayPos: array2<Slot>,
                            pixList: seq<seq<Sample>>, colPos: int, ghost base: int)
    returns (pixList': seq<seq<Sample>>, colPos': int, ghost row: seq<Slot>, ghost wins: seq<Window>)
    modifies colArrayPos
    requires cube.Valid() && apRad >= 0.5
    requires 0 <= i < cube.Nints()
    requires colArrayPos.Length0 == cube.Nints() && colArrayPos.Length1 == cube.ncols
    requires forall c :: 0 <= c < cube.ncols ==> colArrayPos[i, c] == Slot(0, 0)
    requires colPos == base == |Flatten(pixList)|
    ensures ColumnsCollected(cube, apRad, i, base, pixList, cube.ncols, row, wins, pixList', colPos')
    ensures forall c :: 0 <= c < cube.ncols ==> colArrayPos[i, c] == row[c]
    ensures forall i', c :: 0 <= i' < cube.Nints() && i' != i && 0 <= c < cube.ncols ==>
      colArrayPos[i', c] == old(colArrayPos[i', c])
  {
    var ncols := cube.ncols;
    pixList', colPos', row, wins := pixList, colPos, [], [];
    for c := 0 to ncols
      invariant ColumnsCollected(cube, apRad, i, base, pixList, c, row, wins, pixList', colPos')
      invariant forall c' :: 0 <= c' < c ==> colArrayPos[i, c'] == row[c']
      invariant forall c' :: c <= c' < ncols ==> colArrayPos[i, c'] == Slot(0, 0)
      invariant forall i', c' :: 0 <= i' < cube.Nints() && i' != i && 0 <= c' < ncols ==>
        colArrayPos[i', c'] == old(colArrayPos[i', c'])
    {
      ghost var start := colPos';
      pixList', colPos' := CollectColumn(cube, apRad, i, c, colArrayPos, pixList', colPos', base, pixList, row, wins);
      row, wins := row + [Slot(start, colPos' - start)], wins + [TraceWindow(cube.ordPos[i][c], apRad, cube.nrows)];
    }
  }

  /** `np.sum` of the run lengths followed by the copy loop of `flux_coo`: the runs laid
      end to end in one array of exactly their total length. */
  method FlattenRuns(pixList: seq<seq<Sample>>) returns (pixels: seq<Sample>)
    ensures pixels == Flatten(pixList)
  {
    var numEntries := TotalRows(pixList);
    var pixArray := new Sample[numEntries](_ => Sample(0.0, 0.0, 0.0, 0));
    var entry := 0;
    for q := 0 to |pixList|
      invariant entry == |Flatten(pixList[..q])| <= numEntries
      invariant pixArray[..entry] == Flatten(pixList[..q])
    {
      var p := pixList[q];
      var n := |p|;
      FlattenStep(pixList, q);
      FlattenPrefixLength(pixList, q + 1);
      ghost var laid := pixArray[..entry];
      forall k | 0 <= k < n {
        pixArray[entry + k] := p[k];
      }
      assert pixArray[..entry] == laid;
      assert pixArray[..entry + n] == laid + p;
      entry := entry + n;
    }
    assert pixList[..|pixList|] == pixList;
    pixels := pixArray[..];
  }

  /** A prefix of the runs lays out no more samples than all of them. */
  lemma {:induction false} FlattenPrefixLength(runs: seq<seq<Sample>>, q: int)
    requires 0 <= q <= |runs|
    ensures |Flatten(runs[..q])| <= |Flatten(runs)|
    decreases |runs| - q
  {
    if q < |runs| {
      FlattenStep(runs, q);
      FlattenPrefixLength(runs, q + 1);
    } else {
      assert runs[..q] == runs;
    }
  }

  /** The state of the outer loop of `flux_coo` after the first `i` integrations: `done`
      and `wins` hold their table rows and windows, `pixList` their runs, and the cursor
      stands at the end of the runs. */
  ghost predicate IntegrationsCollected(cube: Cube, apRad: real,
                                        i: int, done: seq<seq<Slot>>, wins: seq<seq<Window>>,
                                        pixList: seq<seq<Sample>>)
    requires cube.Valid() && 0 <= i <= cube.Nints()
  {
    && |done| == |wins| == i
    && (forall i' :: 0 <= i' < i ==> |done[i']| == |wins[i']| == cube.ncols)
    && (forall i', c :: 0 <= i' < i && 0 <= c < cube.ncols ==>
          wins[i'][c] == TraceWindow(cube.ordPos[i'][c], apRad, cube.nrows))
    && (forall i', c :: 0 <= i' < |wins| && 0 <= c < |wins[i']| ==> Fits(wins[i'][c], cube.nrows))
    && TableTotal(done) == |Flatten(pixList)|
    && TableCollected(cube, done, wins, Flatten(pixList))
    && (|pixList| == 0 <==>
          forall i', c :: 0 <= i' < i && 0 <= c < cube.ncols ==> !OnFrame(cube.ordPos[i'][c], cube.nrows))
  }

  /** One turn of the outer loop of `flux_coo`: the row the inner loop produced for
      integration `i` joins the table. */
  lemma {:induction false} IntegrationCollectedStep(cube: Cube, apRad: real,
                                                    i: int, done: seq<seq<Slot>>, wins: seq<seq<Window>>,
                                                    pixList: seq<seq<Sample>>, colPos: int,
                                                    row: seq<Slot>, rowWins: seq<Window>,
                                                    pixList': seq<seq<Sample>>, colPos': int)
    requires cube.Valid() && 0 <= i < cube.Nints()
    requires IntegrationsCollected(cube, apRad, i, done, wins, pixList) && colPos == TableTotal(done)
    requires ColumnsCollected(cube, apRad, i, colPos, pixList, cube.ncols, row, rowWins, pixList', colPos')
    ensures IntegrationsCollected(cube, apRad, i + 1, done + [row], wins + [rowWins], pixList')
    ensures colPos' == TableTotal(done + [row])
  {
    TableCollectedStep(cube, done, wins, row, rowWins, Flatten(pixList), Flatten(pixList'));
    var done', wins' := done + [row], wins + [rowWins];
    assert forall i' :: 0 <= i' < i ==> done'[i'] == done[i'] && wins'[i'] == wins[i'];
    assert done'[i] == row && wins'[i] == rowWins;
  }

  /** Once every integration is collected, the table tiles the laid-out runs and each
      slot records its column's trace window. */
  lemma {:induction false} AllIntegrationsCollected(cube: Cube, apRad: real,
                                                    done: seq<seq<Slot>>, wins: seq<seq<Window>>,
                                                    pixList: seq<seq<Sample>>)
    requires cube.Valid() && apRad >= 0.5
    requires IntegrationsCollected(cube, apRad, cube.Nints(), done, wins, pixList)
    ensures Tiled(done, |Flatten(pixList)|)
    ensures forall i, c :: 0 <= i < cube.Nints() && 0 <= c < cube.ncols ==>
      RunRecorded(cube, Flatten(pixList), i, c, done[i][c], TraceWindow(cube.ordPos[i][c], apRad, cube.nrows))
  {
    CollectedIsTiled(cube, done, wins, Flatten(pixList));
    forall i, c | 0 <= i < cube.Nints() && 0 <= c < cube.ncols
      ensures RunRecorded(cube, Flatten(pixList), i, c, done[i][c], TraceWindow(cube.ordPos[i][c], apRad, cube.nrows))
    {
      assert wins[i][c] == TraceWindow(cube.ordPos[i][c], apRad, cube.nrows);
    }
  }

  /** The nested loops of `flux_coo`: walks the cube integration-major, column-minor with
      one running cursor `colPos` that is never reset between integrations, filling a fresh
      index table `colArrayPos` and the list of runs `pixList`. */
  method CollectCube(cube: Cube, apRad: real)
    returns (colArrayPos: array2<Slot>, pixList: seq<seq<Sample>>, ghost done: seq<seq<Slot>>, ghost wins: seq<seq<Window>>)
    requires cube.Valid()
    requires apRad >= 0.5
    ensures fresh(colArrayPos)
    ensures colArrayPos.Length0 == cube.Nints() && colArrayPos.Length1 == cube.ncols
    ensures IntegrationsCollected(cube, apRad, cube.Nints(), done, wins, pixList)
    ensures forall i, c :: 0 <= i < cube.Nints() && 0 <= c < cube.ncols ==> colArrayPos[i, c] == done[i][c]
  {
    var nints, ncols := cube.Nints(), cube.ncols;
    colArrayPos := new Slot[nints, ncols]((_, _) => Slot(0, 0));
    pixList := [];
    var colPos := 0;
    done, wins := [], [];
    for i := 0 to nints
      invariant IntegrationsCollected(cube, apRad, i, done, wins, pixList) && colPos == TableTotal(done)
      invariant forall i', c :: 0 <= i' < i && 0 <= c < ncols ==> colArrayPos[i', c] == done[i'][c]
      invariant forall i', c :: i <= i' < nints && 0 <= c < ncols ==> colArrayPos[i', c] == Slot(0, 0)
    {
      ghost var row, rowWins;
      var pixList', colPos';
      pixList', colPos', row, rowWins :=
        CollectIntegration(cube, apRad, i, colArrayPos, pixList, colPos, colPos);
      IntegrationCollectedStep(cube, apRad, i, done, wins, pixList, colPos, row, rowWins, pixList', colPos');
      assert forall i' :: 0 <= i' < i ==> (done + [row])[i'] == done[i'];
      done, wins := done + [row], wins + [rowWins];
      pixList, colPos := pixList', colPos';
    }
  }

  /** `flux_coo`: collects every column of every integration (see `CollectCube`); fails
      when no column of any integration is on the frame, and otherwise lays the runs out
      in one flat list indexed by the table. */
  method FluxCoo(cube: Cube, apRad: real)
    returns (r: Collected)
    requires cube.Valid()
    requires apRad >= 0.5
    ensures r.EmptyPixelList? <==>
      forall i, c :: 0 <= i < cube.Nints() && 0 <= c < cube.ncols ==> !OnFrame(cube.ordPos[i][c], cube.nrows)
    ensures r.Collected? ==>
      && |r.table| == cube.Nints()
      && (forall i :: 0 <= i < cube.Nints() ==> |r.table[i]| == cube.ncols)
      && Tiled(r.table, |r.pixels|)
      && forall i, c :: 0 <= i < cube.Nints() && 0 <= c < cube.ncols ==>
           RunRecorded(cube, r.pixels, i, c, r.table[i][c], TraceWindow(cube.ordPos[i][c], apRad, cube.nrows))
  {
    var colArrayPos, pixList, done, wins := CollectCube(cube, apRad);
    if |pixList| == 0 {
      return EmptyPixelList;
    }
    var pixels := FlattenRuns(pixList);
    var nints, ncols := colArrayPos.Length0, colArrayPos.Length1;
    var table := seq(nints, i requires 0 <= i < nints reads colArrayPos =>
      seq(ncols, c requires 0 <= c < ncols reads colArrayPos => colArrayPos[i, c]));
    forall i | 0 <= i < nints
      ensures table[i] == done[i]
    {
      assert forall c :: 0 <= c < ncols ==> table[i][c] == done[i][c];
    }
    assert table == done;
    AllIntegrationsCollected(cube, apRad, done, wins, pixList);
    r := Collected(pixels, table);
  }
}
