/** The ragged array shared by pixel collection and flux normalisation: a flat list of
    pixel samples plus an index table `col_array_pos[integration, col] = (start, count)`
    that locates each column's run of samples inside the flat list. */
module RaggedTable {

  /** One row of the flat pixel list: the pixel row's offset from the trace position,
      the pixel's flux and variance, and the column the pixel came from. */
  datatype Sample = Sample(offset: real, flux: real, variance: real, col: int)

  /** One entry of the index table: where a column's run starts in the flat list, and
      how many samples it holds. */
  datatype Slot = Slot(start: int, count: nat)

  /** Total count of the slots of one table row (one integration). */
  function CountSum(row: seq<Slot>): nat
  {
    if row == [] then 0 else CountSum(row[..|row| - 1]) + row[|row| - 1].count
  }

  /** Total count of all slots of a table, rows taken in order. */
  function TableTotal(table: seq<seq<Slot>>): nat
  {
    if table == [] then 0 else TableTotal(table[..|table| - 1]) + CountSum(table[|table| - 1])
  }

  /** The number of samples recorded before slot `(i, c)` when the table is walked
      integration-major, column-minor. */
  function Offset(table: seq<seq<Slot>>, i: int, c: int): nat
    requires 0 <= i < |table| && 0 <= c <= |table[i]|
  {
    TableTotal(table[..i]) + CountSum(table[i][..c])
  }

  /** The table tiles a flat list of `n` samples: each slot starts where the slots before
      it (integration-major) end, so runs are contiguous, in order and without gaps, and
      together they hold exactly `n` samples. */
  predicate Tiled(table: seq<seq<Slot>>, n: int)
  {
    && TableTotal(table) == n
    && forall i, c :: 0 <= i < |table| && 0 <= c < |table[i]| ==>
         table[i][c].start == Offset(table, i, c) && table[i][c].start + table[i][c].count <= n
  }

  /** Extending a row prefix by one slot adds that slot's count. */
  lemma {:induction false} CountSumStep(row: seq<Slot>, c: int)
    requires 0 <= c < |row|
    ensures CountSum(row[..c + 1]) == CountSum(row[..c]) + row[c].count
  {
    assert row[..c + 1][..c] == row[..c];
  }

  /** Row prefix sums never decrease. */
  lemma {:induction false} CountSumMonotone(row: seq<Slot>, c: int, d: int)
    requires 0 <= c <= d <= |row|
    ensures CountSum(row[..c]) <= CountSum(row[..d])
    decreases d - c
  {
    if c < d {
      CountSumStep(row, d - 1);
      CountSumMonotone(row, c, d - 1);
    }
  }

  /** Extending a table prefix by one row adds that row's total. */
  lemma {:induction false} TableTotalStep(table: seq<seq<Slot>>, i: int)
    requires 0 <= i < |table|
    ensures TableTotal(table[..i + 1]) == TableTotal(table[..i]) + CountSum(table[i])
  {
    assert table[..i + 1][..i] == table[..i];
  }

  /** Table prefix totals never decrease. */
  lemma {:induction false} TableTotalMonotone(table: seq<seq<Slot>>, i: int, j: int)
    requires 0 <= i <= j <= |table|
    ensures TableTotal(table[..i]) <= TableTotal(table[..j])
    decreases j - i
  {
    if i < j {
      TableTotalStep(table, j - 1);
      TableTotalMonotone(table, i, j - 1);
    }
  }

  /** Slot `(i, c)` ends where the next slot of its row starts, and no later than the
      end of its whole row. */
  lemma {:induction false} RunEnd(table: seq<seq<Slot>>, i: int, c: int)
    requires 0 <= i < |table| && 0 <= c < |table[i]|
    ensures Offset(table, i, c) + table[i][c].count == Offset(table, i, c + 1)
    ensures Offset(table, i, c + 1) <= TableTotal(table[..i + 1])
  {
    CountSumStep(table[i], c);
    CountSumMonotone(table[i], c + 1, |table[i]|);
    assert table[i][..|table[i]|] == table[i];
    TableTotalStep(table, i);
  }

  /** In a tiled table a run ends no later than any run that comes after it
      integration-major: runs are disjoint and appear in emission order. */
  lemma {:induction false} RunsInOrder(table: seq<seq<Slot>>, n: int, i: int, c: int, i2: int, c2: int)
    requires Tiled(table, n)
    requires 0 <= i < |table| && 0 <= c < |table[i]|
    requires 0 <= i2 < |table| && 0 <= c2 < |table[i2]|
    requires i < i2 || (i == i2 && c < c2)
    ensures table[i][c].start + table[i][c].count <= table[i2][c2].start
  {
    RunEnd(table, i, c);
    if i == i2 {
      CountSumMonotone(table[i], c + 1, c2);
    } else {
      TableTotalMonotone(table, i + 1, i2);
      CountSumMonotone(table[i2], 0, c2);
    }
  }

  /** Starting offsets never decrease over the whole table, across integrations too. */
  lemma {:induction false} StartsNonDecreasing(table: seq<seq<Slot>>, n: int, i: int, c: int, i2: int, c2: int)
    requires Tiled(table, n)
    requires 0 <= i < |table| && 0 <= c < |table[i]|
    requires 0 <= i2 < |table| && 0 <= c2 < |table[i2]|
    requires i < i2 || (i == i2 && c <= c2)
    ensures table[i][c].start <= table[i2][c2].start
  {
    if i != i2 || c != c2 {
      RunsInOrder(table, n, i, c, i2, c2);
    }
  }

  /** A row prefix sum that exceeds `x` has a slot whose run contains `x`. */
  lemma {:induction false} SlotContaining(row: seq<Slot>, x: int)
    requires 0 <= x < CountSum(row)
    ensures exists c :: 0 <= c < |row| && CountSum(row[..c]) <= x < CountSum(row[..c]) + row[c].count
  {
    var c := |row| - 1;
    assert row[..c + 1] == row;
    CountSumStep(row, c);
    if x < CountSum(row[..c]) {
      SlotContaining(row[..c], x);
      var c' :| 0 <= c' < c && CountSum(row[..c][..c']) <= x < CountSum(row[..c][..c']) + row[..c][c'].count;
      assert row[..c][..c'] == row[..c'];
    }
  }

  /** A table total that exceeds `x` has a row whose samples contain position `x`. */
  lemma {:induction false} RowContaining(table: seq<seq<Slot>>, x: int)
    requires 0 <= x < TableTotal(table)
    ensures exists i :: 0 <= i < |table| && TableTotal(table[..i]) <= x < TableTotal(table[..i]) + CountSum(table[i])
  {
    var i := |table| - 1;
    assert table[..i + 1] == table;
    TableTotalStep(table, i);
    if x < TableTotal(table[..i]) {
      RowContaining(table[..i], x);
      var i' :| 0 <= i' < i && TableTotal(table[..i][..i']) <= x < TableTotal(table[..i][..i']) + CountSum(table[..i][i']);
      assert table[..i][..i'] == table[..i'];
    }
  }

  /** Every position of a flat list tiled by the table lies in some slot's run:
      the runs leave no gaps. */
  lemma {:induction false} RunsCover(table: seq<seq<Slot>>, n: int, j: int)
    requires Tiled(table, n) && 0 <= j < n
    ensures exists i, c ::
      && 0 <= i < |table| && 0 <= c < |table[i]|
      && table[i][c].start <= j < table[i][c].start + table[i][c].count
  {
    RowContaining(table, j);
    var i :| 0 <= i < |table| && TableTotal(table[..i]) <= j < TableTotal(table[..i]) + CountSum(table[i]);
    SlotContaining(table[i], j - TableTotal(table[..i]));
    var c :| 0 <= c < |table[i]| &&
      CountSum(table[i][..c]) <= j - TableTotal(table[..i]) < CountSum(table[i][..c]) + table[i][c].count;
    assert table[i][c].start == Offset(table, i, c);
  }
}
