/**
 * Partitioned summation of a `rows x cols` matrix (the `workers02` exercise).
 *
 * The matrix is read as the flat row-major range of positions `[0, rows * cols)`.
 * The range is cut into chunks of `n % nthread + n / nthread` positions, one
 * `Worker` per chunk start `0, size, 2 * size, ...`; every worker adds up its
 * clipped chunk, and the results are added together after the joins.
 *
 * Workers only read the shared copy of the matrix and write their own `res`,
 * so running them one after another in list order is an exact sequential
 * stand-in for `start`/`join`. Element values are exact integers.
 */
module MatrixSum {

  /** The exceptions `sum` can raise. */
  datatype Failure = IndexOutOfBounds | DivisionByZero | IllegalArgument

  datatype Result<T> = Ok(value: T) | Err(failure: Failure)

  function Min(a: int, b: int): int
  {
    if a <= b then a else b
  }

  // ---------------------------------------------------------------------------
  // Arithmetic facts about multiplication and Euclidean division
  // ---------------------------------------------------------------------------

  lemma MulMonotone(a: int, b: int, c: nat)
    requires a <= b
    ensures a * c <= b * c
  {
    assert b * c - a * c == (b - a) * c;
  }

  /** Division by a positive divisor has exactly one quotient and remainder. */
  lemma DivModUnique(a: int, d: int, q: int, r: int)
    requires d > 0 && 0 <= r < d && a == q * d + r
    ensures a / d == q && a % d == r
  {
    var q', r' := a / d, a % d;
    assert a == q' * d + r';
    if q' < q {
      MulMonotone(q' + 1, q, d);
    } else if q < q' {
      MulMonotone(q + 1, q', d);
    }
  }

  /** For a positive divisor, `k * d <= a` exactly when `k <= a / d`. */
  lemma BelowQuotient(k: int, a: int, d: int)
    requires d > 0
    ensures k * d <= a <==> k <= a / d
  {
    var q := a / d;
    assert a == q * d + a % d;
    if k <= q {
      MulMonotone(k, q, d);
    } else {
      MulMonotone(q + 1, k, d);
      assert (q + 1) * d == q * d + d;
    }
  }

  // ---------------------------------------------------------------------------
  // Matrices and their reference sum
  // ---------------------------------------------------------------------------

  /** Every row of `m` holds exactly `cols` cells. */
  predicate Rectangular(m: seq<seq<int>>, cols: nat)
  {
    forall i :: 0 <= i < |m| ==> |m[i]| == cols
  }

  /** Every row of `m` holds at least `cols` cells, so reading `cols` cells of each row succeeds. */
  predicate CoversColumns(m: seq<seq<int>>, cols: nat)
  {
    forall i :: 0 <= i < |m| ==> cols <= |m[i]|
  }

  /** The first `cols` cells of every row of `m`: what the list-of-lists copy holds. */
  function Truncated(m: seq<seq<int>>, cols: nat): (t: seq<seq<int>>)
    requires CoversColumns(m, cols)
    ensures |t| == |m| && Rectangular(t, cols)
    ensures forall i, j :: 0 <= i < |t| && 0 <= j < cols ==> t[i][j] == m[i][j]
    ensures Rectangular(m, cols) ==> t == m
  {
    assert Rectangular(m, cols) ==> forall i :: 0 <= i < |m| ==> m[i][..cols] == m[i];
    seq(|m|, i requires 0 <= i < |m| => m[i][..cols])
  }

  /** The sum of one row. */
  function RowSum(row: seq<int>): int
  {
    if row == [] then 0 else RowSum(row[..|row| - 1]) + row[|row| - 1]
  }

  /** The sum of every cell, row by row: the reference the partitioned sum is compared with. */
  function Total(m: seq<seq<int>>): int
  {
    if m == [] then 0 else Total(m[..|m| - 1]) + RowSum(m[|m| - 1])
  }

  // ---------------------------------------------------------------------------
  // From flat positions to cells
  // ---------------------------------------------------------------------------

  /** The row of flat position `pos` (Java's `/` agrees with Dafny's on these operands). */
  function ComputeRow(pos: nat, columns: nat): (row: nat)
    requires columns > 0
    ensures row * columns <= pos < row * columns + columns
  {
    pos / columns
  }

  /** The column of flat position `pos` (Java's `%` agrees with Dafny's on these operands). */
  function ComputeColumn(pos: nat, columns: nat): (col: nat)
    requires columns > 0
    ensures col < columns && ComputeRow(pos, columns) * columns + col == pos
  {
    pos % columns
  }

  /** Every position of the flat range names a cell inside the matrix, and row and column give it back. */
  lemma CellOfPosition(pos: nat, rows: nat, cols: nat)
    requires cols > 0 && pos < rows * cols
    ensures ComputeRow(pos, cols) * cols + ComputeColumn(pos, cols) == pos
    ensures ComputeRow(pos, cols) < rows && ComputeColumn(pos, cols) < cols
  {
    var r := ComputeRow(pos, cols);
    assert pos == r * cols + pos % cols;
    if rows <= r {
      MulMonotone(rows, r, cols);
    }
  }

  /** Every cell has exactly one flat position: row and column recover it. */
  lemma PositionOfCell(row: nat, col: nat, cols: nat)
    requires col < cols
    ensures ComputeRow(row * cols + col, cols) == row
    ensures ComputeColumn(row * cols + col, cols) == col
  {
    DivModUnique(row * cols + col, cols, row, col);
  }

  /** The cell at flat position `pos`. */
  function Cell(m: seq<seq<int>>, cols: nat, pos: nat): int
    requires cols > 0 && Rectangular(m, cols) && pos < |m| * cols
  {
    CellOfPosition(pos, |m|, cols);
    m[ComputeRow(pos, cols)][ComputeColumn(pos, cols)]
  }

  /** The sum of the cells at flat positions `lo .. hi - 1`; empty when `hi <= lo`. */
  function RangeSum(m: seq<seq<int>>, cols: nat, lo: nat, hi: nat): int
    requires cols > 0 && Rectangular(m, cols) && (lo < hi ==> hi <= |m| * cols)
    decreases hi
  {
    if hi <= lo then 0 else RangeSum(m, cols, lo, hi - 1) + Cell(m, cols, hi - 1)
  }

  /** Adjacent ranges add up. */
  lemma {:induction false} RangeSumSplit(m: seq<seq<int>>, cols: nat, lo: nat, mid: nat, hi: nat)
    requires cols > 0 && Rectangular(m, cols)
    requires lo <= mid <= hi <= |m| * cols
    ensures RangeSum(m, cols, lo, hi) == RangeSum(m, cols, lo, mid) + RangeSum(m, cols, mid, hi)
    decreases hi
  {
    if mid < hi {
      RangeSumSplit(m, cols, lo, mid, hi - 1);
    }
  }

  /** The positions of row `r` sum to that row's cells. */
  lemma {:induction false} RowRange(m: seq<seq<int>>, cols: nat, r: nat, j: nat)
    requires cols > 0 && Rectangular(m, cols)
    requires r < |m| && j <= cols
    ensures r * cols + j <= |m| * cols
    ensures RangeSum(m, cols, r * cols, r * cols + j) == RowSum(m[r][..j])
  {
    MulMonotone(r + 1, |m|, cols);
    assert (r + 1) * cols == r * cols + cols;
    if j > 0 {
      RowRange(m, cols, r, j - 1);
      PositionOfCell(r, j - 1, cols);
      assert m[r][..j][..j - 1] == m[r][..j - 1];
    }
  }

  /** A range inside the first `k` rows only sees those rows. */
  lemma {:induction false} RangeInPrefix(m: seq<seq<int>>, cols: nat, k: nat, hi: nat)
    requires cols > 0 && Rectangular(m, cols)
    requires k <= |m| && hi <= k * cols
    ensures k * cols <= |m| * cols
    ensures RangeSum(m, cols, 0, hi) == RangeSum(m[..k], cols, 0, hi)
  {
    MulMonotone(k, |m|, cols);
    if hi > 0 {
      RangeInPrefix(m, cols, k, hi - 1);
      CellOfPosition(hi - 1, k, cols);
    }
  }

  /** Summing the whole flat range gives the row-by-row total. */
  lemma {:induction false} RangeSumIsTotal(m: seq<seq<int>>, cols: nat)
    requires cols > 0 && Rectangular(m, cols)
    ensures RangeSum(m, cols, 0, |m| * cols) == Total(m)
    decreases |m|
  {
    if m != [] {
      var k := |m| - 1;
      assert |m| * cols == k * cols + cols;
      RowRange(m, cols, k, cols);
      RangeSumSplit(m, cols, 0, k * cols, |m| * cols);
      RangeInPrefix(m, cols, k, k * cols);
      RangeSumIsTotal(m[..k], cols);
      assert m[k][..cols] == m[k];
    }
  }

  /** A matrix whose rows are all empty sums to zero. */
  lemma {:induction false} TotalOfEmptyRows(m: seq<seq<int>>)
    requires Rectangular(m, 0)
    ensures Total(m) == 0
  {
    if m != [] {
      TotalOfEmptyRows(m[..|m| - 1]);
      assert m[|m| - 1] == [];
    }
  }

  // ---------------------------------------------------------------------------
  // Chunks
  // ---------------------------------------------------------------------------

  /** The number of positions handed to each worker. */
  function ChunkSize(n: nat, nthread: nat): (size: nat)
    requires nthread > 0
    ensures size > 0 <==> n > 0
  {
    n % nthread + n / nthread
  }

  /** The number of chunk starts `0, size, 2 * size, ...` below `n`. */
  function ChunkCount(n: nat, size: nat): nat
    requires n > 0 ==> size > 0
  {
    if n == 0 then 0 else (n - 1) / size + 1
  }

  /** Chunk `k` exists exactly when its start `k * size` lies below `n`. */
  lemma ChunkStarts(n: nat, size: nat, k: nat)
    requires size > 0
    ensures k < ChunkCount(n, size) <==> k * size < n
  {
    if n > 0 {
      BelowQuotient(k, n - 1, size);
    } else {
      MulMonotone(0, k, size);
    }
  }

  /** There are never more chunks than threads. */
  lemma WorkerCountBound(n: nat, nthread: nat)
    requires nthread > 0
    ensures ChunkCount(n, ChunkSize(n, nthread)) <= nthread
  {
    if n > 0 {
      var size := ChunkSize(n, nthread);
      var q, r := n / nthread, n % nthread;
      assert n == nthread * q + r;
      assert nthread * size == nthread * q + nthread * r;
      MulMonotone(1, nthread, r);
      ChunkStarts(n, size, nthread);
    }
  }

  /** Position `pos` lies in chunk `k`, clipped at `n`. */
  predicate InChunk(n: nat, size: nat, k: nat, pos: nat)
  {
    k * size <= pos < Min(k * size + size, n)
  }

  /** Every position below `n` lies in exactly one chunk, chunk `pos / size`, and that chunk exists. */
  lemma ChunkOfPosition(n: nat, size: nat, k: nat, pos: nat)
    requires size > 0
    ensures InChunk(n, size, k, pos) <==> pos < n && k == pos / size
    ensures pos < n ==> pos / size < ChunkCount(n, size)
  {
    if InChunk(n, size, k, pos) {
      DivModUnique(pos, size, k, pos - k * size);
    }
    if pos < n {
      assert pos == (pos / size) * size + pos % size;
      ChunkStarts(n, size, pos / size);
    }
  }

  /** The sum one worker computes: its chunk, clipped at `n`. */
  function ChunkSum(m: seq<seq<int>>, cols: nat, size: nat, k: nat): int
    requires cols > 0 && Rectangular(m, cols)
  {
    MulMonotone(0, k, size);
    RangeSum(m, cols, k * size, Min(k * size + size, |m| * cols))
  }

  /** Adding chunk `i` to the sum of the chunks before it covers one more chunk. */
  lemma ChunkSumsAdd(m: seq<seq<int>>, cols: nat, size: nat, i: nat)
    requires cols > 0 && Rectangular(m, cols) && size > 0
    requires i * size < |m| * cols
    ensures RangeSum(m, cols, 0, i * size) + ChunkSum(m, cols, size, i)
         == RangeSum(m, cols, 0, Min((i + 1) * size, |m| * cols))
  {
    assert (i + 1) * size == i * size + size;
    RangeSumSplit(m, cols, 0, i * size, Min(i * size + size, |m| * cols));
  }

  // ---------------------------------------------------------------------------
  // Workers
  // ---------------------------------------------------------------------------

  /** A worker sums the positions `startpos .. startpos + nelem - 1` of the shared matrix. */
  class Worker {
    const matrix: seq<seq<int>>
    const startpos: nat
    const nelem: nat
    var res: int

    /** The shared matrix is a non-empty, non-degenerate rectangle, as `sum` builds it. */
    ghost predicate Valid()
    {
      |matrix| > 0 && |matrix[0]| > 0 && Rectangular(matrix, |matrix[0]|)
    }

    constructor (matrix: seq<seq<int>>, startpos: nat, nelem: nat)
      ensures this.matrix == matrix && this.startpos == startpos && this.nelem == nelem
      ensures res == 0
    {
      this.matrix := matrix;
      this.startpos := startpos;
      this.nelem := nelem;
      res := 0;
    }

    /** Adds the cells of its chunk, clipped at the end of the matrix, to `res`. */
    method Run()
      requires Valid()
      modifies this
      ensures res == old(res) + RangeSum(matrix, |matrix[0]|, startpos, Min(startpos + nelem, |matrix| * |matrix[0]|))
    {
      var rows := |matrix|;
      var cols := |matrix[0]|;
      var i := startpos;
      while i < rows * cols && i < startpos + nelem
        invariant startpos <= i
        invariant startpos < i ==> i <= rows * cols && i <= startpos + nelem
        invariant res == old(res) + RangeSum(matrix, cols, startpos, i)
        decreases rows * cols - i
      {
        CellOfPosition(i, rows, cols);
        res := res + matrix[ComputeRow(i, cols)][ComputeColumn(i, cols)];
        i := i + 1;
      }
    }

    function GetResult(): int
      reads this
    {
      res
    }
  }

  /** The workers are pairwise different objects. */
  ghost predicate Distinct(workers: seq<Worker>)
  {
    forall j, k :: 0 <= j < k < |workers| ==> workers[j] != workers[k]
  }

  // ---------------------------------------------------------------------------
  // The summation
  // ---------------------------------------------------------------------------

  class MultiThreadedSumMatrix {
    /** The number of threads performing the sum; nothing checks its sign here. */
    const nthread: int

    constructor (nthread: int)
      ensures this.nthread == nthread
    {
      this.nthread := nthread;
    }

    /**
     * The sum of every cell of `matrixInput`. Fails like the source, in its
     * order: no row 0, no threads (division by zero), a row shorter than row 0
     * (during the copy), then a negative thread count (the capacity of the
     * worker list).
     */
    method Sum(matrixInput: seq<seq<int>>) returns (r: Result<int>)
      ensures |matrixInput| == 0 ==> r == Err(IndexOutOfBounds)
      ensures |matrixInput| > 0 && nthread == 0 ==> r == Err(DivisionByZero)
      ensures |matrixInput| > 0 && nthread != 0 && !CoversColumns(matrixInput, |matrixInput[0]|) ==>
                r == Err(IndexOutOfBounds)
      ensures |matrixInput| > 0 && nthread < 0 && CoversColumns(matrixInput, |matrixInput[0]|) ==>
                r == Err(IllegalArgument)
      ensures |matrixInput| > 0 && nthread > 0 && CoversColumns(matrixInput, |matrixInput[0]|) ==>
                r == Ok(Total(Truncated(matrixInput, |matrixInput[0]|)))
      ensures |matrixInput| > 0 && nthread > 0 && Rectangular(matrixInput, |matrixInput[0]|) ==>
                r == Ok(Total(matrixInput))
    {
      if |matrixInput| == 0 {
        return Err(IndexOutOfBounds);
      }
      var rows := |matrixInput|;
      var cols := |matrixInput[0]|;
      if nthread == 0 {
        return Err(DivisionByZero);
      }
      var copied := CopyMatrix(matrixInput, cols);
      if copied.Err? {
        return Err(copied.failure);
      }
      if nthread < 0 {
        return Err(IllegalArgument);
      }
      // The chunk size of line 27 raises nothing once `nthread > 0`, so computing
      // it here rather than before the copy changes no outcome.
      var n := rows * cols;
      var size := ChunkSize(n, nthread);
      var matrix := copied.value;
      var workers := BuildWorkers(matrix, n, size);
      RunAll(workers, matrix, cols, size);
      var sum := JoinAll(workers, matrix, cols, size);
      if n == 0 {
        TotalOfEmptyRows(matrix);
      } else {
        RangeSumIsTotal(matrix, cols);
      }
      return Ok(sum);
    }
  }

  /** The list-of-lists copy: `cols` cells of every row, or the exception a short row raises. */
  method CopyMatrix(matrixInput: seq<seq<int>>, cols: nat) returns (r: Result<seq<seq<int>>>)
    ensures r.Err? <==> !CoversColumns(matrixInput, cols)
    ensures r.Err? ==> r.failure == IndexOutOfBounds
    ensures r.Ok? ==> CoversColumns(matrixInput, cols) && r.value == Truncated(matrixInput, cols)
  {
    var matrix: seq<seq<int>> := [];
    var i := 0;
    while i < |matrixInput|
      invariant 0 <= i <= |matrixInput| && |matrix| == i
      invariant forall k :: 0 <= k < i ==> cols <= |matrixInput[k]| && matrix[k] == matrixInput[k][..cols]
    {
      var row: seq<int> := [];
      var j := 0;
      while j < cols
        invariant 0 <= j <= cols && j <= |matrixInput[i]| && row == matrixInput[i][..j]
      {
        if j >= |matrixInput[i]| {
          return Err(IndexOutOfBounds);
        }
        row := row + [matrixInput[i][j]];
        j := j + 1;
      }
      matrix := matrix + [row];
      i := i + 1;
    }
    return Ok(matrix);
  }

  /** One fresh worker per chunk start `0, size, 2 * size, ...` below `n`, each with `res == 0`. */
  method BuildWorkers(matrix: seq<seq<int>>, n: nat, size: nat) returns (workers: seq<Worker>)
    requires n > 0 ==> size > 0
    ensures |workers| == ChunkCount(n, size) && Distinct(workers)
    ensures forall k :: 0 <= k < |workers| ==>
              fresh(workers[k]) && workers[k].matrix == matrix && workers[k].startpos == k * size
              && workers[k].nelem == size && workers[k].res == 0
  {
    workers := [];
    var start := 0;
    while start < n
      invariant start == |workers| * size && |workers| <= ChunkCount(n, size)
      invariant Distinct(workers)
      invariant forall k :: 0 <= k < |workers| ==>
                  fresh(workers[k]) && workers[k].matrix == matrix && workers[k].startpos == k * size
                  && workers[k].nelem == size && workers[k].res == 0
      decreases n - start
    {
      ChunkStarts(n, size, |workers|);
      var w := new Worker(matrix, start, size);
      workers := workers + [w];
      start := start + size;
    }
    if n > 0 {
      ChunkStarts(n, size, |workers|);
    }
  }

  /** Runs every worker once, in list order. */
  method RunAll(workers: seq<Worker>, m: seq<seq<int>>, cols: nat, size: nat)
    requires |workers| > 0 ==> |m| > 0 && cols == |m[0]| > 0 && Rectangular(m, cols)
    requires Distinct(workers)
    requires forall k :: 0 <= k < |workers| ==>
               workers[k].matrix == m && workers[k].startpos == k * size
               && workers[k].nelem == size && workers[k].res == 0
    modifies set k | 0 <= k < |workers| :: workers[k]
    ensures forall k :: 0 <= k < |workers| ==> workers[k].res == ChunkSum(m, cols, size, k)
  {
    var i := 0;
    while i < |workers|
      invariant 0 <= i <= |workers|
      invariant forall k :: 0 <= k < i ==> workers[k].res == ChunkSum(m, cols, size, k)
      invariant forall k :: i <= k < |workers| ==> workers[k].res == 0
    {
      workers[i].Run();
      i := i + 1;
    }
  }

  /** Waits for every worker in list order and adds up their results. */
  method JoinAll(workers: seq<Worker>, m: seq<seq<int>>, cols: nat, size: nat) returns (sum: int)
    requires |workers| > 0 ==>
               cols > 0 && Rectangular(m, cols) && size > 0 && |workers| == ChunkCount(|m| * cols, size)
    requires forall k :: 0 <= k < |workers| ==> workers[k].res == ChunkSum(m, cols, size, k)
    ensures |workers| == 0 ==> sum == 0
    ensures |workers| > 0 ==> sum == RangeSum(m, cols, 0, |m| * cols)
  {
    var n := |m| * cols;
    sum := 0;
    var i := 0;
    while i < |workers|
      invariant 0 <= i <= |workers|
      invariant |workers| > 0 ==> sum == RangeSum(m, cols, 0, Min(i * size, n))
      invariant |workers| == 0 ==> sum == 0
    {
      ChunkStarts(n, size, i);
      ChunkSumsAdd(m, cols, size, i);
      sum := sum + workers[i].GetResult();
      i := i + 1;
    }
    if |workers| > 0 {
      ChunkStarts(n, size, |workers|);
    }
  }
}
