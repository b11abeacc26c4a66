/** The flat row-major point matrices, the squared Euclidean distance between
    a query row and a training row, and the distance records built for one
    query row. Doubles are modelled as reals. */
module Matrix {
  import opened Neighbours
  import Vote

  /** The four shape parameters `processChunk` receives. */
  datatype Dims = Dims(trainRows: int, trainCols: int, testRows: int, testCols: int)

  /** Both buffers are laid out row-major with the stated shapes, every row has
      a label column, and the query rows have no more columns than the
      training rows (the distance reads `test_cols - 1` columns of each). */
  ghost predicate Fits(dims: Dims, train: seq<real>, test: seq<real>)
  {
    0 <= dims.trainRows && 0 <= dims.testRows && 1 <= dims.testCols <= dims.trainCols &&
    |train| == dims.trainRows * dims.trainCols && |test| == dims.testRows * dims.testCols
  }

  lemma MulMonotone(a: int, b: int, c: int)
    requires 0 <= a <= b && 0 <= c
    ensures 0 <= a * c <= b * c
  {
  }

  /** Position of entry (`row`, `col`) in a row-major buffer of `rows` x `cols`. */
  function Idx(row: int, col: int, rows: int, cols: int): (p: int)
    requires 0 <= row < rows && 0 <= col < cols
    ensures 0 <= p < rows * cols
  {
    MulMonotone(row, rows - 1, cols);
    row * cols + col
  }

  /** Different (row, column) pairs occupy different buffer positions. */
  lemma IdxInjective(r1: int, c1: int, r2: int, c2: int, rows: int, cols: int)
    requires 0 <= r1 < rows && 0 <= c1 < cols && 0 <= r2 < rows && 0 <= c2 < cols
    requires Idx(r1, c1, rows, cols) == Idx(r2, c2, rows, cols)
    ensures r1 == r2 && c1 == c2
  {
    if r1 < r2 {
      MulMonotone(r1 + 1, r2, cols);
    } else if r2 < r1 {
      MulMonotone(r2 + 1, r1, cols);
    }
  }

  /** The first `n` columns of row `row`. */
  function Features(m: seq<real>, row: int, rows: int, cols: int, n: int): (f: seq<real>)
    requires |m| == rows * cols && 0 <= row < rows && 0 <= n <= cols
    ensures |f| == n
  {
    seq(n, d requires 0 <= d < n => m[Idx(row, d, rows, cols)])
  }

  /** Sum of `(x[d] - y[d])^2` over `d < n`. */
  function SquaredDistance(x: seq<real>, y: seq<real>, n: nat): (r: real)
    requires n <= |x| && n <= |y|
    ensures r >= 0.0
  {
    if n == 0 then 0.0
    else
      var diff := x[n - 1] - y[n - 1];
      SquaredDistance(x, y, n - 1) + diff * diff
  }

  /** Squared distance from query row `i` to training row `j`, over the first
      `test_cols - 1` columns (the features; the last column is the label). */
  ghost function RowDistance(dims: Dims, train: seq<real>, test: seq<real>, i: int, j: int): real
    requires Fits(dims, train, test) && 0 <= i < dims.testRows && 0 <= j < dims.trainRows
  {
    var n := dims.testCols - 1;
    SquaredDistance(Features(test, i, dims.testRows, dims.testCols, n),
                    Features(train, j, dims.trainRows, dims.trainCols, n), n)
  }

  /** The label stored in the last column of training row `j`. */
  function TrainLabel(dims: Dims, train: seq<real>, j: int): real
    requires 0 <= j < dims.trainRows && 1 <= dims.trainCols && |train| == dims.trainRows * dims.trainCols
  {
    train[Idx(j, dims.trainCols - 1, dims.trainRows, dims.trainCols)]
  }

  /** The label can index the vote's count array: a whole number in [0, 99). */
  predicate IsClassLabel(x: real)
  {
    x == x.Floor as real && 0 <= x.Floor < Vote.CLASS_SLOTS
  }

  ghost predicate LabelsAreClasses(dims: Dims, train: seq<real>)
    requires 0 <= dims.trainRows && 1 <= dims.trainCols && |train| == dims.trainRows * dims.trainCols
  {
    forall j :: 0 <= j < dims.trainRows ==> IsClassLabel(TrainLabel(dims, train, j))
  }

  /** The records filled in for query row `i` before sorting: record `j`
      holds the distance to training row `j`, `j` itself and that row's label. */
  ghost function QueryRecords(dims: Dims, train: seq<real>, test: seq<real>, i: int): (recs: seq<ValueIndexPair>)
    requires Fits(dims, train, test) && 0 <= i < dims.testRows
    ensures |recs| == dims.trainRows
    ensures forall j :: 0 <= j < dims.trainRows ==>
      recs[j] == ValueIndexPair(RowDistance(dims, train, test, i, j), j, TrainLabel(dims, train, j).Floor)
  {
    seq(dims.trainRows, j requires 0 <= j < dims.trainRows =>
      ValueIndexPair(RowDistance(dims, train, test, i, j), j, TrainLabel(dims, train, j).Floor))
  }

  /** The innermost loop of `processChunk`: accumulates the squared differences
      of the feature columns of query row `i` and training row `j`. */
  method RowSquaredDistance(train: array<real>, test: array<real>, dims: Dims, i: int, j: int)
    returns (dist: real)
    requires Fits(dims, train[..], test[..])
    requires 0 <= i < dims.testRows && 0 <= j < dims.trainRows
    ensures dist == RowDistance(dims, train[..], test[..], i, j)
  {
    ghost var x := Features(test[..], i, dims.testRows, dims.testCols, dims.testCols - 1);
    ghost var y := Features(train[..], j, dims.trainRows, dims.trainCols, dims.testCols - 1);
    dist := 0.0;
    var d := 0;
    while d < dims.testCols - 1
      invariant 0 <= d <= dims.testCols - 1
      invariant dist == SquaredDistance(x, y, d)
    {
      var diff := test[Idx(i, d, dims.testRows, dims.testCols)] - train[Idx(j, d, dims.trainRows, dims.trainCols)];
      dist := dist + diff * diff;
      d := d + 1;
    }
  }
}
