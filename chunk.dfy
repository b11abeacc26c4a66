/** `processChunk`: for every query row of a clipped chunk, fill the distance
    records, copy the distances to the scratch buffer, sort the records and
    write the voted label into the row's last column, all in place. */
module Chunk {
  import opened Neighbours
  import opened Vote
  import opened Matrix

  /** One past the last row the chunk loop visits: the loop runs while
      `i < chunk_start + chunk_size && i < test_rows`. */
  function ChunkEnd(chunkStart: int, chunkSize: int, testRows: int): (end: int)
    ensures end <= chunkStart + chunkSize && end <= testRows
    ensures end == chunkStart + chunkSize || end == testRows
  {
    if chunkStart + chunkSize < testRows then chunkStart + chunkSize else testRows
  }

  /** How many query rows the chunk processes. */
  function ChunkRows(chunkStart: int, chunkSize: int, testRows: int): (n: nat)
    ensures n == 0 <==> chunkSize <= 0 || testRows <= chunkStart
    ensures n > 0 ==> n <= chunkSize && chunkStart + n <= testRows
    ensures n > 0 ==> n == chunkSize || chunkStart + n == testRows
  {
    var end := ChunkEnd(chunkStart, chunkSize, testRows);
    if end <= chunkStart then 0 else end - chunkStart
  }

  /** The rows `lo`, `lo + 1`, ..., `hi - 1`, in order. */
  function Iota(lo: int, hi: int): (s: seq<int>)
    decreases hi - lo
    ensures |s| == if hi <= lo then 0 else hi - lo
    ensures forall n :: 0 <= n < |s| ==> s[n] == lo + n
  {
    if hi <= lo then [] else Iota(lo, hi - 1) + [hi - 1]
  }

  /** `predicted` is what the classifier may write for query row `i`: the vote
      over the first `k` entries of SOME sorting of the row's distance
      records (the sort promises nothing about equal distances). */
  ghost predicate Classified(predicted: real, dims: Dims, train: seq<real>, test: seq<real>, i: int, k: int)
    requires Fits(dims, train, test) && 0 <= i < dims.testRows && 0 < dims.trainRows && k <= dims.trainRows
  {
    exists s :: |s| == dims.trainRows && IsSortingOf(s, QueryRecords(dims, train, test, i)) &&
      predicted == Majority(s, k) as real
  }

  /** The label written for a row is the label of one of the training rows:
      the classifier never invents a class. */
  lemma ClassifiedIsTrainingLabel(predicted: real, dims: Dims, train: seq<real>, test: seq<real>, i: int, k: int)
    requires Fits(dims, train, test) && LabelsAreClasses(dims, train)
    requires 0 <= i < dims.testRows && 0 < k <= dims.trainRows
    requires Classified(predicted, dims, train, test, i, k)
    ensures exists j :: 0 <= j < dims.trainRows && predicted == TrainLabel(dims, train, j)
  {
    var recs := QueryRecords(dims, train, test, i);
    var s :| |s| == dims.trainRows && IsSortingOf(s, recs) && predicted == Majority(s, k) as real;
    var votes := Labels(s[..k]);
    var q :| 0 <= q < |votes| && votes[q] == Majority(s, k);
    assert s[q] in multiset(recs);
    var j :| 0 <= j < |recs| && recs[j] == s[q];
    assert IsClassLabel(TrainLabel(dims, train, j));
  }

  /** With `k = 1` the label is that of a training row at the smallest distance. */
  lemma ClassifiedNearestWhenKIsOne(predicted: real, dims: Dims, train: seq<real>, test: seq<real>, i: int)
    requires Fits(dims, train, test) && LabelsAreClasses(dims, train)
    requires 0 <= i < dims.testRows && 0 < dims.trainRows
    requires Classified(predicted, dims, train, test, i, 1)
    ensures exists j :: (0 <= j < dims.trainRows && predicted == TrainLabel(dims, train, j) &&
                        forall j' :: 0 <= j' < dims.trainRows ==>
                          RowDistance(dims, train, test, i, j) <= RowDistance(dims, train, test, i, j'))
  {
    var recs := QueryRecords(dims, train, test, i);
    var s :| |s| == dims.trainRows && IsSortingOf(s, recs) && predicted == Majority(s, 1) as real;
    MajorityOfOne(s);
    NearestComesFirst(s, recs);
    var j :| 0 <= j < |recs| && recs[j] == s[0];
    assert IsClassLabel(TrainLabel(dims, train, j));
    assert forall j' :: 0 <= j' < dims.trainRows ==> recs[j].value <= recs[j'].value;
  }

  /** Entries of earlier rows lie before every entry of a later row. */
  lemma IdxBeforeRow(r: int, c: int, row: int, c': int, rows: int, cols: int)
    requires 0 <= r < row < rows && 0 <= c < cols && 0 <= c' < cols
    ensures Idx(r, c, rows, cols) < row * cols <= Idx(row, c', rows, cols)
  {
    MulMonotone(r + 1, row, cols);
  }

  /** Position of the label (last) column of row `r`. */
  function LabelIdx(r: int, rows: int, cols: int): int
    requires 0 <= r < rows && 0 < cols
  {
    Idx(r, cols - 1, rows, cols)
  }

  /** Query records depend only on the features of their own query row. */
  lemma QueryRecordsFrame(dims: Dims, train: seq<real>, t1: seq<real>, t2: seq<real>, i: int)
    requires Fits(dims, train, t1) && Fits(dims, train, t2) && 0 <= i < dims.testRows
    requires forall c :: 0 <= c < dims.testCols - 1 ==>
      t1[Idx(i, c, dims.testRows, dims.testCols)] == t2[Idx(i, c, dims.testRows, dims.testCols)]
    ensures QueryRecords(dims, train, t1, i) == QueryRecords(dims, train, t2, i)
    ensures forall j :: 0 <= j < dims.trainRows ==> RowDistance(dims, train, t1, i, j) == RowDistance(dims, train, t2, i, j)
  {
    var n := dims.testCols - 1;
    assert Features(t1, i, dims.testRows, dims.testCols, n) == Features(t2, i, dims.testRows, dims.testCols, n);
  }

  /** `after` differs from `before` at most in the `n` positions from `from`. */
  ghost predicate OnlyChangedIn(before: seq<real>, after: seq<real>, from: int, n: int)
    requires 0 <= from && 0 <= n && from + n <= |before|
  {
    |after| == |before| && after[..from] == before[..from] && after[from + n..] == before[from + n..]
  }

  /** The `j` loop of `processChunk`: record `j` and scratch entry `base + j`
      receive the distance from query row `i` to training row `j`. */
  method FillRecords(train: array<real>, test: array<real>, dims: Dims, i: int,
                     pointDistances: array<real>, base: int, distances: array<ValueIndexPair>)
    requires pointDistances != train && pointDistances != test
    requires Fits(dims, train[..], test[..]) && 0 <= i < dims.testRows
    requires distances.Length == dims.trainRows
    requires 0 <= base && base + dims.trainRows <= pointDistances.Length
    modifies pointDistances, distances
    ensures distances[..] == QueryRecords(dims, train[..], test[..], i)
    ensures forall q :: 0 <= q < dims.trainRows ==> pointDistances[base + q] == RowDistance(dims, train[..], test[..], i, q)
    ensures OnlyChangedIn(old(pointDistances[..]), pointDistances[..], base, dims.trainRows)
  {
    ghost var recs := QueryRecords(dims, train[..], test[..], i);
    var j := 0;
    while j < dims.trainRows
      invariant 0 <= j <= dims.trainRows
      invariant forall q :: 0 <= q < j ==> distances[q] == recs[q]
      invariant forall q :: 0 <= q < j ==> pointDistances[base + q] == RowDistance(dims, train[..], test[..], i, q)
      invariant forall p :: 0 <= p < pointDistances.Length && !(base <= p < base + j) ==>
        pointDistances[p] == old(pointDistances[p])
    {
      var dist := RowSquaredDistance(train, test, dims, i, j);
      pointDistances[base + j] := dist;
      distances[j] := ValueIndexPair(dist, j, TrainLabel(dims, train[..], j).Floor);
      j := j + 1;
    }
    assert distances[..] == recs;
  }

  /** Every record of a sorting of a query row's records carries a class the
      vote can count. */
  lemma SortedLabelsAreClasses(s: seq<ValueIndexPair>, dims: Dims, train: seq<real>, test: seq<real>, i: int)
    requires Fits(dims, train, test) && LabelsAreClasses(dims, train) && 0 <= i < dims.testRows
    requires multiset(s) == multiset(QueryRecords(dims, train, test, i))
    ensures forall q :: 0 <= q < |s| ==> 0 <= s[q].cls < CLASS_SLOTS
  {
    var recs := QueryRecords(dims, train, test, i);
    forall q | 0 <= q < |s|
      ensures 0 <= s[q].cls < CLASS_SLOTS
    {
      assert s[q] in multiset(recs);
      var j :| 0 <= j < |recs| && recs[j] == s[q];
      assert IsClassLabel(TrainLabel(dims, train, j));
    }
  }

  /** The body of the row loop of `processChunk` up to the vote: fills record
      `j` and scratch entry `base + j` with the distance to training row `j`,
      sorts the records and votes over the first `k`. */
  method ClassifyRow(train: array<real>, test: array<real>, dims: Dims, i: int, k: int,
                     pointDistances: array<real>, base: int, distances: array<ValueIndexPair>)
    returns (predicted: int)
    requires pointDistances != train && pointDistances != test
    requires Fits(dims, train[..], test[..]) && LabelsAreClasses(dims, train[..])
    requires 0 <= i < dims.testRows && 0 < dims.trainRows && k <= dims.trainRows
    requires distances.Length == dims.trainRows
    requires 0 <= base && base + dims.trainRows <= pointDistances.Length
    modifies pointDistances, distances
    ensures IsSortingOf(distances[..], QueryRecords(dims, train[..], test[..], i))
    ensures predicted == Majority(distances[..], k)
    ensures forall q :: 0 <= q < dims.trainRows ==> pointDistances[base + q] == RowDistance(dims, train[..], test[..], i, q)
    ensures OnlyChangedIn(old(pointDistances[..]), pointDistances[..], base, dims.trainRows)
  {
    FillRecords(train, test, dims, i, pointDistances, base, distances);
    SortByDistance(distances);
    SortedLabelsAreClasses(distances[..], dims, train[..], test[..], i);
    predicted := FindMostFrequentWithTieBreak(distances, k);
  }

  /** No feature column of `t` differs from `t0`. */
  ghost predicate FeaturesKept(t: seq<real>, t0: seq<real>, rows: int, cols: int)
    requires |t| == rows * cols && |t0| == rows * cols
  {
    forall r, c :: 0 <= r < rows && 0 <= c < cols - 1 ==> t[Idx(r, c, rows, cols)] == t0[Idx(r, c, rows, cols)]
  }

  /** The label columns of rows outside [`lo`, `hi`) are as in `t0`. */
  ghost predicate LabelsKeptOutside(t: seq<real>, t0: seq<real>, rows: int, cols: int, lo: int, hi: int)
    requires 0 < cols && |t| == rows * cols && |t0| == rows * cols
  {
    forall r :: 0 <= r < rows && !(lo <= r < hi) ==> t[LabelIdx(r, rows, cols)] == t0[LabelIdx(r, rows, cols)]
  }

  /** Every row in [`lo`, `hi`) of `t` carries a label the classifier may
      produce for that row of the original query matrix `t0`. */
  ghost predicate RowsClassified(t: seq<real>, dims: Dims, train: seq<real>, t0: seq<real>, lo: int, hi: int, k: int)
    requires Fits(dims, train, t0) && |t| == |t0| && 0 <= lo && (lo < hi ==> hi <= dims.testRows)
    requires lo < hi ==> 0 < dims.trainRows && k <= dims.trainRows
  {
    forall r :: lo <= r < hi ==> Classified(t[LabelIdx(r, dims.testRows, dims.testCols)], dims, train, t0, r, k)
  }

  /** Writing row `i`'s label extends the classified range by one row and
      touches nothing else. */
  lemma WriteLabelStep(t: seq<real>, dims: Dims, train: seq<real>, t0: seq<real>, lo: int, i: int, k: int, v: real)
    requires Fits(dims, train, t0) && |t| == |t0| && 0 <= lo <= i < dims.testRows
    requires 0 < dims.trainRows && k <= dims.trainRows
    requires FeaturesKept(t, t0, dims.testRows, dims.testCols)
    requires LabelsKeptOutside(t, t0, dims.testRows, dims.testCols, lo, i)
    requires RowsClassified(t, dims, train, t0, lo, i, k)
    requires Classified(v, dims, train, t0, i, k)
    ensures var t' := t[LabelIdx(i, dims.testRows, dims.testCols) := v];
      FeaturesKept(t', t0, dims.testRows, dims.testCols) &&
      LabelsKeptOutside(t', t0, dims.testRows, dims.testCols, lo, i + 1) &&
      RowsClassified(t', dims, train, t0, lo, i + 1, k)
  {
    var rows, cols := dims.testRows, dims.testCols;
    forall r, c | 0 <= r < rows && 0 <= c < cols && (r != i || c != cols - 1)
      ensures Idx(r, c, rows, cols) != LabelIdx(i, rows, cols)
    {
      if Idx(r, c, rows, cols) == LabelIdx(i, rows, cols) {
        IdxInjective(r, c, i, cols - 1, rows, cols);
      }
    }
  }

  /** The first `n` rows of the scratch buffer (of `rows` rows) hold the
      distances of query rows `lo`, ..., `lo + n - 1`. */
  ghost predicate ScratchFilled(pd: seq<real>, dims: Dims, train: seq<real>, t0: seq<real>, lo: int, n: int, rows: int)
    requires Fits(dims, train, t0) && 0 <= lo && 0 <= n <= rows && lo + rows <= dims.testRows
    requires |pd| >= rows * dims.trainRows
  {
    MulMonotone(rows, rows, dims.trainRows);
    forall r, j :: 0 <= r < n && 0 <= j < dims.trainRows ==>
      pd[Idx(r, j, rows, dims.trainRows)] == RowDistance(dims, train, t0, lo + r, j)
  }

  /** Filling scratch row `n` after rows `0 .. n-1` extends the filled prefix. */
  lemma ScratchStep(before: seq<real>, after: seq<real>, dims: Dims, train: seq<real>, t0: seq<real>,
                    lo: int, n: int, rows: int)
    requires Fits(dims, train, t0) && 0 <= lo && 0 <= n < rows && lo + rows <= dims.testRows
    requires 0 < dims.trainRows && |before| == |after| >= rows * dims.trainRows
    requires ScratchFilled(before, dims, train, t0, lo, n, rows)
    requires forall p :: 0 <= p < Idx(n, 0, rows, dims.trainRows) ==> after[p] == before[p]
    requires forall q :: 0 <= q < dims.trainRows ==>
      after[Idx(n, q, rows, dims.trainRows)] == RowDistance(dims, train, t0, lo + n, q)
    ensures ScratchFilled(after, dims, train, t0, lo, n + 1, rows)
  {
    forall r, j | 0 <= r < n + 1 && 0 <= j < dims.trainRows
      ensures after[Idx(r, j, rows, dims.trainRows)] == RowDistance(dims, train, t0, lo + r, j)
    {
      if r < n {
        IdxBeforeRow(r, j, n, 0, rows, dims.trainRows);
      }
    }
  }

  /** What the row loop of `processChunk` has achieved once rows [`lo`, `i`)
      of a chunk of `rows` rows are done, relative to the query matrix `t0` and
      the scratch buffer `pd0` at the start of the chunk. */
  ghost predicate ChunkProgress(t: seq<real>, pd: seq<real>, pd0: seq<real>, dims: Dims, train: seq<real>,
                                t0: seq<real>, lo: int, i: int, rows: int, k: int)
    requires Fits(dims, train, t0) && |t| == |t0| && 0 <= lo <= i <= lo + rows
    requires 0 < rows ==> lo + rows <= dims.testRows && 0 < dims.trainRows && k <= dims.trainRows
    requires |pd| == |pd0| >= rows * dims.trainRows
  {
    FeaturesKept(t, t0, dims.testRows, dims.testCols) &&
    LabelsKeptOutside(t, t0, dims.testRows, dims.testCols, lo, i) &&
    RowsClassified(t, dims, train, t0, lo, i, k) &&
    (0 < rows ==> ScratchFilled(pd, dims, train, t0, lo, i - lo, rows)) &&
    forall p :: (i - lo) * dims.trainRows <= p < |pd| ==> pd[p] == pd0[p]
  }

  /** Row `i` classified with label `v` and its distances written to scratch
      row `i - lo`: the progress of the row loop extends by one row. */
  lemma RowStep(t: seq<real>, t': seq<real>, before: seq<real>, after: seq<real>, pd0: seq<real>,
                dims: Dims, train: seq<real>, t0: seq<real>, lo: int, i: int, rows: int, k: int, v: real, base: int)
    requires Fits(dims, train, t0) && |t| == |t0| && 0 <= lo <= i < lo + rows <= dims.testRows
    requires 0 < dims.trainRows && k <= dims.trainRows
    requires |before| == |after| == |pd0| >= rows * dims.trainRows
    requires ChunkProgress(t, before, pd0, dims, train, t0, lo, i, rows, k)
    requires Classified(v, dims, train, t0, i, k)
    requires t' == t[LabelIdx(i, dims.testRows, dims.testCols) := v]
    requires base == Idx(i - lo, 0, rows, dims.trainRows) && base + dims.trainRows <= |after|
    requires forall q :: 0 <= q < dims.trainRows ==> after[base + q] == RowDistance(dims, train, t0, i, q)
    requires OnlyChangedIn(before, after, base, dims.trainRows)
    ensures ChunkProgress(t', after, pd0, dims, train, t0, lo, i + 1, rows, k)
  {
    WriteLabelStep(t, dims, train, t0, lo, i, k, v);
    ScratchStep(before, after, dims, train, t0, lo, i - lo, rows);
    assert (i + 1 - lo) * dims.trainRows == base + dims.trainRows;
  }

  /** One iteration of the row loop of `processChunk`: classify query row `i`
      (scratch row `i - lo` receives its distances) and write the label into
      its last column. */
  method ProcessRow(train: array<real>, test: array<real>, dims: Dims, i: int, k: int,
                    pointDistances: array<real>, distances: array<ValueIndexPair>,
                    ghost pd0: seq<real>, ghost t0: seq<real>, lo: int, rows: int)
    returns (ghost w: seq<int>)
    requires train != test && pointDistances != train && pointDistances != test
    requires Fits(dims, train[..], t0) && |test[..]| == |t0| && LabelsAreClasses(dims, train[..])
    requires 0 <= lo <= i < lo + rows <= dims.testRows
    requires 0 < dims.trainRows && k <= dims.trainRows && distances.Length == dims.trainRows
    requires pointDistances.Length == |pd0| >= rows * dims.trainRows
    requires ChunkProgress(test[..], pointDistances[..], pd0, dims, train[..], t0, lo, i, rows, k)
    modifies test, pointDistances, distances
    ensures ChunkProgress(test[..], pointDistances[..], pd0, dims, train[..], t0, lo, i + 1, rows, k)
    ensures w == [i]
    ensures OnlyChangedIn(old(test[..]), test[..], LabelIdx(i, dims.testRows, dims.testCols), 1)
  {
    var base := Idx(i - lo, 0, rows, dims.trainRows);
    MulMonotone(i - lo + 1, rows, dims.trainRows);
    assert base + dims.trainRows <= pointDistances.Length;
    assert forall c :: 0 <= c < dims.testCols - 1 ==>
      test[Idx(i, c, dims.testRows, dims.testCols)] == t0[Idx(i, c, dims.testRows, dims.testCols)];
    QueryRecordsFrame(dims, train[..], test[..], t0, i);
    ghost var before := pointDistances[..];
    var predicted := ClassifyRow(train, test, dims, i, k, pointDistances, base, distances);
    assert Classified(predicted as real, dims, train[..], t0, i, k);
    ghost var t := test[..];
    test[LabelIdx(i, dims.testRows, dims.testCols)] := predicted as real;
    w := [i];
    RowStep(t, test[..], before, pointDistances[..], pd0, dims, train[..], t0, lo, i, rows, k, predicted as real, base);
  }

  /** `processChunk`, with the unused `test_index` argument of the vote dropped. */
  method ProcessChunk(train: array<real>, test: array<real>, trainRows: int, testRows: int,
                      trainCols: int, testCols: int, pointDistances: array<real>, k: int,
                      chunkStart: int, chunkSize: int)
    returns (ghost written: seq<int>)
    requires train != test && pointDistances != train && pointDistances != test
    requires Fits(Dims(trainRows, trainCols, testRows, testCols), train[..], test[..])
    requires LabelsAreClasses(Dims(trainRows, trainCols, testRows, testCols), train[..])
    requires 0 <= chunkStart
    requires ChunkRows(chunkStart, chunkSize, testRows) > 0 ==>
      0 < trainRows && k <= trainRows &&
      ChunkRows(chunkStart, chunkSize, testRows) * trainRows <= pointDistances.Length
    modifies test, pointDistances
    ensures written == Iota(chunkStart, chunkStart + ChunkRows(chunkStart, chunkSize, testRows))
    ensures FeaturesKept(test[..], old(test[..]), testRows, testCols)
    ensures LabelsKeptOutside(test[..], old(test[..]), testRows, testCols,
                              chunkStart, chunkStart + ChunkRows(chunkStart, chunkSize, testRows))
    ensures RowsClassified(test[..], Dims(trainRows, trainCols, testRows, testCols), train[..], old(test[..]),
                           chunkStart, chunkStart + ChunkRows(chunkStart, chunkSize, testRows), k)
    ensures ChunkRows(chunkStart, chunkSize, testRows) > 0 ==>
      ScratchFilled(pointDistances[..], Dims(trainRows, trainCols, testRows, testCols), train[..], old(test[..]),
                    chunkStart, ChunkRows(chunkStart, chunkSize, testRows), ChunkRows(chunkStart, chunkSize, testRows))
    ensures forall p :: ChunkRows(chunkStart, chunkSize, testRows) * trainRows <= p < pointDistances.Length ==>
      pointDistances[p] == old(pointDistances[p])
  {
    var dims := Dims(trainRows, trainCols, testRows, testCols);
    var rows := ChunkRows(chunkStart, chunkSize, testRows);
    ghost var t0 := test[..];
    ghost var pd0 := pointDistances[..];
    var distances := new ValueIndexPair[trainRows];
    written := [];
    var i := chunkStart;
    while i < chunkStart + chunkSize && i < testRows
      invariant chunkStart <= i <= chunkStart + rows
      invariant written == Iota(chunkStart, i)
      invariant |test[..]| == |t0| && |pointDistances[..]| == |pd0|
      invariant ChunkProgress(test[..], pointDistances[..], pd0, dims, train[..], t0, chunkStart, i, rows, k)
    {
      var w := ProcessRow(train, test, dims, i, k, pointDistances, distances, pd0, t0, chunkStart, rows);
      written := written + w;
      i := i + 1;
    }
  }
}
