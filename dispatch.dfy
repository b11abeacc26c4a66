/** The chunk loop of `main`: query rows are split into consecutive chunks of
    at most `CHUNK_SIZE` rows, the last one clipped at `test_rows`, and each
    chunk is handed to `processChunk`. The loop is modelled sequentially. */
module Dispatch {
  import opened Matrix
  import opened Chunk

  const CHUNK_SIZE: int := 10000

  /** The half-open row range [`start`, `start + size`) given to one `processChunk` call. */
  datatype Span = Span(start: int, size: int)

  predicate InSpan(r: int, s: Span)
  {
    s.start <= r < s.start + s.size
  }

  /** `current_chunk_size`: a full chunk, or what is left of the query rows. */
  function CurrentChunkSize(chunkStart: int, testRows: int): (size: int)
    ensures size <= CHUNK_SIZE && chunkStart + size <= testRows
    ensures chunkStart < testRows ==> 0 < size
    ensures size == CHUNK_SIZE || chunkStart + size == testRows
  {
    if chunkStart + CHUNK_SIZE > testRows then testRows - chunkStart else CHUNK_SIZE
  }

  /** The clipping done by `main` and the one done again inside `processChunk`
      agree: a chunk of `current_chunk_size` rows processes exactly that many rows. */
  lemma ClippingAgrees(chunkStart: int, testRows: int)
    requires 0 <= chunkStart < testRows
    ensures ChunkRows(chunkStart, CurrentChunkSize(chunkStart, testRows), testRows) == CurrentChunkSize(chunkStart, testRows)
  {
  }

  /** The spans are non-empty and laid end to end from row 0 up to row `n`. */
  ghost predicate Tiles(chunks: seq<Span>, n: int)
  {
    (forall m :: 0 <= m < |chunks| ==> 0 < chunks[m].size) &&
    (forall m :: 0 < m < |chunks| ==> chunks[m - 1].start + chunks[m - 1].size == chunks[m].start) &&
    (|chunks| == 0 ==> n == 0) &&
    (|chunks| > 0 ==> chunks[0].start == 0 && chunks[|chunks| - 1].start + chunks[|chunks| - 1].size == n)
  }

  /** In a tiling every span ends no later than any later span starts. */
  lemma {:induction false} TilesOrdered(chunks: seq<Span>, n: int, m1: int, m2: int)
    requires Tiles(chunks, n) && 0 <= m1 < m2 < |chunks|
    ensures chunks[m1].start + chunks[m1].size <= chunks[m2].start
    decreases m2 - m1
  {
    if m1 + 1 < m2 {
      TilesOrdered(chunks, n, m1 + 1, m2);
    }
  }

  /** Row `r` lies in one of the spans. */
  ghost predicate Covered(chunks: seq<Span>, r: int)
  {
    exists m :: 0 <= m < |chunks| && InSpan(r, chunks[m])
  }

  /** A tiling partitions [0, n): every row lies in some span, no row lies in
      two spans, and no span reaches outside [0, n). */
  lemma {:induction false} TilesPartition(chunks: seq<Span>, n: int)
    requires Tiles(chunks, n)
    ensures 0 <= n
    ensures forall r :: 0 <= r < n ==> Covered(chunks, r)
    ensures forall m1, m2, r :: (0 <= m1 < |chunks| && 0 <= m2 < |chunks| &&
      InSpan(r, chunks[m1]) && InSpan(r, chunks[m2])) ==> m1 == m2
    ensures forall m, r :: 0 <= m < |chunks| && InSpan(r, chunks[m]) ==> 0 <= r < n
    decreases |chunks|
  {
    forall m1, m2, r | 0 <= m1 < |chunks| && 0 <= m2 < |chunks| && InSpan(r, chunks[m1]) && InSpan(r, chunks[m2])
      ensures m1 == m2
    {
      if m1 < m2 {
        TilesOrdered(chunks, n, m1, m2);
      } else if m2 < m1 {
        TilesOrdered(chunks, n, m2, m1);
      }
    }
    if |chunks| > 0 {
      var last := |chunks| - 1;
      var init := chunks[..last];
      var mid := chunks[last].start;
      assert Tiles(init, mid);
      TilesPartition(init, mid);
      assert 0 < chunks[last].size;
      forall r | 0 <= r < n
        ensures Covered(chunks, r)
      {
        if r < mid {
          assert Covered(init, r);
          var m :| 0 <= m < |init| && InSpan(r, init[m]);
          assert InSpan(r, chunks[m]);
        } else {
          assert InSpan(r, chunks[last]);
        }
      }
      forall m, r | 0 <= m < |chunks| && InSpan(r, chunks[m])
        ensures 0 <= r < n
      {
        if m < last {
          assert InSpan(r, init[m]);
        }
      }
    }
  }

  /** Consecutive row ranges concatenate. */
  lemma {:induction false} IotaAppend(lo: int, mid: int, hi: int)
    requires lo <= mid <= hi
    ensures Iota(lo, mid) + Iota(mid, hi) == Iota(lo, hi)
    decreases hi - mid
  {
    if mid < hi {
      IotaAppend(lo, mid, hi - 1);
      assert Iota(mid, hi) == Iota(mid, hi - 1) + [hi - 1];
    }
  }

  /** Each row of [lo, hi) occurs exactly once in `Iota(lo, hi)`, and no other row occurs. */
  lemma {:induction false} IotaExactlyOnce(lo: int, hi: int, r: int)
    ensures multiset(Iota(lo, hi))[r] == if lo <= r < hi then 1 else 0
    decreases hi - lo
  {
    if lo < hi {
      IotaExactlyOnce(lo, hi - 1, r);
    }
  }

  /** A label that was a valid classification of a row stays one when the
      query matrix changes anywhere but in that row's features. */
  lemma ClassifiedFrame(v: real, dims: Dims, train: seq<real>, t1: seq<real>, t2: seq<real>, r: int, k: int)
    requires Fits(dims, train, t1) && Fits(dims, train, t2) && 0 <= r < dims.testRows
    requires 0 < dims.trainRows && k <= dims.trainRows
    requires forall c :: 0 <= c < dims.testCols - 1 ==>
      t1[Idx(r, c, dims.testRows, dims.testCols)] == t2[Idx(r, c, dims.testRows, dims.testCols)]
    requires Classified(v, dims, train, t1, r, k)
    ensures Classified(v, dims, train, t2, r, k)
  {
    QueryRecordsFrame(dims, train, t1, t2, r);
  }

  /** After the rows [0, `hi`) are done: the features are untouched, the labels
      of rows from `hi` on still hold their original values, and the label of
      every row before `hi` classifies that row against the original query matrix `t0`. */
  ghost predicate Labelled(t: seq<real>, dims: Dims, train: seq<real>, t0: seq<real>, hi: int, k: int)
    requires Fits(dims, train, t0) && |t| == |t0| && 0 <= hi <= dims.testRows
    requires 0 < hi ==> 0 < dims.trainRows && k <= dims.trainRows
  {
    FeaturesKept(t, t0, dims.testRows, dims.testCols) &&
    LabelsKeptOutside(t, t0, dims.testRows, dims.testCols, 0, hi) &&
    RowsClassified(t, dims, train, t0, 0, hi, k)
  }

  /** Folding the result of one more chunk [lo, hi) into the rows [0, lo)
      already classified against the original query matrix `t0`. */
  lemma MergeChunk(prev: seq<real>, next: seq<real>, t0: seq<real>, dims: Dims, train: seq<real>,
                   lo: int, hi: int, k: int)
    requires Fits(dims, train, t0) && |prev| == |t0| && |next| == |t0|
    requires 0 <= lo < hi <= dims.testRows && 0 < dims.trainRows && k <= dims.trainRows
    requires Labelled(prev, dims, train, t0, lo, k)
    requires FeaturesKept(next, prev, dims.testRows, dims.testCols)
    requires LabelsKeptOutside(next, prev, dims.testRows, dims.testCols, lo, hi)
    requires RowsClassified(next, dims, train, prev, lo, hi, k)
    ensures Labelled(next, dims, train, t0, hi, k)
  {
    forall r | lo <= r < hi
      ensures Classified(next[LabelIdx(r, dims.testRows, dims.testCols)], dims, train, t0, r, k)
    {
      ClassifiedFrame(next[LabelIdx(r, dims.testRows, dims.testCols)], dims, train, prev, t0, r, k);
    }
  }

  /** One pass of the chunk loop: `processChunk` on the `size` rows from
      `chunkStart`, extending the labelled prefix by that chunk. */
  method RunChunk(train: array<real>, test: array<real>, dims: Dims, pointDistances: array<real>, k: int,
                  chunkStart: int, size: int, ghost t0: seq<real>)
    returns (ghost w: seq<int>)
    requires train != test && pointDistances != train && pointDistances != test
    requires Fits(dims, train[..], t0) && |test[..]| == |t0| && LabelsAreClasses(dims, train[..])
    requires 0 <= chunkStart < dims.testRows && size == CurrentChunkSize(chunkStart, dims.testRows)
    requires 0 < dims.trainRows && k <= dims.trainRows && CHUNK_SIZE * dims.trainRows <= pointDistances.Length
    requires Labelled(test[..], dims, train[..], t0, chunkStart, k)
    modifies test, pointDistances
    ensures |test[..]| == |t0|
    ensures Labelled(test[..], dims, train[..], t0, chunkStart + size, k)
    ensures FeaturesKept(test[..], old(test[..]), dims.testRows, dims.testCols)
    ensures LabelsKeptOutside(test[..], old(test[..]), dims.testRows, dims.testCols, chunkStart, chunkStart + size)
    ensures w == Iota(chunkStart, chunkStart + size)
  {
    ClippingAgrees(chunkStart, dims.testRows);
    MulMonotone(size, CHUNK_SIZE, dims.trainRows);
    ghost var prev := test[..];
    w := ProcessChunk(train, test, dims.trainRows, dims.testRows, dims.trainCols, dims.testCols, pointDistances, k,
                      chunkStart, size);
    MergeChunk(prev, test[..], t0, dims, train[..], chunkStart, chunkStart + size, k);
  }

  /** The chunks `main` hands out: chunk `m` starts at row `m * CHUNK_SIZE`
      and has `current_chunk_size` rows. */
  ghost predicate Planned(chunks: seq<Span>, testRows: int)
  {
    forall m :: 0 <= m < |chunks| ==> chunks[m] == Span(m * CHUNK_SIZE, CurrentChunkSize(m * CHUNK_SIZE, testRows))
  }

  /** Appending the next planned chunk extends the tiling up to that chunk's end. */
  lemma PlanStep(chunks: seq<Span>, chunkStart: int, testRows: int)
    requires chunkStart == |chunks| * CHUNK_SIZE && 0 <= chunkStart < testRows
    requires Tiles(chunks, chunkStart) && Planned(chunks, testRows)
    ensures var next := Span(chunkStart, CurrentChunkSize(chunkStart, testRows));
      Tiles(chunks + [next], chunkStart + next.size) && Planned(chunks + [next], testRows)
  {
    var next := Span(chunkStart, CurrentChunkSize(chunkStart, testRows));
    var chunks' := chunks + [next];
    assert forall m :: 0 <= m < |chunks| ==> chunks'[m] == chunks[m];
  }

  /** The state of the chunk loop once rows [0, `done`) are processed: the
      chunks so far tile those rows as planned, the write log lists them once
      each in order, and they are labelled. */
  ghost predicate Dispatched(chunks: seq<Span>, written: seq<int>, t: seq<real>, dims: Dims, train: seq<real>,
                             t0: seq<real>, done: int, k: int)
    requires Fits(dims, train, t0) && |t| == |t0| && 0 <= done <= dims.testRows
    requires 0 < dims.testRows ==> 0 < dims.trainRows && k <= dims.trainRows
  {
    Tiles(chunks, done) && Planned(chunks, dims.testRows) && written == Iota(0, done) &&
    Labelled(t, dims, train, t0, done, k)
  }

  /** Recording one more processed chunk keeps `Dispatched`. */
  lemma DispatchStep(chunks: seq<Span>, written: seq<int>, w: seq<int>, t: seq<real>, t': seq<real>,
                     dims: Dims, train: seq<real>, t0: seq<real>, chunkStart: int, k: int)
    requires Fits(dims, train, t0) && |t| == |t0| && |t'| == |t0|
    requires chunkStart == |chunks| * CHUNK_SIZE && 0 <= chunkStart < dims.testRows
    requires 0 < dims.trainRows && k <= dims.trainRows
    requires Dispatched(chunks, written, t, dims, train, t0, chunkStart, k)
    requires var size := CurrentChunkSize(chunkStart, dims.testRows);
      w == Iota(chunkStart, chunkStart + size) && Labelled(t', dims, train, t0, chunkStart + size, k)
    ensures var size := CurrentChunkSize(chunkStart, dims.testRows);
      Dispatched(chunks + [Span(chunkStart, size)], written + w, t', dims, train, t0, chunkStart + size, k)
  {
    var size := CurrentChunkSize(chunkStart, dims.testRows);
    IotaAppend(0, chunkStart, chunkStart + size);
    PlanStep(chunks, chunkStart, dims.testRows);
  }

  /** Lines 193-204 of `main`: allocate the shared scratch buffer of
      `CHUNK_SIZE * train_rows` distances, then call `processChunk` on
      successive chunks until all query rows are labelled. Returns, as ghost
      values, the chunks in call order and the rows in the order their labels
      were written. */
  method ClassifyQueries(train: array<real>, test: array<real>, trainRows: int, testRows: int,
                         trainCols: int, testCols: int, k: int)
    returns (ghost chunks: seq<Span>, ghost written: seq<int>)
    requires train != test
    requires Fits(Dims(trainRows, trainCols, testRows, testCols), train[..], test[..])
    requires LabelsAreClasses(Dims(trainRows, trainCols, testRows, testCols), train[..])
    requires 0 < testRows ==> 0 < trainRows && k <= trainRows
    modifies test
    ensures Tiles(chunks, testRows) && Planned(chunks, testRows)
    ensures written == Iota(0, testRows)
    ensures FeaturesKept(test[..], old(test[..]), testRows, testCols)
    ensures RowsClassified(test[..], Dims(trainRows, trainCols, testRows, testCols), train[..], old(test[..]),
                           0, testRows, k)
  {
    var dims := Dims(trainRows, trainCols, testRows, testCols);
    ghost var t0 := test[..];
    var chunkSize := CHUNK_SIZE;
    var pointDistances := new real[chunkSize * trainRows];
    chunks, written := [], [];
    ghost var done := 0;
    var chunkStart := 0;
    while chunkStart < testRows
      invariant chunkStart == |chunks| * CHUNK_SIZE
      invariant done == if chunkStart < testRows then chunkStart else testRows
      invariant |test[..]| == |t0|
      invariant Dispatched(chunks, written, test[..], dims, train[..], t0, done, k)
    {
      var currentChunkSize := if chunkStart + chunkSize > testRows then testRows - chunkStart else chunkSize;
      ghost var t := test[..];
      var w := RunChunk(train, test, dims, pointDistances, k, chunkStart, currentChunkSize, t0);
      DispatchStep(chunks, written, w, t, test[..], dims, train[..], t0, chunkStart, k);
      chunks := chunks + [Span(chunkStart, currentChunkSize)];
      written := written + w;
      chunkStart := chunkStart + chunkSize;
      done := done + currentChunkSize;
    }
  }

  /** Every query row's label is written exactly once, by the one chunk that
      contains the row. */
  lemma EachRowWrittenOnce(chunks: seq<Span>, written: seq<int>, testRows: int, r: int)
    requires Tiles(chunks, testRows) && written == Iota(0, testRows)
    requires 0 <= r < testRows
    ensures multiset(written)[r] == 1
    ensures exists m :: (0 <= m < |chunks| && InSpan(r, chunks[m]) &&
      forall m' :: 0 <= m' < |chunks| && InSpan(r, chunks[m']) ==> m' == m)
  {
    IotaExactlyOnce(0, testRows, r);
    TilesPartition(chunks, testRows);
    assert Covered(chunks, r);
    var m :| 0 <= m < |chunks| && InSpan(r, chunks[m]);
    assert forall m' :: 0 <= m' < |chunks| && InSpan(r, chunks[m']) ==> m' == m;
  }
}
