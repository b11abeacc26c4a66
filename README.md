# Chunked brute-force k-nearest-neighbour classifier, in Dafny

This project models the classification core of `chunked-basic-seq.c`, a
brute-force k-nearest-neighbour (KNN) classifier. The training and query
points are flat row-major `double` buffers. The last column of every row is
its class label.

The query rows are processed in chunks of `CHUNK_SIZE` (10000) rows. For each
query row `processChunk` does four things:

- it computes the squared Euclidean distance to every training row over the
  first `test_cols - 1` columns;
- it copies those distances into a shared scratch buffer;
- it sorts the distance records with `qsort` and `compare`;
- it writes a majority vote over the `k` nearest records into the row's label
  column, in place. When the largest vote count is shared, the vote returns
  the nearest record's class.

Modules, one per part of the program:

- `Neighbours` (`neighbours.dfy`): the `ValueIndexPair` record, `compare`, and
  the in-place sort. The sort is specified as "a permutation, ascending by
  distance". It makes no stability promise.
- `Vote` (`vote.dfy`): `findMostFrequentWithTieBreak` as a loop over a
  99-slot count array. It is proved against the ghost specification
  `Majority`, which is defined by vote counts (a multiset) and the tie rule.
- `Matrix` (`matrix.dfy`): the row-major indexing, the squared distance, and
  the distance records of one query row. The innermost distance loop lives here.
- `Chunk` (`chunk.dfy`): `processChunk`. Its contract says:
  - each row of the clipped chunk gets a label that is the vote over some
    sorting of that row's records (`Classified`);
  - the scratch buffer holds the chunk's distances;
  - features, other rows' labels and the rest of the scratch buffer are unchanged.
- `Dispatch` (`dispatch.dfy`): the chunk loop of `main`, run sequentially. Its
  contract says:
  - the chunks tile `[0, test_rows)`;
  - every query row's label is written exactly once;
  - every row ends up classified against the original query matrix.

Doubles are modelled as reals. The model restricts class labels to whole
numbers in `[0, 99)`. For such a label, the vote's `(int)` cast is the label
itself and indexes `classCount[99]` in bounds. In a record the label is kept
as that whole number.

The vote falls back to the nearest record's class exactly when two or more classes share the final largest count. A tie between classes that a later class overtakes is cleared, because the flag is reset on every new strict maximum. With nearest-first labels 1, 2, 3, 3 the result is 3 (`Vote.OvertakenTieIsForgotten`).

## Model

| member | source | states |
|---|---|---|
| Neighbours.Compare | chunked-basic-seq.c:122-126 | returns 1, -1 or 0 exactly when the first distance is greater than, less than or equal to the second |
| Neighbours.CompareIsTotalPreorder | chunked-basic-seq.c:122-126 | the comparator is antisymmetric, reflexive, total and transitive, as `qsort` requires |
| Neighbours.SortByDistance | chunked-basic-seq.c:168 | after the in-place sort the array is a permutation of its old contents and ascending by distance |
| Neighbours.NearestComesFirst | chunked-basic-seq.c:168 | the first entry of any sorting is one of the records and no record is nearer |
| Vote.ModeExists | chunked-basic-seq.c:134-143 | every non-empty list of votes has a class with the largest count |
| Vote.Majority | chunked-basic-seq.c:129-149 | the vote's result is one of the first `k` classes; with `k <= 0` it is the nearest record's class |
| Vote.MajorityTieGoesToNearest | chunked-basic-seq.c:145-147 | when two different classes share the largest count, the result is `arr[0]`'s class |
| Vote.MajorityStrictWinner | chunked-basic-seq.c:136-148 | a class with strictly more votes than every other class is the result |
| Vote.MajorityIsNearestOrUniqueMode | chunked-basic-seq.c:129-149 | the result is the nearest record's class under a tie, and otherwise the unique most frequent class |
| Vote.MajorityOfOne | chunked-basic-seq.c:132-148 | with `k = 1` the result is the nearest record's class |
| Vote.OvertakenTieIsForgotten | chunked-basic-seq.c:136-142 | a tie between classes that a later class overtakes does not force the nearest record's class (labels 1, 2, 3, 3 give 3) |
| Vote.CountSnoc | chunked-basic-seq.c:135 | one more vote for a class raises that class's count by one and leaves every other count alone |
| Vote.ScanStep | chunked-basic-seq.c:134-143 | one scan step keeps the invariant: `max_count` is the largest count, `most_frequent_class` holds it, and the tie flag holds exactly when another class holds it too |
| Vote.ScanResult | chunked-basic-seq.c:145-148 | at the end of the scan the tie flag holds exactly when the final maximum is shared; without a tie the leader is the unique mode |
| Vote.ScanMatchesMajority | chunked-basic-seq.c:145-148 | a finished scan returns exactly `Majority`: the nearest record's class if the tie flag is set, the leader otherwise |
| Vote.FindMostFrequentWithTieBreak | chunked-basic-seq.c:129-149 | the returned class equals `Majority` of the records and `k` |
| Matrix.Idx | chunked-basic-seq.c:158 | a row-major position `row * cols + col` lies inside the buffer |
| Matrix.IdxInjective | chunked-basic-seq.c:158 | different (row, column) pairs have different row-major positions |
| Matrix.Features | chunked-basic-seq.c:157-158 | the feature vector of a row has the requested length |
| Matrix.SquaredDistance | chunked-basic-seq.c:156-160 | the sum of squared differences is never negative |
| Matrix.QueryRecords | chunked-basic-seq.c:155-165 | record `j` of query row `i` holds the distance to training row `j`, `j` itself, and row `j`'s label |
| Matrix.RowSquaredDistance | chunked-basic-seq.c:156-160 | the accumulation loop returns the squared distance of query row `i` and training row `j` over `test_cols - 1` columns |
| Chunk.ChunkEnd | chunked-basic-seq.c:154 | the row loop stops at `chunk_start + chunk_size` or at `test_rows`, whichever is smaller |
| Chunk.ChunkRows | chunked-basic-seq.c:154 | the number of rows visited is zero exactly when the chunk is empty or starts past the end; otherwise it is the chunk size or what remains of the rows |
| Chunk.ClassifiedIsTrainingLabel | chunked-basic-seq.c:164-171 | a written label is the label of some training row |
| Chunk.ClassifiedNearestWhenKIsOne | chunked-basic-seq.c:155-171 | with `k = 1` a written label is that of a training row at the smallest distance |
| Chunk.QueryRecordsFrame | chunked-basic-seq.c:157-158 | a query row's records depend only on that row's feature columns |
| Chunk.FillRecords | chunked-basic-seq.c:155-165 | after the `j` loop the record array equals the row's distance records, scratch entry `base + j` holds distance `j`, and no other scratch entry changes |
| Chunk.SortedLabelsAreClasses | chunked-basic-seq.c:164-168 | after sorting, every record's label is a class that indexes the count array |
| Chunk.ClassifyRow | chunked-basic-seq.c:155-171 | the records are a sorting of the row's distance records, the result is their vote, the row's scratch entries hold its distances, and no other scratch entry changes |
| Chunk.WriteLabelStep | chunked-basic-seq.c:171 | writing one row's label keeps all features and the other rows' labels |
| Chunk.ScratchStep | chunked-basic-seq.c:161 | filling scratch row `i - chunk_start` extends the filled prefix of the scratch buffer |
| Chunk.RowStep | chunked-basic-seq.c:161-171 | writing one row's distances and label extends the processed prefix of the chunk by that row |
| Chunk.ProcessRow | chunked-basic-seq.c:154-172 | one row-loop iteration classifies row `i` and logs the write of row `i`; the query matrix changes at most in row `i`'s label position; scratch row `i - chunk_start` receives row `i`'s distances while earlier scratch rows keep theirs and later entries keep their values from the chunk's start |
| Chunk.ProcessChunk | chunked-basic-seq.c:151-175 | every row of the clipped chunk gets a label classifying it; features, other labels and the scratch tail are unchanged; the scratch buffer holds the chunk's distances; rows are labelled once each, in order |
| Dispatch.CurrentChunkSize | chunked-basic-seq.c:202 | a chunk is full-sized or ends exactly at `test_rows`, and is non-empty while rows remain |
| Dispatch.ClippingAgrees | chunked-basic-seq.c:202-203 | the clipping in `main` and the clipping in `processChunk` agree on the number of rows |
| Dispatch.TilesOrdered | chunked-basic-seq.c:201-202 | in a tiling each chunk ends before any later chunk starts |
| Dispatch.TilesPartition | chunked-basic-seq.c:201-203 | the chunks are pairwise disjoint, cover `[0, test_rows)` and stay inside it |
| Dispatch.IotaExactlyOnce | chunked-basic-seq.c:201-203 | the log of label writes contains each row of the range exactly once and no other row |
| Dispatch.ClassifiedFrame | chunked-basic-seq.c:171 | a valid label for a row stays valid under any change to the query matrix that keeps that row's feature columns |
| Dispatch.MergeChunk | chunked-basic-seq.c:201-203 | the rows already labelled and one more processed chunk together form the labelled prefix up to that chunk's end |
| Dispatch.RunChunk | chunked-basic-seq.c:202-203 | one pass of the chunk loop extends the labelled prefix by exactly the clipped chunk; against the matrix before the pass, features and the labels outside the chunk are unchanged |
| Dispatch.PlanStep | chunked-basic-seq.c:201-202 | appending the next chunk keeps the chunk list a tiling of the rows covered so far |
| Dispatch.DispatchStep | chunked-basic-seq.c:201-203 | recording one more processed chunk keeps the loop state: tiling, plan, write log and labels |
| Dispatch.ClassifyQueries | chunked-basic-seq.c:193-204 | chunk `m` is `[m * CHUNK_SIZE, m * CHUNK_SIZE + current_chunk_size)`; the chunks tile `[0, test_rows)`; the write log is every row once in order; every row is classified against the original query matrix; features are unchanged |
| Dispatch.EachRowWrittenOnce | chunked-basic-seq.c:201-203 | every query row's label is written exactly once, and by exactly one chunk |

## Left out

- File I/O (`readNumOfPoints`, `readNumOfFeatures`, `readDataPoints`, `writeResultsToFile`) is not part of this model. It consists of foreign library calls and text formatting of doubles. The model takes the two buffers and their shapes as inputs.
- Timing with `clock()` and the `atoi` parsing of `k` are left out. `k` is a parameter.
- OpenMP parallelism is not modelled; the chunk loop is sequential. In the source, concurrently running chunks share one `point_distances` buffer, which is a data race.
- IEEE floating-point rounding is not modelled. Distances are exact reals.
- Non-whole labels are not modelled. The source's `(int)` cast truncates toward zero, so any label in `(-1, 99)` indexes `classCount` in bounds. A label such as 2.5 is counted in the slot of its truncated value, 2, and the vote returns it unrounded, as 2.5. The model admits only whole labels in `[0, 99)` (`Matrix.IsClassLabel`). Labels at or below -1, or at or above 99, index `classCount` out of bounds in the source.
- `qsort` is modelled by an in-place insertion sort. Its contract is only "ascending by distance and a permutation". The model claims nothing about the order of equal distances; `Classified` accepts the vote over any such sorting.
- `malloc` failure and the unchecked allocation in `processChunk` are not modelled.
- The unused `test_index` argument of the vote is dropped.
- 32-bit `int` overflow is not modelled. This includes `chunk_size * train_rows` and the row-major index products; integers are unbounded.
- Chunk.ProcessChunk: requires every training label to be a class label in `[0, 99)`. The source only casts the labels that reach the first `k` sorted records, and which records those are depends on the query.
- Chunk.ProcessChunk: requires `k <= train_rows` and `train_rows > 0` whenever a row is processed. Otherwise the vote reads past the end of the record array. The source does not check `k` against `train_rows`.
- Chunk.ProcessChunk: requires `chunk_start >= 0`. A negative start would make the source read before the start of `test_data` (line 158). `main` only passes non-negative starts.
- Matrix.Fits requires `test_cols <= train_cols`, because the distance reads the first `test_cols - 1` columns of both buffers; every member that touches the buffers carries it. The source assumes both files have the same shape.
