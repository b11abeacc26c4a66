/** Distance records and their ordering: the `ValueIndexPair` record, the
    `compare` callback handed to `qsort`, and the sort itself, specified only
    as "ascending by distance and a permutation" (no stability promise). */
module Neighbours {

  /** One candidate neighbour of a query point: its squared distance, the
      training row it came from, and that row's class label. The label is
      kept as the integer the vote indexes its count array with. */
  datatype ValueIndexPair = ValueIndexPair(value: real, index: int, cls: int)

  /** The `qsort` comparator: the sign of `a.value - b.value`. */
  function Compare(a: ValueIndexPair, b: ValueIndexPair): (r: int)
    ensures r == 1 <==> a.value > b.value
    ensures r == -1 <==> a.value < b.value
    ensures r == 0 <==> a.value == b.value
  {
    if a.value > b.value then 1
    else if a.value < b.value then -1
    else 0
  }

  /** What `qsort` needs of a comparator: it is antisymmetric and the
      relation "compares at most 0" is reflexive and transitive. */
  lemma CompareIsTotalPreorder(a: ValueIndexPair, b: ValueIndexPair, c: ValueIndexPair)
    ensures Compare(a, b) == -Compare(b, a)
    ensures Compare(a, a) == 0
    ensures Compare(a, b) <= 0 || Compare(b, a) <= 0
    ensures Compare(a, b) <= 0 && Compare(b, c) <= 0 ==> Compare(a, c) <= 0
  {
  }

  /** Ascending by distance; nothing is said about the order of equal distances. */
  ghost predicate SortedByDistance(s: seq<ValueIndexPair>)
  {
    forall p, q :: 0 <= p < q < |s| ==> s[p].value <= s[q].value
  }

  /** `s` is a possible result of sorting `records`. */
  ghost predicate IsSortingOf(s: seq<ValueIndexPair>, records: seq<ValueIndexPair>)
  {
    multiset(s) == multiset(records) && SortedByDistance(s)
  }

  /** The first element of any sorting of a non-empty record list is one of the
      records, and no record is nearer than it. */
  lemma NearestComesFirst(s: seq<ValueIndexPair>, records: seq<ValueIndexPair>)
    requires IsSortingOf(s, records) && |records| > 0
    ensures |s| == |records|
    ensures s[0] in records
    ensures forall j :: 0 <= j < |records| ==> s[0].value <= records[j].value
  {
    assert |s| == |multiset(s)| == |multiset(records)| == |records|;
    assert s[0] in multiset(records);
    forall j | 0 <= j < |records|
      ensures s[0].value <= records[j].value
    {
      assert records[j] in multiset(s);
      var p :| 0 <= p < |s| && s[p] == records[j];
      assert p == 0 || s[0].value <= s[p].value;
    }
  }

  /** Exchanges two entries of the record array. */
  method Swap(a: array<ValueIndexPair>, i: int, j: int)
    requires 0 <= i < a.Length && 0 <= j < a.Length
    modifies a
    ensures a[i] == old(a[j]) && a[j] == old(a[i])
    ensures forall m :: 0 <= m < a.Length && m != i && m != j ==> a[m] == old(a[m])
    ensures multiset(a[..]) == multiset(old(a[..]))
  {
    var t := a[i];
    a[i] := a[j];
    a[j] := t;
  }

  /** The `qsort(distances, train_rows, sizeof(ValueIndexPair), compare)` call:
      sorts the records in place, ascending by `Compare`. */
  method SortByDistance(a: array<ValueIndexPair>)
    modifies a
    ensures IsSortingOf(a[..], old(a[..]))
  {
    var i := 0;
    while i < a.Length
      invariant 0 <= i <= a.Length
      invariant SortedByDistance(a[..i])
      invariant multiset(a[..]) == multiset(old(a[..]))
    {
      var j := i;
      while j > 0 && Compare(a[j - 1], a[j]) > 0
        invariant 0 <= j <= i
        invariant forall p, q :: 0 <= p < q <= i && p != j && q != j ==> a[p].value <= a[q].value
        invariant forall q :: j < q <= i ==> a[j].value < a[q].value
        invariant multiset(a[..]) == multiset(old(a[..]))
      {
        Swap(a, j - 1, j);
        j := j - 1;
      }
      i := i + 1;
    }
    assert a[..a.Length] == a[..];
  }
}
