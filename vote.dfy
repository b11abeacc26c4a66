/** The majority vote over the k nearest records, with the source's
    tie-break: when two or more classes share the largest count, the class of
    the nearest record wins. */
module Vote {
  import opened Neighbours

  /** Size of the per-class count array: labels index it directly. */
  const CLASS_SLOTS: int := 99

  /** The class labels of a list of records, in order. */
  function Labels(s: seq<ValueIndexPair>): (votes: seq<int>)
    ensures |votes| == |s|
    ensures forall i :: 0 <= i < |s| ==> votes[i] == s[i].cls
  {
    seq(|s|, i requires 0 <= i < |s| => s[i].cls)
  }

  /** How many of `votes` are for class `c`. */
  function Count(votes: seq<int>, c: int): nat
  {
    multiset(votes)[c]
  }

  /** `c` receives at least one vote and no class receives more. */
  ghost predicate IsMode(votes: seq<int>, c: int)
  {
    Count(votes, c) > 0 && forall d :: Count(votes, d) <= Count(votes, c)
  }

  /** At least two different classes share the largest count. */
  ghost predicate Tied(votes: seq<int>)
  {
    exists c, d :: c != d && IsMode(votes, c) && IsMode(votes, d)
  }

  /** One more vote for `c` raises the count of `c` by one and no other count. */
  lemma CountSnoc(prefix: seq<int>, c: int)
    ensures forall d :: Count(prefix + [c], d) == Count(prefix, d) + (if d == c then 1 else 0)
  {
    assert multiset(prefix + [c]) == multiset(prefix) + multiset{c};
  }

  /** Every non-empty vote list has a most frequent class. */
  lemma {:induction false} ModeExists(votes: seq<int>)
    requires |votes| > 0
    ensures exists c :: IsMode(votes, c)
  {
    var n := |votes|;
    var last := votes[n - 1];
    var init := votes[..n - 1];
    assert votes == init + [last];
    assert forall d :: Count(votes, d) == Count(init, d) + (if d == last then 1 else 0);
    if n == 1 {
      assert IsMode(votes, last);
    } else {
      ModeExists(init);
      var c :| IsMode(init, c);
      if Count(votes, last) > Count(votes, c) {
        assert IsMode(votes, last);
      } else {
        assert IsMode(votes, c);
      }
    }
  }

  /** The class the vote settles on for the first `k` of `recs`: the class of
      the nearest record when `k <= 0` (the scan never runs) or when the
      largest count is shared, otherwise the one most frequent class. */
  ghost function Majority(recs: seq<ValueIndexPair>, k: int): (r: int)
    requires 0 < |recs| && k <= |recs|
    ensures k > 0 ==> r in Labels(recs[..k])
    ensures k <= 0 ==> r == recs[0].cls
  {
    if k <= 0 then recs[0].cls
    else
      var votes := Labels(recs[..k]);
      if Tied(votes) then
        assert votes[0] == recs[0].cls;
        recs[0].cls
      else
        ModeExists(votes);
        var c :| IsMode(votes, c);
        c
  }

  /** Any two classes sharing the largest count send the vote to the nearest record. */
  lemma MajorityTieGoesToNearest(recs: seq<ValueIndexPair>, k: int, c: int, d: int)
    requires 0 < k <= |recs|
    requires c != d && Count(Labels(recs[..k]), c) == Count(Labels(recs[..k]), d) > 0
    requires forall e :: Count(Labels(recs[..k]), e) <= Count(Labels(recs[..k]), c)
    ensures Majority(recs, k) == recs[0].cls
  {
    assert IsMode(Labels(recs[..k]), c) && IsMode(Labels(recs[..k]), d);
  }

  /** A class with strictly more votes than every other class wins. */
  lemma MajorityStrictWinner(recs: seq<ValueIndexPair>, k: int, c: int)
    requires 0 < k <= |recs|
    requires forall e :: e != c ==> Count(Labels(recs[..k]), e) < Count(Labels(recs[..k]), c)
    ensures Majority(recs, k) == c
  {
    var votes := Labels(recs[..k]);
    assert votes[0] in multiset(votes);
    assert !Tied(votes);
  }

  /** The vote is always either the nearest record's class or the unique most
      frequent class among the first `k`. */
  lemma MajorityIsNearestOrUniqueMode(recs: seq<ValueIndexPair>, k: int)
    requires 0 < k <= |recs|
    ensures var votes := Labels(recs[..k]);
      (Tied(votes) && Majority(recs, k) == recs[0].cls) ||
      (!Tied(votes) && IsMode(votes, Majority(recs, k)) &&
       forall d :: IsMode(votes, d) ==> d == Majority(recs, k))
  {
  }

  /** With one neighbour the vote is that neighbour's class. */
  lemma MajorityOfOne(recs: seq<ValueIndexPair>)
    requires 0 < |recs|
    ensures Majority(recs, 1) == recs[0].cls
  {
    assert Labels(recs[..1]) == [recs[0].cls];
  }

  /** A tie between classes that are later overtaken does not reach the
      result: with nearest-first labels 1, 2, 3, 3 the classes 1 and 2 tie
      at one vote early in the scan, but class 3 ends with the single largest
      count and wins, not the nearest record's class 1. */
  lemma OvertakenTieIsForgotten(recs: seq<ValueIndexPair>)
    requires |recs| == 4 && recs[0].cls == 1 && recs[1].cls == 2 && recs[2].cls == 3 && recs[3].cls == 3
    ensures Majority(recs, 4) == 3
  {
    var votes := Labels(recs[..4]);
    assert votes == [1, 2] + [3, 3];
    assert forall e :: e != 3 ==> Count(votes, e) <= 1;
    assert Count(votes, 3) == 2;
    MajorityStrictWinner(recs, 4, 3);
  }

  /** What the scan knows after reading the votes in `prefix`: the largest
      count, a class holding it, and whether a different class holds it too. */
  ghost predicate ScanState(prefix: seq<int>, maxCount: int, leader: int, tie: bool)
  {
    if |prefix| == 0 then maxCount == 0 && !tie
    else
      maxCount == Count(prefix, leader) && IsMode(prefix, leader) &&
      (tie <==> exists d :: d != leader && Count(prefix, d) == maxCount)
  }

  /** One step of the scan keeps `ScanState`: a count that overtakes the
      maximum clears the tie flag, one that only reaches it sets the flag. */
  lemma ScanStep(prefix: seq<int>, c: int, maxCount: int, leader: int, tie: bool)
    requires ScanState(prefix, maxCount, leader, tie)
    ensures var n := Count(prefix, c) + 1;
      if n > maxCount then ScanState(prefix + [c], n, c, false)
      else if n == maxCount then ScanState(prefix + [c], maxCount, leader, true)
      else ScanState(prefix + [c], maxCount, leader, tie)
  {
    var votes := prefix + [c];
    assert forall d :: Count(votes, d) == Count(prefix, d) + (if d == c then 1 else 0);
    var n := Count(prefix, c) + 1;
    if |prefix| == 0 {
      assert IsMode(votes, c);
    } else if n > maxCount {
      assert IsMode(votes, c);
    } else if n == maxCount {
      assert c != leader && IsMode(votes, leader) && Count(votes, c) == maxCount;
    } else {
      assert IsMode(votes, leader);
      assert forall d :: d != c ==> Count(votes, d) == Count(prefix, d);
    }
  }

  /** At the end of a non-empty scan the tie flag says exactly whether the
      largest count is shared, and without a tie the leader is the mode. */
  lemma ScanResult(votes: seq<int>, maxCount: int, leader: int, tie: bool)
    requires |votes| > 0 && ScanState(votes, maxCount, leader, tie)
    ensures tie <==> Tied(votes)
    ensures !tie ==> IsMode(votes, leader) && forall d :: IsMode(votes, d) ==> d == leader
  {
    if tie {
      var d :| d != leader && Count(votes, d) == maxCount;
      assert IsMode(votes, d);
    }
  }

  /** The outcome of a finished scan is the vote `Majority` specifies: the
      nearest record's class if the tie flag is set, the leader otherwise. */
  lemma ScanMatchesMajority(recs: seq<ValueIndexPair>, k: int, maxCount: int, leader: int, tie: bool)
    requires 0 < |recs| && k <= |recs|
    requires 0 < k ==> ScanState(Labels(recs[..k]), maxCount, leader, tie)
    requires k <= 0 ==> !tie && leader == recs[0].cls
    ensures Majority(recs, k) == if tie then recs[0].cls else leader
  {
    if 0 < k {
      ScanResult(Labels(recs[..k]), maxCount, leader, tie);
    }
  }

  /** `findMostFrequentWithTieBreak`: scans the first `k` records keeping a
      count per class, the largest count so far, the class that first reached
      it and whether another class shares it; a shared final maximum returns
      the nearest record's class. */
  method FindMostFrequentWithTieBreak(arr: array<ValueIndexPair>, k: int) returns (r: int)
    requires 0 < arr.Length && k <= arr.Length
    requires forall i :: 0 <= i < k ==> 0 <= arr[i].cls < CLASS_SLOTS
    ensures r == Majority(arr[..], k)
  {
    var classCount := new int[CLASS_SLOTS](_ => 0);
    var maxCount := 0;
    var mostFrequentClass := arr[0].cls;
    var tieOccurred := false;
    ghost var scanned := if k < 0 then 0 else k;
    ghost var votes := Labels(arr[..scanned]);
    ghost var counted: seq<int> := [];
    var i := 0;
    while i < k
      invariant 0 <= i <= scanned
      invariant counted == votes[..i]
      invariant forall c :: 0 <= c < CLASS_SLOTS ==> classCount[c] == Count(counted, c)
      invariant ScanState(counted, maxCount, mostFrequentClass, tieOccurred)
      invariant i == 0 ==> mostFrequentClass == arr[0].cls
    {
      var c := arr[i].cls;
      CountSnoc(counted, c);
      ScanStep(counted, c, maxCount, mostFrequentClass, tieOccurred);
      var n := classCount[c] + 1;
      classCount[c] := n;
      if n > maxCount {
        maxCount := n;
        mostFrequentClass := c;
        tieOccurred := false;
      } else if n == maxCount {
        tieOccurred := true;
      }
      counted := counted + [c];
      i := i + 1;
    }
    if tieOccurred {
      r := arr[0].cls;
    } else {
      r := mostFrequentClass;
    }
    assert arr[..][..scanned] == arr[..scanned];
    assert 0 < k ==> counted == Labels(arr[..][..k]);
    ScanMatchesMajority(arr[..], k, maxCount, mostFrequentClass, tieOccurred);
  }
}
