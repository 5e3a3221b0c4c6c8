/** The deadline-ordered priority queues of mq.go (TaskHeap) and tctx2/sched.go (pairHeap).

    Both are container/heap instances over a Go slice. The model keeps the slice as a
    sequence but claims nothing about its layout: only which elements it holds (its
    multiset) and which one a Pop returns (a least one under the heap's key). */
module MinHeap {

  import opened Seqs

  /** The position of a least element under key (the first such position). */
  function ArgMin<T>(s: seq<T>, key: T -> int): (i: nat)
    requires |s| > 0
    ensures i < |s|
    ensures forall k | 0 <= k < |s| :: key(s[i]) <= key(s[k])
  {
    if |s| == 1 then 0
    else
      var j := ArgMin(s[1..], key);
      assert forall k | 1 <= k < |s| :: s[k] == s[1..][k - 1];
      if key(s[0]) <= key(s[1..][j]) then 0 else j + 1
  }

  /** heap.Pop: the least element and the heap without it. */
  function Pop<T>(s: seq<T>, key: T -> int): (r: (T, seq<T>))
    requires |s| > 0
    ensures forall k | 0 <= k < |s| :: key(r.0) <= key(s[k])
    ensures multiset(r.1) + multiset{r.0} == multiset(s)
  {
    var i := ArgMin(s, key);
    (s[i], RemoveAt(s, i))
  }
}
