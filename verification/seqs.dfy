/** Sequence facts shared by the queue, heap and broker models. */
module Seqs {

  /** No element occurs twice. */
  ghost predicate NoDup<T>(s: seq<T>) {
    forall i, j | 0 <= i < j < |s| :: s[i] != s[j]
  }

  /** The sequence without its i-th element; the others keep their order. */
  function RemoveAt<T>(s: seq<T>, i: nat): (r: seq<T>)
    requires i < |s|
    ensures |r| == |s| - 1
    ensures forall k | 0 <= k < i :: r[k] == s[k]
    ensures forall k | i <= k < |r| :: r[k] == s[k + 1]
    ensures multiset(r) == multiset(s) - multiset{s[i]}
  {
    assert s == s[..i] + [s[i]] + s[i + 1..];
    s[..i] + s[i + 1..]
  }

  lemma RemoveAtNoDup<T>(s: seq<T>, k: nat)
    requires NoDup(s) && k < |s|
    ensures NoDup(RemoveAt(s, k))
    ensures s[k] !in RemoveAt(s, k)
  {
    var s' := RemoveAt(s, k);
    forall i, j | 0 <= i < j < |s'| ensures s'[i] != s'[j] {
      var i0 := if i < k then i else i + 1;
      var j0 := if j < k then j else j + 1;
      assert s'[i] == s[i0] && s'[j] == s[j0];
    }
    forall i | 0 <= i < |s'| ensures s'[i] != s[k] {
      var i0 := if i < k then i else i + 1;
      assert s'[i] == s[i0];
    }
  }

  /** Every other element survives RemoveAt. */
  lemma RemoveAtMembers<T>(s: seq<T>, k: nat, y: T)
    requires k < |s| && y in s && y != s[k]
    ensures y in RemoveAt(s, k)
  {
    var i0 :| 0 <= i0 < |s| && s[i0] == y;
    var i := if i0 < k then i0 else i0 - 1;
    assert RemoveAt(s, k)[i] == y;
  }

  /** The position of the first occurrence of x. */
  function IndexOf<T(==)>(s: seq<T>, x: T): (i: nat)
    requires x in s
    ensures i < |s| && s[i] == x
    ensures forall k | 0 <= k < i :: s[k] != x
  {
    if s[0] == x then 0 else 1 + IndexOf(s[1..], x)
  }

  lemma IndexOfNoDup<T>(s: seq<T>, i: nat)
    requires NoDup(s) && i < |s|
    ensures IndexOf(s, s[i]) == i
  {
  }

  /** A linear scan that unlinks the first occurrence of x, as mq.go's
      deleteFromRetry/deleteFromExpiry do; the rest keeps its order. */
  function RemoveFirst<T(==)>(s: seq<T>, x: T): (r: seq<T>)
    ensures x !in s ==> r == s
  {
    if |s| == 0 then []
    else if s[0] == x then
      assert s == [s[0]] + s[1..];
      s[1..]
    else
      assert s == [s[0]] + s[1..];
      [s[0]] + RemoveFirst(s[1..], x)
  }

  /** On a duplicate-free sequence the removal takes out exactly x. */
  lemma {:induction false} RemoveFirstMembers<T>(s: seq<T>, x: T, e: T)
    ensures e in RemoveFirst(s, x) ==> e in s
    ensures e in s && e != x ==> e in RemoveFirst(s, x)
  {
    if |s| > 0 {
      var t := s[1..];
      assert s == [s[0]] + t;
      if s[0] != x {
        assert RemoveFirst(s, x) == [s[0]] + RemoveFirst(t, x);
        RemoveFirstMembers(t, x, e);
      } else {
        assert RemoveFirst(s, x) == t;
      }
    }
  }

  lemma NoDupTail<T>(s: seq<T>)
    requires NoDup(s) && |s| > 0
    ensures NoDup(s[1..]) && s[0] !in s[1..]
  {
    var t := s[1..];
    forall i, j | 0 <= i < j < |t| ensures t[i] != t[j] {
      assert t[i] == s[i + 1] && t[j] == s[j + 1];
    }
    forall j | 0 <= j < |t| ensures t[j] != s[0] {
      assert t[j] == s[j + 1];
    }
  }

  lemma {:induction false} RemoveFirstNoDup<T>(s: seq<T>, x: T)
    requires NoDup(s)
    ensures NoDup(RemoveFirst(s, x))
    ensures x !in RemoveFirst(s, x)
  {
    if |s| > 0 {
      var t := s[1..];
      assert s == [s[0]] + t;
      NoDupTail(s);
      if s[0] != x {
        var rest := RemoveFirst(t, x);
        assert RemoveFirst(s, x) == [s[0]] + rest;
        RemoveFirstNoDup(t, x);
        RemoveFirstMembers(t, x, s[0]);
        NoDupCons(s[0], rest);
      } else {
        assert RemoveFirst(s, x) == t;
      }
    }
  }

  lemma {:induction false} RemoveFirstAt<T>(s: seq<T>, i: nat)
    requires NoDup(s) && i < |s|
    ensures RemoveFirst(s, s[i]) == RemoveAt(s, i)
  {
    var t := s[1..];
    NoDupTail(s);
    if i > 0 {
      assert t[i - 1] == s[i];
      assert s[0] != s[i];
      RemoveFirstAt(t, i - 1);
      assert RemoveFirst(s, s[i]) == [s[0]] + RemoveAt(t, i - 1);
      ConsRemoveAt(s, i);
    } else {
      assert RemoveFirst(s, s[0]) == t;
    }
  }

  lemma ConsRemoveAt<T>(s: seq<T>, i: nat)
    requires 0 < i < |s|
    ensures [s[0]] + RemoveAt(s[1..], i - 1) == RemoveAt(s, i)
  {
    var a := [s[0]] + RemoveAt(s[1..], i - 1);
    var b := RemoveAt(s, i);
    forall k | 0 <= k < |a|
      ensures a[k] == b[k]
    {
      if k > 0 {
        assert a[k] == RemoveAt(s[1..], i - 1)[k - 1];
      }
    }
  }

  /** The removal takes out at most one occurrence, and only of x. */
  lemma {:induction false} RemoveFirstMultiset<T>(s: seq<T>, x: T)
    ensures multiset(RemoveFirst(s, x)) == multiset(s) - multiset{x}
  {
    if |s| > 0 {
      var t := s[1..];
      assert s == [s[0]] + t;
      RemoveFirstMultiset(t, x);
      if s[0] != x {
        assert RemoveFirst(s, x) == [s[0]] + RemoveFirst(t, x);
      }
    }
  }

  /** The elements of s that lie in K, in their order in s. */
  function FilterIn<T>(s: seq<T>, K: set<T>): (r: seq<T>)
    ensures forall e | e in r :: e in s && e in K
    ensures forall e | e in s && e in K :: e in r
    ensures |r| <= |s|
    ensures NoDup(s) ==> NoDup(r)
  {
    if |s| == 0 then []
    else
      assert s == [s[0]] + s[1..];
      var rest := FilterIn(s[1..], K);
      assert NoDup(s) ==> s[0] !in s[1..];
      (if s[0] in K then [s[0]] else []) + rest
  }

  lemma {:induction false} FilterTwice<T>(s: seq<T>, A: set<T>, B: set<T>)
    ensures FilterIn(FilterIn(s, A), B) == FilterIn(s, A * B)
  {
    if |s| > 0 {
      FilterTwice(s[1..], A, B);
      var rest := FilterIn(s[1..], A);
      if s[0] in A {
        assert FilterIn(s, A) == [s[0]] + rest;
        assert ([s[0]] + rest)[1..] == rest;
      } else {
        assert FilterIn(s, A) == rest;
      }
    }
  }

  lemma {:induction false} FilterAll<T>(s: seq<T>, K: set<T>)
    requires forall e | e in s :: e in K
    ensures FilterIn(s, K) == s
  {
    if |s| > 0 {
      FilterAll(s[1..], K);
      assert s == [s[0]] + s[1..];
    }
  }

  /** Filtering out one element of a duplicate-free sequence is the linear-scan removal. */
  lemma {:induction false} FilterMinus<T>(s: seq<T>, K: set<T>, x: T)
    requires NoDup(s)
    requires forall e | e in s :: e in K || e == x
    requires x !in K
    ensures FilterIn(s, K) == RemoveFirst(s, x)
  {
    if |s| > 0 {
      assert s == [s[0]] + s[1..];
      if s[0] == x {
        assert x !in s[1..];
        FilterAll(s[1..], K);
      } else {
        FilterMinus(s[1..], K, x);
      }
    }
  }

  /** Appending does not change what a filter keeps from the prefix. */
  lemma {:induction false} FilterAppend<T>(s: seq<T>, t: seq<T>, K: set<T>)
    ensures FilterIn(s + t, K) == FilterIn(s, K) + FilterIn(t, K)
  {
    if |s| > 0 {
      assert (s + t)[1..] == s[1..] + t;
      FilterAppend(s[1..], t, K);
    } else {
      assert s + t == t;
    }
  }

  /** Removing the element just appended gives back the sequence. */
  lemma {:induction false} RemoveFirstAppend<T>(s: seq<T>, x: T)
    requires x !in s
    ensures RemoveFirst(s + [x], x) == s
  {
    if |s| > 0 {
      assert (s + [x])[1..] == s[1..] + [x];
      RemoveFirstAppend(s[1..], x);
    } else {
      assert s + [x] == [x];
    }
  }

  lemma NoDupCons<T>(x: T, s: seq<T>)
    requires NoDup(s) && x !in s
    ensures NoDup([x] + s)
  {
    var r := [x] + s;
    forall i, j | 0 <= i < j < |r| ensures r[i] != r[j] {
      assert r[j] == s[j - 1];
      if i > 0 {
        assert r[i] == s[i - 1];
      }
    }
  }

  lemma NoDupAppend<T>(s: seq<T>, x: T)
    requires NoDup(s) && x !in s
    ensures NoDup(s + [x])
  {
    var r := s + [x];
    forall i, j | 0 <= i < j < |r| ensures r[i] != r[j] {
      if j < |s| {
        assert r[i] == s[i] && r[j] == s[j];
      } else {
        assert r[i] == s[i] && r[j] == x;
      }
    }
  }

  /** Past the head, positions shift by one. */
  lemma IndexOfCons<T>(s: seq<T>, x: T)
    requires |s| > 0 && x in s[1..] && x != s[0]
    ensures x in s && IndexOf(s, x) == 1 + IndexOf(s[1..], x)
  {
  }

  /** An element that is not the head lies in the tail; the index found is its position in s. */
  lemma InTail<T>(s: seq<T>, x: T) returns (k: nat)
    requires x in s && |s| > 0 && s[0] != x
    ensures 1 <= k < |s| && s[k] == x
    ensures x in s[1..]
  {
    k :| 0 <= k < |s| && s[k] == x;
    assert s[1..][k - 1] == x;
  }

  /** Filtering with one more element left out changes nothing if s lacks it. */
  lemma {:induction false} FilterNotIn<T>(s: seq<T>, K: set<T>, x: T)
    requires x !in s
    ensures FilterIn(s, K - {x}) == FilterIn(s, K)
  {
    if |s| > 0 {
      NotInTail(s, x);
      FilterNotIn(s[1..], K, x);
    }
  }

  /** A sequence that lost x and then gained x or nothing at its tail, filtered again by
      the elements outside S: one filter of the original, then the tail. */
  lemma RefilterMoved<T>(q: seq<T>, L: set<T>, x: T, S: set<T>, own: seq<T>)
    requires x in L && x !in S
    requires own == [] || own == [x]
    ensures FilterIn(FilterIn(q, L - {x}) + own, L - S) == FilterIn(q, L - ({x} + S)) + own
  {
    FilterAppend(FilterIn(q, L - {x}), own, L - S);
    FilterTwice(q, L - {x}, L - S);
    assert (L - {x}) * (L - S) == L - ({x} + S);
    if own == [x] {
      assert FilterIn(own, L - S) == [x] + FilterIn([], L - S);
    }
  }

  /** A sequence filtered down to the elements of K outside H, then followed by ht (all
      of them in K and H), filtered again by the elements of K outside S, which misses
      H, and followed by picks: one filter by the elements of K outside both, then ht,
      then picks. */
  lemma Rearrange<T>(q: seq<T>, K: set<T>, H: set<T>, S: set<T>, ht: seq<T>, rq: seq<T>, picks: seq<T>, rq': seq<T>)
    requires forall x | x in ht :: x in K && x in H
    requires forall x | x in S :: x !in H
    requires rq == FilterIn(q, K - H) + ht
    requires rq' == FilterIn(rq, K - S) + picks
    ensures rq' == FilterIn(q, K - (H + S)) + (ht + picks)
  {
    RefilterHanded(q, K, H, S, ht);
    var f := FilterIn(q, K - (H + S));
    assert (f + ht) + picks == f + (ht + picks);
  }

  lemma RefilterHanded<T>(q: seq<T>, K: set<T>, H: set<T>, S: set<T>, ht: seq<T>)
    requires forall x | x in ht :: x in K && x in H
    requires forall x | x in S :: x !in H
    ensures FilterIn(FilterIn(q, K - H) + ht, K - S) == FilterIn(q, K - (H + S)) + ht
  {
    FilterAppend(FilterIn(q, K - H), ht, K - S);
    FilterTwice(q, K - H, K - S);
    assert (K - H) * (K - S) == K - (H + S);
    FilterAll(ht, K - S);
  }

  /** A duplicate-free sequence has as many distinct elements as positions. */
  lemma {:induction false} NoDupCard<T>(s: seq<T>, S: set<T>)
    requires NoDup(s) && forall x :: x in S <==> x in s
    ensures |S| == |s|
  {
    if |s| > 0 {
      NoDupTail(s);
      var S' := S - {s[0]};
      forall x
        ensures x in S' <==> x in s[1..]
      {
        if x in s && x != s[0] {
          var k := InTail(s, x);
        }
      }
      NoDupCard(s[1..], S');
    }
  }

  /** What a sequence lacks, its head and its tail lack too. */
  lemma NotInTail<T>(s: seq<T>, x: T)
    requires x !in s && |s| > 0
    ensures x != s[0] && x !in s[1..]
  {
    assert s == [s[0]] + s[1..];
  }
}
