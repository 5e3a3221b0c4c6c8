/** The nil-terminated doubly-linked list with head and tail pointers that queue.go's
    Queue (over tasks) and wait.go's Waiters (over wait specs) both thread through their
    elements.

    The next/prev fields of the elements are a map from element to its pointer pair; an
    element with no entry is detached, with nil pointers. Abstracts says which sequence
    (head first) a pointer structure represents. */
module DList {

  import opened Options
  import opened Seqs

  datatype Ptrs<T> = Ptrs(next: Option<T>, prev: Option<T>)

  datatype List<T(==)> = List(head: Option<T>, tail: Option<T>, links: map<T, Ptrs<T>>)

  /** Element i of s, nil outside the sequence. */
  function Nth<T>(s: seq<T>, i: int): Option<T> {
    if 0 <= i < |s| then Some(s[i]) else None
  }

  ghost predicate Abstracts<T>(l: List<T>, s: seq<T>) {
    && NoDup(s)
    && l.head == Nth(s, 0)
    && l.tail == Nth(s, |s| - 1)
    && (forall i {:trigger l.links[s[i]]} | 0 <= i < |s| ::
          s[i] in l.links && l.links[s[i]] == Ptrs(Nth(s, i + 1), Nth(s, i - 1)))
    && (forall x | x in l.links :: x in s)
  }

  /** The list with no element. */
  function Empty<T>(): (l: List<T>)
    ensures Abstracts(l, [])
  {
    List(None, None, map[])
  }

  /** The pointers of an element; a detached one has nil pointers. */
  function PtrsOf<T>(l: List<T>, x: T): Ptrs<T> {
    if x in l.links then l.links[x] else Ptrs(None, None)
  }

  /** The pointers that an unlink of x dereferences are non-nil nodes. */
  ghost predicate CanUnlink<T>(l: List<T>, x: T) {
    && (PtrsOf(l, x).prev.Some? ==> PtrsOf(l, x).prev.value in l.links)
    && (PtrsOf(l, x).next.Some? ==> PtrsOf(l, x).next.value in l.links)
  }

  /** queue.go's Enqueue (without the count): x.prev takes the old tail, and x becomes
      the head too when the list had no tail. */
  function PushBack<T>(l: List<T>, x: T): (r: List<T>)
    requires l.tail.Some? ==> l.tail.value in l.links
    ensures x in r.links && r.tail == Some(x)
  {
    var links := l.links[x := PtrsOf(l, x).(prev := l.tail)];
    if l.tail.None? then List(Some(x), Some(x), links)
    else List(l.head, Some(x), links[l.tail.value := links[l.tail.value].(next := Some(x))])
  }

  /** queue.go's Remove: bypass x, using a nil prev (next) to mean x was the head (tail). */
  function Unlink<T>(l: List<T>, x: T): (r: List<T>)
    requires x in l.links && CanUnlink(l, x)
    ensures x !in r.links
  {
    var p := l.links[x].prev;
    var n := l.links[x].next;
    var links1 := if p.Some? then l.links[p.value := l.links[p.value].(next := n)] else l.links;
    var links2 := if n.Some? then links1[n.value := links1[n.value].(prev := p)] else links1;
    List(if p.Some? then l.head else n, if n.Some? then l.tail else p, links2 - {x})
  }

  lemma LinkAt<T>(l: List<T>, s: seq<T>, i: int)
    requires Abstracts(l, s) && 0 <= i < |s|
    ensures s[i] in l.links && l.links[s[i]] == Ptrs(Nth(s, i + 1), Nth(s, i - 1))
  {
  }

  /** Nth positions inside the list are linked elements. */
  lemma NthIn<T>(l: List<T>, s: seq<T>, i: int)
    requires Abstracts(l, s)
    ensures Nth(s, i).Some? ==> Nth(s, i).value in l.links
  {
    if 0 <= i < |s| {
      LinkAt(l, s, i);
    }
  }

  lemma PushBackLinkAt<T>(l: List<T>, s: seq<T>, x: T, i: nat)
    requires Abstracts(l, s) && x !in l.links && i <= |s|
    ensures l.tail.Some? ==> l.tail.value in l.links
    ensures x !in s
    ensures var s' := s + [x];
      s'[i] in PushBack(l, x).links && PushBack(l, x).links[s'[i]] == Ptrs(Nth(s', i + 1), Nth(s', i as int - 1))
  {
    NthIn(l, s, |s| - 1);
    assert x !in s by {
      if x in s {
        LinkAt(l, s, IndexOf(s, x));
      }
    }
    var s' := s + [x];
    if i < |s| {
      LinkAt(l, s, i);
      assert s'[i] == s[i] && s[i] != x;
      assert Nth(s', i as int - 1) == Nth(s, i as int - 1);
      if i < |s| - 1 {
        assert Some(s[i]) != l.tail;
        assert Nth(s', i + 1) == Nth(s, i + 1);
      }
    } else {
      assert s'[i] == x;
      assert Nth(s', i as int - 1) == l.tail;
    }
  }

  /** PushBack puts the element at the tail: the list represents s + [x]. */
  lemma PushBackRefines<T>(l: List<T>, s: seq<T>, x: T)
    requires Abstracts(l, s) && x !in l.links
    ensures l.tail.Some? ==> l.tail.value in l.links
    ensures Abstracts(PushBack(l, x), s + [x])
  {
    PushBackLinkAt(l, s, x, 0);
    var s' := s + [x];
    var r := PushBack(l, x);
    assert NoDup(s');
    forall i | 0 <= i < |s'|
      ensures s'[i] in r.links && r.links[s'[i]] == Ptrs(Nth(s', i + 1), Nth(s', i - 1))
    {
      PushBackLinkAt(l, s, x, i);
    }
    assert r.head == Nth(s', 0);
    forall y | y in r.links
      ensures y in s'
    {
      if y != x {
        assert y in l.links;
      }
    }
  }

  lemma UnlinkShape<T>(l: List<T>, s: seq<T>, k: nat)
    requires Abstracts(l, s) && k < |s|
    ensures s[k] in l.links && l.links[s[k]] == Ptrs(Nth(s, k + 1), Nth(s, k as int - 1))
    ensures CanUnlink(l, s[k])
  {
    LinkAt(l, s, k);
    NthIn(l, s, k + 1);
    NthIn(l, s, k as int - 1);
  }

  lemma UnlinkLinkAt<T>(l: List<T>, s: seq<T>, k: nat, i: nat)
    requires Abstracts(l, s) && k < |s| && i < |s| - 1
    ensures s[k] in l.links && CanUnlink(l, s[k])
    ensures var s' := RemoveAt(s, k);
      s'[i] in Unlink(l, s[k]).links &&
      Unlink(l, s[k]).links[s'[i]] == Ptrs(Nth(s', i + 1), Nth(s', i as int - 1))
  {
    UnlinkShape(l, s, k);
    if i + 1 == k {
      UnlinkLinkBefore(l, s, k);
    } else if i == k {
      UnlinkLinkAfter(l, s, k);
    } else {
      UnlinkLinkElse(l, s, k, i);
    }
  }

  /** The element just before the one unlinked now points past it. */
  lemma UnlinkLinkBefore<T>(l: List<T>, s: seq<T>, k: nat)
    requires Abstracts(l, s) && 0 < k < |s|
    ensures s[k] in l.links && CanUnlink(l, s[k])
    ensures var s' := RemoveAt(s, k);
      s'[k - 1] in Unlink(l, s[k]).links &&
      Unlink(l, s[k]).links[s'[k - 1]] == Ptrs(Nth(s', k), Nth(s', k as int - 2))
  {
    UnlinkShape(l, s, k);
    var s' := RemoveAt(s, k);
    var j := k - 1;
    assert s'[j] == s[j] && s[j] != s[k];
    LinkAt(l, s, j);
    assert Nth(s', k) == Nth(s, k + 1);
    assert Nth(s', k as int - 2) == Nth(s, j as int - 1);
    assert Nth(s, k + 1).Some? ==> Nth(s, k + 1).value != s[j];
  }

  /** The element just after the one unlinked now points back before it. */
  lemma UnlinkLinkAfter<T>(l: List<T>, s: seq<T>, k: nat)
    requires Abstracts(l, s) && k + 1 < |s|
    ensures s[k] in l.links && CanUnlink(l, s[k])
    ensures var s' := RemoveAt(s, k);
      s'[k] in Unlink(l, s[k]).links &&
      Unlink(l, s[k]).links[s'[k]] == Ptrs(Nth(s', k + 1), Nth(s', k as int - 1))
  {
    UnlinkShape(l, s, k);
    var s' := RemoveAt(s, k);
    var j := k + 1;
    assert s'[k] == s[j] && s[j] != s[k];
    LinkAt(l, s, j);
    assert Nth(s', k as int - 1) == Nth(s, k as int - 1);
    assert Nth(s', k + 1) == Nth(s, j + 1);
    assert Nth(s, k as int - 1).Some? ==> Nth(s, k as int - 1).value != s[j];
  }

  /** Elements not next to the one unlinked keep their pointers. */
  lemma UnlinkLinkElse<T>(l: List<T>, s: seq<T>, k: nat, i: nat)
    requires Abstracts(l, s) && k < |s| && i < |s| - 1 && i + 1 != k && i != k
    ensures s[k] in l.links && CanUnlink(l, s[k])
    ensures var s' := RemoveAt(s, k);
      s'[i] in Unlink(l, s[k]).links &&
      Unlink(l, s[k]).links[s'[i]] == Ptrs(Nth(s', i + 1), Nth(s', i as int - 1))
  {
    UnlinkShape(l, s, k);
    var s' := RemoveAt(s, k);
    var p := Nth(s, k as int - 1);
    var n := Nth(s, k + 1);
    var i0 := if i < k then i else i + 1;
    assert s'[i] == s[i0] && s[i0] != s[k];
    LinkAt(l, s, i0);
    assert p.Some? ==> p.value != s[i0];
    assert n.Some? ==> n.value != s[i0];
    assert Nth(s', i + 1) == Nth(s, i0 + 1) && Nth(s', i as int - 1) == Nth(s, i0 as int - 1);
  }

  lemma UnlinkEnds<T>(l: List<T>, s: seq<T>, k: nat)
    requires Abstracts(l, s) && k < |s|
    ensures s[k] in l.links && CanUnlink(l, s[k])
    ensures var s' := RemoveAt(s, k);
      Unlink(l, s[k]).head == Nth(s', 0) && Unlink(l, s[k]).tail == Nth(s', |s'| - 1)
  {
    UnlinkShape(l, s, k);
    var s' := RemoveAt(s, k);
    if k > 0 {
      assert Nth(s', 0) == Nth(s, 0);
    }
    if k < |s| - 1 {
      assert Nth(s', |s'| - 1) == Nth(s, |s| - 1);
    }
  }

  /** Unlink removes exactly the element: the list represents s without s[k]. */
  lemma UnlinkRefines<T>(l: List<T>, s: seq<T>, k: nat)
    requires Abstracts(l, s) && k < |s|
    ensures s[k] in l.links && CanUnlink(l, s[k])
    ensures Abstracts(Unlink(l, s[k]), RemoveAt(s, k))
  {
    UnlinkShape(l, s, k);
    var s' := RemoveAt(s, k);
    var r := Unlink(l, s[k]);
    RemoveAtNoDup(s, k);
    forall i | 0 <= i < |s'|
      ensures s'[i] in r.links && r.links[s'[i]] == Ptrs(Nth(s', i + 1), Nth(s', i - 1))
    {
      UnlinkLinkAt(l, s, k, i);
    }
    UnlinkEnds(l, s, k);
    UnlinkKeys(l, s, k);
  }

  lemma UnlinkKeys<T>(l: List<T>, s: seq<T>, k: nat)
    requires Abstracts(l, s) && k < |s|
    ensures s[k] in l.links && CanUnlink(l, s[k])
    ensures forall y | y in Unlink(l, s[k]).links :: y in RemoveAt(s, k)
  {
    UnlinkShape(l, s, k);
    var s' := RemoveAt(s, k);
    forall y | y in Unlink(l, s[k]).links
      ensures y in s'
    {
      assert y in l.links && y != s[k];
      RemoveAtMembers(s, k, y);
    }
  }
}
