/** task.go's Queue: a circular doubly-linked list threaded through the tasks, closed by
    a sentinel root node that the Queue value embeds.

    The pointers are a map from node to its (next, prev) pair. A task whose node has no
    entry is detached: Go's Remove sets its next, prev and q to nil, and Append sets q
    to the queue, so "has an entry" is exactly "t.q is this queue". Abstracts says
    which sequence of task ids (head first) a pointer structure represents. */
module Ring {

  import opened Options
  import opened Seqs
  import opened Tasks

  datatype Node = Root | Elem(id: TaskId)

  datatype Links = Links(next: Node, prev: Node)

  datatype Queue = Queue(name: QueueName, link: map<Node, Links>)

  /** Position i of the ring for s, where both ends close on the root. */
  function At(s: seq<TaskId>, i: int): Node {
    if 0 <= i < |s| then Elem(s[i]) else Root
  }

  ghost predicate Abstracts(q: Queue, s: seq<TaskId>) {
    && NoDup(s)
    && Root in q.link
    && q.link[Root] == Links(At(s, 0), At(s, |s| - 1))
    && (forall i {:trigger q.link[Elem(s[i])]} | 0 <= i < |s| ::
          Elem(s[i]) in q.link && q.link[Elem(s[i])] == Links(At(s, i + 1), At(s, i - 1)))
    && (forall n | n in q.link && n.Elem? :: n.id in s)
  }

  /** Every pointer leads to a node of the structure (no nil dereference). */
  ghost predicate Closed(q: Queue) {
    && Root in q.link
    && forall n | n in q.link :: q.link[n].next in q.link && q.link[n].prev in q.link
  }

  /** The pointers of the task at position i, read off the abstraction. */
  lemma LinkAt(q: Queue, s: seq<TaskId>, i: int)
    requires Abstracts(q, s) && 0 <= i < |s|
    ensures Elem(s[i]) in q.link && q.link[Elem(s[i])] == Links(At(s, i + 1), At(s, i - 1))
  {
  }

  lemma AtIn(q: Queue, s: seq<TaskId>, i: int)
    requires Abstracts(q, s)
    ensures At(s, i) in q.link
  {
    if 0 <= i < |s| {
      LinkAt(q, s, i);
    }
  }

  lemma AbstractsClosed(q: Queue, s: seq<TaskId>)
    requires Abstracts(q, s)
    ensures Closed(q)
  {
    forall n | n in q.link
      ensures q.link[n].next in q.link && q.link[n].prev in q.link
    {
      if n.Elem? {
        var i := IndexOf(s, n.id);
        LinkAt(q, s, i);
        AtIn(q, s, i + 1);
        AtIn(q, s, i as int - 1);
      } else {
        AtIn(q, s, 0);
        AtIn(q, s, |s| - 1);
      }
    }
  }

  /** Queue.Init: the root points at itself; the queue is empty. */
  function Init(name: QueueName): (q: Queue)
    ensures q.name == name && Abstracts(q, [])
  {
    Queue(name, map[Root := Links(Root, Root)])
  }

  /** Queue.Append: link t in front of the root, i.e. after the last task. */
  function Append(q: Queue, x: TaskId): (r: Queue)
    requires Root in q.link && q.link[Root].prev in q.link
    requires q.link[q.link[Root].prev].next in q.link
    ensures Elem(x) in r.link && r.name == q.name
  {
    var at := q.link[Root].prev;
    var l1 := q.link[Elem(x) := Links(q.link[at].next, at)];
    var n := l1[at].next;
    var l2 := l1[n := l1[n].(prev := Elem(x))];
    var l3 := l2[at := l2[at].(next := Elem(x))];
    q.(link := l3)
  }

  /** Queue.Remove: bypass t and clear its pointers (and its q). */
  function Remove(q: Queue, x: TaskId): (r: Queue)
    requires Elem(x) in q.link
    requires q.link[Elem(x)].prev in q.link && q.link[Elem(x)].next in q.link
    ensures Elem(x) !in r.link && r.name == q.name
  {
    var p := q.link[Elem(x)].prev;
    var n := q.link[Elem(x)].next;
    var l1 := q.link[p := q.link[p].(next := n)];
    var l2 := l1[n := l1[n].(prev := p)];
    q.(link := l2 - {Elem(x)})
  }

  predicate Empty(q: Queue)
    requires Root in q.link
  {
    q.link[Root].next == Root
  }

  /** Queue.Head: the first task, or nil. */
  function Head(q: Queue): Option<TaskId>
    requires Root in q.link
  {
    if Empty(q) then None else Some(q.link[Root].next.id)
  }

  /** Task.Next: the following task, or nil when the next node is the root. */
  function Next(q: Queue, x: TaskId): Option<TaskId>
    requires Elem(x) in q.link
  {
    if q.link[Elem(x)].next == Root then None else Some(q.link[Elem(x)].next.id)
  }

  /** The position of a scan cursor: a task's index, or the end for nil. */
  function PosOf(s: seq<TaskId>, t: Option<TaskId>): nat
    requires t.Some? ==> t.value in s
  {
    if t.Some? then IndexOf(s, t.value) else |s|
  }

  /** The ring just before the last pointer update of Append. */
  function AppendPartial(q: Queue, x: TaskId): map<Node, Links>
    requires Root in q.link && q.link[Root].prev in q.link
  {
    var at := q.link[Root].prev;
    var l1 := q.link[Elem(x) := Links(Root, at)];
    l1[Root := l1[Root].(prev := Elem(x))]
  }

  lemma AppendShape(q: Queue, s: seq<TaskId>, x: TaskId)
    requires Abstracts(q, s) && Elem(x) !in q.link
    ensures Root in q.link && q.link[Root].prev in q.link && q.link[q.link[Root].prev].next in q.link
    ensures x !in s
    ensures q.link[Root].prev == At(s, |s| - 1) && q.link[At(s, |s| - 1)].next == Root
    ensures var l2 := AppendPartial(q, x);
      Append(q, x).link == l2[At(s, |s| - 1) := l2[At(s, |s| - 1)].(next := Elem(x))]
  {
    AtIn(q, s, |s| - 1);
    assert x !in s by {
      if x in s {
        LinkAt(q, s, IndexOf(s, x));
      }
    }
    if |s| > 0 {
      LinkAt(q, s, |s| - 1);
    }
  }

  lemma AppendLinkAt(q: Queue, s: seq<TaskId>, x: TaskId, i: nat)
    requires Abstracts(q, s) && Elem(x) !in q.link && i <= |s|
    ensures Root in q.link && q.link[Root].prev in q.link && q.link[q.link[Root].prev].next in q.link
    ensures var s' := s + [x];
      Elem(s'[i]) in Append(q, x).link && Append(q, x).link[Elem(s'[i])] == Links(At(s', i + 1), At(s', i as int - 1))
  {
    AppendShape(q, s, x);
    var s' := s + [x];
    var at := At(s, |s| - 1);
    var l2 := AppendPartial(q, x);
    var r := Append(q, x);
    if i < |s| {
      LinkAt(q, s, i);
      assert s'[i] == s[i] && Elem(s[i]) != Elem(x) && Elem(s[i]) != Root;
      assert At(s', i as int - 1) == At(s, i as int - 1);
      assert l2[Elem(s[i])] == q.link[Elem(s[i])];
      if i < |s| - 1 {
        assert Elem(s[i]) != at;
        assert At(s', i + 1) == At(s, i + 1);
      } else {
        assert Elem(s[i]) == at;
      }
    } else {
      assert s'[i] == x;
      assert At(s', i as int - 1) == at;
      assert l2[Elem(x)] == Links(Root, at);
      assert at != Elem(x);
    }
  }

  /** Append puts the task at the tail: the ring now represents s + [x]. */
  lemma AppendRefines(q: Queue, s: seq<TaskId>, x: TaskId)
    requires Abstracts(q, s) && Elem(x) !in q.link
    ensures Root in q.link && q.link[Root].prev in q.link && q.link[q.link[Root].prev].next in q.link
    ensures Abstracts(Append(q, x), s + [x])
  {
    AppendShape(q, s, x);
    var s' := s + [x];
    var r := Append(q, x);
    var at := At(s, |s| - 1);
    assert NoDup(s');
    forall i | 0 <= i < |s'|
      ensures Elem(s'[i]) in r.link && r.link[Elem(s'[i])] == Links(At(s', i + 1), At(s', i - 1))
    {
      AppendLinkAt(q, s, x, i);
    }
    assert r.link[Root] == Links(At(s', 0), At(s', |s'| - 1)) by {
      if |s| == 0 {
        assert at == Root;
      } else {
        assert at != Root;
        assert At(s', 0) == At(s, 0);
      }
    }
    forall n | n in r.link && n.Elem?
      ensures n.id in s'
    {
      if n != Elem(x) {
        assert n in q.link;
      }
    }
  }

  lemma RemoveShape(q: Queue, s: seq<TaskId>, k: nat)
    requires Abstracts(q, s) && k < |s|
    ensures Elem(s[k]) in q.link
    ensures q.link[Elem(s[k])] == Links(At(s, k + 1), At(s, k as int - 1))
    ensures At(s, k + 1) in q.link && At(s, k as int - 1) in q.link
    ensures var p := At(s, k as int - 1);
      var n := At(s, k + 1);
      var l1 := q.link[p := q.link[p].(next := n)];
      Remove(q, s[k]).link == l1[n := l1[n].(prev := p)] - {Elem(s[k])}
  {
    LinkAt(q, s, k);
    AtIn(q, s, k + 1);
    AtIn(q, s, k as int - 1);
  }

  lemma RemoveLinkAt(q: Queue, s: seq<TaskId>, k: nat, i: nat)
    requires Abstracts(q, s) && k < |s| && i < |s| - 1
    ensures Elem(s[k]) in q.link
    ensures q.link[Elem(s[k])].prev in q.link && q.link[Elem(s[k])].next in q.link
    ensures var s' := RemoveAt(s, k);
      Elem(s'[i]) in Remove(q, s[k]).link &&
      Remove(q, s[k]).link[Elem(s'[i])] == Links(At(s', i + 1), At(s', i as int - 1))
  {
    RemoveShape(q, s, k);
    var x := s[k];
    var s' := RemoveAt(s, k);
    var p := At(s, k as int - 1);
    var n := At(s, k + 1);
    var i0 := if i < k then i else i + 1;
    assert s'[i] == s[i0];
    assert s[i0] != x;
    LinkAt(q, s, i0);
    if i0 == k - 1 {
      assert Elem(s[i0]) == p;
      assert At(s', i + 1) == n;
      assert At(s', i as int - 1) == At(s, i0 as int - 1);
      assert p != n;
    } else if i0 == k + 1 {
      assert Elem(s[i0]) == n && n != p;
      assert At(s', i as int - 1) == p;
      assert At(s', i + 1) == At(s, i0 + 1);
    } else {
      assert Elem(s[i0]) != p && Elem(s[i0]) != n;
      assert At(s', i + 1) == At(s, i0 + 1) && At(s', i as int - 1) == At(s, i0 as int - 1);
    }
  }

  lemma RemoveRoot(q: Queue, s: seq<TaskId>, k: nat)
    requires Abstracts(q, s) && k < |s|
    ensures Elem(s[k]) in q.link
    ensures q.link[Elem(s[k])].prev in q.link && q.link[Elem(s[k])].next in q.link
    ensures var s' := RemoveAt(s, k);
      Root in Remove(q, s[k]).link && Remove(q, s[k]).link[Root] == Links(At(s', 0), At(s', |s'| - 1))
  {
    RemoveShape(q, s, k);
    var s' := RemoveAt(s, k);
    var p := At(s, k as int - 1);
    var n := At(s, k + 1);
    if k == 0 {
      assert p == Root;
      assert At(s', 0) == n;
    } else {
      assert p != Root;
      assert At(s', 0) == At(s, 0);
    }
    if k == |s| - 1 {
      assert n == Root;
      assert At(s', |s'| - 1) == p;
    } else {
      assert n != Root;
      assert At(s', |s'| - 1) == At(s, |s| - 1);
    }
  }

  /** Remove unlinks exactly the task: the ring represents s without s[k]. */
  lemma RemoveRefines(q: Queue, s: seq<TaskId>, k: nat)
    requires Abstracts(q, s) && k < |s|
    ensures Elem(s[k]) in q.link
    ensures q.link[Elem(s[k])].prev in q.link && q.link[Elem(s[k])].next in q.link
    ensures Abstracts(Remove(q, s[k]), RemoveAt(s, k))
  {
    RemoveShape(q, s, k);
    var x := s[k];
    var s' := RemoveAt(s, k);
    var r := Remove(q, x);
    var p := At(s, k as int - 1);
    var n := At(s, k + 1);
    RemoveAtNoDup(s, k);
    forall i | 0 <= i < |s'|
      ensures Elem(s'[i]) in r.link && r.link[Elem(s'[i])] == Links(At(s', i + 1), At(s', i - 1))
    {
      RemoveLinkAt(q, s, k, i);
    }
    RemoveRoot(q, s, k);
    RemoveKeys(q, s, k);
  }

  lemma RemoveKeys(q: Queue, s: seq<TaskId>, k: nat)
    requires Abstracts(q, s) && k < |s|
    ensures Elem(s[k]) in q.link
    ensures q.link[Elem(s[k])].prev in q.link && q.link[Elem(s[k])].next in q.link
    ensures forall m | m in Remove(q, s[k]).link && m.Elem? :: m.id in RemoveAt(s, k)
  {
    RemoveShape(q, s, k);
    var r := Remove(q, s[k]);
    forall m | m in r.link && m.Elem?
      ensures m.id in RemoveAt(s, k)
    {
      assert m in q.link && m != Elem(s[k]);
      RemoveAtMembers(s, k, m.id);
    }
  }

  /** Empty and Head read the abstract queue: Head is nil iff the queue is empty, and
      otherwise the first task. */
  lemma HeadRefines(q: Queue, s: seq<TaskId>)
    requires Abstracts(q, s)
    ensures Empty(q) <==> |s| == 0
    ensures Head(q) == (if |s| == 0 then None else Some(s[0]))
  {
    if |s| > 0 {
      LinkAt(q, s, 0);
    }
  }

  /** Next follows the abstract queue and is nil after the last task. */
  lemma NextRefines(q: Queue, s: seq<TaskId>, i: nat)
    requires Abstracts(q, s) && i < |s|
    ensures Elem(s[i]) in q.link
    ensures Next(q, s[i]) == (if i + 1 < |s| then Some(s[i + 1]) else None)
  {
    LinkAt(q, s, i);
  }

  /** Queue.NextUndispatched: walk from t (nil = past the end) to the first task that
      CanDispatch(now); return it and its successor, or (nil, nil). */
  method NextUndispatched(q: Queue, ghost s: seq<TaskId>, t: Option<TaskId>, tasks: map<TaskId, Task>, now: Time)
    returns (curr: Option<TaskId>, next: Option<TaskId>)
    requires Abstracts(q, s) && Known(s, tasks)
    requires t.Some? ==> t.value in s
    ensures match NextEligible(s, PosOf(s, t), tasks, now)
      case None => curr.None? && next.None?
      case Some(j) => curr == Some(s[j]) && next == (if j + 1 < |s| then Some(s[j + 1]) else None)
  {
    ghost var i := PosOf(s, t);
    var u := t;
    while u.Some?
      invariant i <= |s|
      invariant u.Some? <==> i < |s|
      invariant u.Some? ==> u.value == s[i]
      invariant NextEligible(s, i, tasks, now) == NextEligible(s, PosOf(s, t), tasks, now)
      decreases |s| - i
    {
      NextRefines(q, s, i);
      if tasks[u.value].CanDispatch(now) {
        return u, Next(q, u.value);
      }
      u := Next(q, u.value);
      i := i + 1;
    }
    return None, None;
  }
}
