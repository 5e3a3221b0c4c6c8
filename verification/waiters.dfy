/** wait.go's Waiters: the list of blocked Wait requests, oldest first, threaded through
    the WaitSpecs' own prev/next pointers. A WaitSpec is identified by a number. */
module Waiters {

  import opened Options
  import opened Seqs
  import opened DList

  type WaiterId = nat

  type Waiters = List<WaiterId>

  /** NewWaiters: no waiter. */
  function NewWaiters(): (wss: Waiters)
    ensures Abstracts(wss, [])
  {
    Empty()
  }

  /** Waiters.Append: keyed on a nil head; on an empty list the spec's own pointers are
      kept, otherwise it is linked after the tail. */
  function Append(wss: Waiters, ws: WaiterId): (r: Waiters)
    requires wss.head.Some? ==> wss.tail.Some? && wss.tail.value in wss.links
    ensures ws in r.links && r.tail == Some(ws)
  {
    if wss.head.None? then List(Some(ws), Some(ws), wss.links[ws := PtrsOf(wss, ws)])
    else
      var t := wss.tail.value;
      var links := wss.links[t := wss.links[t].(next := Some(ws))];
      var cur := if ws in links then links[ws] else Ptrs(None, None);
      List(wss.head, Some(ws), links[ws := cur.(prev := Some(t))])
  }

  /** Waiters.Remove: tolerant of a spec that is not in the list, whose pointers are nil. */
  function Remove(wss: Waiters, ws: WaiterId): (r: Waiters)
    requires CanUnlink(wss, ws)
    ensures ws !in r.links
  {
    var p := PtrsOf(wss, ws).prev;
    var n := PtrsOf(wss, ws).next;
    var links1 := if p.Some? then wss.links[p.value := wss.links[p.value].(next := n)] else wss.links;
    var links2 := if n.Some? then links1[n.value := links1[n.value].(prev := p)] else links1;
    List(if wss.head == Some(ws) then n else wss.head,
         if wss.tail == Some(ws) then p else wss.tail,
         links2 - {ws})
  }

  /** For a spec in no list, Append is the tail insertion of queue.go's Enqueue. */
  lemma AppendAgrees(wss: Waiters, s: seq<WaiterId>, ws: WaiterId)
    requires Abstracts(wss, s) && ws !in wss.links
    ensures wss.head.Some? ==> wss.tail.Some? && wss.tail.value in wss.links
    ensures wss.tail.Some? ==> wss.tail.value in wss.links
    ensures Append(wss, ws) == PushBack(wss, ws)
  {
    NthIn(wss, s, |s| - 1);
    if wss.head.Some? {
      var t := wss.tail.value;
      assert t != ws;
      assert Append(wss, ws).links == PushBack(wss, ws).links;
    }
  }

  /** Append of a spec in no list yields s + [ws]. */
  lemma AppendRefines(wss: Waiters, s: seq<WaiterId>, ws: WaiterId)
    requires Abstracts(wss, s) && ws !in wss.links
    ensures wss.head.Some? ==> wss.tail.Some? && wss.tail.value in wss.links
    ensures Abstracts(Append(wss, ws), s + [ws])
  {
    AppendAgrees(wss, s, ws);
    PushBackRefines(wss, s, ws);
  }

  /** For a member, the head/tail comparisons of Remove agree with queue.go's nil tests. */
  lemma RemoveAgrees(wss: Waiters, s: seq<WaiterId>, k: nat)
    requires Abstracts(wss, s) && k < |s|
    ensures s[k] in wss.links && CanUnlink(wss, s[k])
    ensures Remove(wss, s[k]) == Unlink(wss, s[k])
  {
    UnlinkShape(wss, s, k);
  }

  /** Remove takes out the spec if present and is a no-op otherwise. */
  lemma RemoveRefines(wss: Waiters, s: seq<WaiterId>, ws: WaiterId)
    requires Abstracts(wss, s)
    ensures CanUnlink(wss, ws)
    ensures Abstracts(Remove(wss, ws), RemoveFirst(s, ws))
    ensures ws !in s ==> Remove(wss, ws) == wss
  {
    if ws in s {
      var k := IndexOf(s, ws);
      RemoveAgrees(wss, s, k);
      UnlinkRefines(wss, s, k);
      RemoveFirstAt(s, k);
    } else {
      assert ws !in wss.links;
      assert wss.links - {ws} == wss.links;
      assert wss.head != Some(ws) && wss.tail != Some(ws);
    }
  }
}
