/** queue.go: a named FIFO of tasks threaded through the tasks' own next/prev pointers,
    with an enqueue counter. */
module ListQueue {

  import opened Options
  import opened Seqs
  import opened Tasks
  import opened DList

  /** The declared capacity; no operation consults it. */
  const MaxQueueSize: int := 1025

  /** `count` is bumped by Enqueue and by nothing else. */
  datatype Queue = Queue(name: QueueName, list: List<TaskId>, count: int)

  /** NewQueue: empty, nothing enqueued yet. */
  function NewQueue(name: QueueName): (q: Queue)
    ensures q.name == name && q.count == 0 && Abstracts(q.list, [])
  {
    Queue(name, Empty(), 0)
  }

  /** Enqueue: the task becomes the tail, and the counter goes up by one. */
  function Enqueue(q: Queue, t: TaskId): (r: Queue)
    requires q.list.tail.Some? ==> q.list.tail.value in q.list.links
    ensures r.name == q.name && r.count == q.count + 1
    ensures r.list.tail == Some(t)
  {
    Queue(q.name, PushBack(q.list, t), q.count + 1)
  }

  /** Remove: unlink the task and clear its pointers; the counter is left alone. */
  function Remove(q: Queue, t: TaskId): (r: Queue)
    requires t in q.list.links && CanUnlink(q.list, t)
    ensures r.name == q.name && r.count == q.count
    ensures t !in r.list.links
  {
    q.(list := Unlink(q.list, t))
  }

  /** Dequeue: nil from an empty queue, otherwise the head, removed. */
  function Dequeue(q: Queue): (r: (Queue, Option<TaskId>))
    requires q.list.head.Some? ==> q.list.head.value in q.list.links && CanUnlink(q.list, q.list.head.value)
    ensures r.1 == q.list.head
    ensures r.0.name == q.name && r.0.count == q.count
    ensures q.list.head.None? ==> r.0 == q
    ensures r.1.Some? ==> r.1.value !in r.0.list.links
  {
    if q.list.head.None? then (q, None)
    else (Remove(q, q.list.head.value), q.list.head)
  }

  /** Enqueue on a queue holding s, of a task in no queue, yields s + [t]. */
  lemma EnqueueRefines(q: Queue, s: seq<TaskId>, t: TaskId)
    requires Abstracts(q.list, s) && t !in q.list.links
    ensures q.list.tail.Some? ==> q.list.tail.value in q.list.links
    ensures Abstracts(Enqueue(q, t).list, s + [t])
  {
    PushBackRefines(q.list, s, t);
  }

  /** Remove of the k-th task of s yields s without it, in order. */
  lemma RemoveRefines(q: Queue, s: seq<TaskId>, k: nat)
    requires Abstracts(q.list, s) && k < |s|
    ensures s[k] in q.list.links && CanUnlink(q.list, s[k])
    ensures Abstracts(Remove(q, s[k]).list, RemoveAt(s, k))
  {
    UnlinkRefines(q.list, s, k);
  }

  /** Dequeue is FIFO: it returns the first of s and leaves the rest. */
  lemma DequeueRefines(q: Queue, s: seq<TaskId>)
    requires Abstracts(q.list, s)
    ensures q.list.head.Some? ==> q.list.head.value in q.list.links && CanUnlink(q.list, q.list.head.value)
    ensures |s| == 0 ==> Dequeue(q) == (q, None)
    ensures |s| > 0 ==> Dequeue(q).1 == Some(s[0]) && Abstracts(Dequeue(q).0.list, s[1..])
  {
    if |s| > 0 {
      RemoveRefines(q, s, 0);
      assert RemoveAt(s, 0) == s[1..];
    }
  }

  /** The counter counts enqueues, not the tasks present: a task enqueued and dequeued
      again leaves an empty queue whose count went up. */
  lemma CountIsEnqueues(q: Queue, t: TaskId)
    requires Abstracts(q.list, [])
    ensures var r := Dequeue(Enqueue(q, t));
      r.1 == Some(t) && Abstracts(r.0.list, []) && r.0.count == q.count + 1
  {
    EnqueueRefines(q, [], t);
    DequeueRefines(Enqueue(q, t), [t]);
    assert [t][1..] == [];
  }
}
