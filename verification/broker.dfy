/** mq.go: the broker state. Tasks by id, the queue table (each queue abstracted to its
    sequence of task ids, head first, as the queue models establish), and the two
    deadline heaps ByExpiry and ByRetry.

    A heap is kept as the Go slice it lives in; the model claims nothing about the slice's
    layout, only which tasks it holds and that a pop takes one with the least deadline.
    `prune` stands for the outcome of the `q.Head == nil` test at mq.go:74: whether a queue
    that deleteTask empties is dropped from the table. */
module Broker {

  import opened Options
  import opened Seqs
  import opened MinHeap
  import opened Tasks

  datatype MQ = MQ(
    tasks: map<TaskId, Task>,
    queues: map<QueueName, seq<TaskId>>,
    byExpiry: seq<TaskId>,
    byRetry: seq<TaskId>,
    prune: bool)

  // The cross-structure invariant.

  /** Each task is filed under its own id, has a non-negative retry and sits in the queue
      its q pointer names. */
  ghost predicate TasksWellFormed(m: MQ) {
    && (forall x | x in m.tasks ::
          && m.tasks[x].id == x
          && m.tasks[x].retry >= 0
          && m.tasks[x].queue.Some?
          && m.tasks[x].queue.value in m.queues)
    && (forall x, qn | x in m.tasks && qn in m.queues && m.tasks[x].queue == Some(qn) :: x in m.queues[qn])
  }

  /** Each queue holds known tasks at most once, each of which points back at it; with
      pruning on, no queue in the table is empty. */
  ghost predicate QueuesWellFormed(m: MQ) {
    forall qn | qn in m.queues ::
      && NoDup(m.queues[qn])
      && (m.prune ==> |m.queues[qn]| > 0)
      && (forall x | x in m.queues[qn] :: x in m.tasks && m.tasks[x].queue == Some(qn))
  }

  /** ByExpiry holds every task once; ByRetry holds exactly the dispatched ones, once. */
  ghost predicate HeapsWellFormed(m: MQ) {
    && NoDup(m.byExpiry)
    && NoDup(m.byRetry)
    && (forall x | x in m.byExpiry :: x in m.tasks)
    && (forall x | x in m.tasks :: x in m.byExpiry)
    && (forall x | x in m.byRetry :: x in m.tasks && m.tasks[x].dispatched)
    && (forall x | x in m.tasks && m.tasks[x].dispatched :: x in m.byRetry)
  }

  ghost predicate Valid(m: MQ) {
    TasksWellFormed(m) && QueuesWellFormed(m) && HeapsWellFormed(m)
  }

  /** A task is in Tasks iff it is in ByExpiry iff it is in exactly one queue (the one its
      q pointer names); everything in ByRetry is dispatched. */
  lemma ValidMembership(m: MQ, x: TaskId)
    requires Valid(m)
    ensures x in m.tasks <==> x in m.byExpiry
    ensures x in m.tasks <==> exists qn :: qn in m.queues && x in m.queues[qn]
    ensures forall qn | qn in m.queues && x in m.queues[qn] :: m.tasks[x].queue == Some(qn)
    ensures x in m.byRetry ==> x in m.tasks && m.tasks[x].dispatched
  {
    if x in m.tasks {
      var qn := m.tasks[x].queue.value;
      assert qn in m.queues && x in m.queues[qn];
    }
  }

  /** The heap orders: TaskHeap.F of ByExpiry and of ByRetry. */
  function ExpiryKey(tasks: map<TaskId, Task>): TaskId -> int {
    x => if x in tasks then tasks[x].expiry else 0
  }

  function RetryKey(tasks: map<TaskId, Task>): TaskId -> int {
    x => if x in tasks then tasks[x].retryTime else 0
  }

  // Reference definitions that the operations are proved to compute.

  /** The broker with only the tasks in K: every other task is gone from the map, from
      its queue and from both heaps, and (when pruning) queues left empty are dropped. */
  function Restrict(m: MQ, K: set<TaskId>): MQ {
    MQ(map x | x in m.tasks && x in K :: m.tasks[x],
       RestrictQueues(m.queues, K, m.prune),
       FilterIn(m.byExpiry, K),
       FilterIn(m.byRetry, K),
       m.prune)
  }

  /** The broker with the leases of the tasks in D given up: they are undispatched and out
      of ByRetry; nothing else changes. */
  function Relax(m: MQ, D: set<TaskId>): MQ {
    m.(tasks := map x | x in m.tasks :: if x in D then m.tasks[x].Undispatch() else m.tasks[x],
       byRetry := FilterIn(m.byRetry, m.tasks.Keys - D))
  }

  /** The tasks not expired at now. */
  function Live(m: MQ, now: Time): set<TaskId> {
    set x | x in m.tasks && !m.tasks[x].Expired(now)
  }

  /** The tasks whose lease ran out at now. */
  function Overdue(m: MQ, now: Time): set<TaskId> {
    set x | x in m.tasks && m.tasks[x].NeedRetry(now)
  }

  /** What GC leaves: nothing expired and no lease overdue. */
  ghost predicate Clean(m: MQ, now: Time) {
    forall x | x in m.tasks :: !m.tasks[x].Expired(now) && !m.tasks[x].NeedRetry(now)
  }

  ghost predicate NoneExpired(m: MQ, now: Time) {
    forall x | x in m.tasks :: !m.tasks[x].Expired(now)
  }

  lemma {:induction false} ValidRestrict(m: MQ, K: set<TaskId>)
    requires Valid(m)
    ensures Valid(Restrict(m, K))
  {
    var r := Restrict(m, K);
    forall x | x in r.tasks
      ensures r.tasks[x].queue.Some? && r.tasks[x].queue.value in r.queues
      ensures x in r.queues[r.tasks[x].queue.value]
    {
      var qn := m.tasks[x].queue.value;
      assert x in m.queues[qn];
      assert x in FilterIn(m.queues[qn], K);
    }
    forall qn | qn in r.queues
      ensures NoDup(r.queues[qn])
      ensures forall x | x in r.queues[qn] :: x in r.tasks && r.tasks[x].queue == Some(qn)
    {
      assert r.queues[qn] == FilterIn(m.queues[qn], K);
    }
  }

  /** The queue table of Restrict. */
  function RestrictQueues(qs: map<QueueName, seq<TaskId>>, K: set<TaskId>, prune: bool): map<QueueName, seq<TaskId>> {
    map qn | qn in qs && (!prune || |FilterIn(qs[qn], K)| > 0) :: FilterIn(qs[qn], K)
  }

  lemma RestrictQueuesTwice(qs: map<QueueName, seq<TaskId>>, A: set<TaskId>, B: set<TaskId>, prune: bool)
    ensures RestrictQueues(RestrictQueues(qs, A, prune), B, prune) == RestrictQueues(qs, A * B, prune)
  {
    var q1 := RestrictQueues(qs, A, prune);
    var r1 := RestrictQueues(q1, B, prune);
    var r2 := RestrictQueues(qs, A * B, prune);
    forall qn | qn in qs
      ensures qn in r1 <==> qn in r2
      ensures qn in r1 ==> r1[qn] == r2[qn]
    {
      FilterTwiceKept(qs[qn], A, B);
    }
    SameTable(qs, r1, r2);
  }

  /** What survives both filters survives the first. */
  lemma FilterTwiceKept(s: seq<TaskId>, A: set<TaskId>, B: set<TaskId>)
    ensures FilterIn(FilterIn(s, A), B) == FilterIn(s, A * B)
    ensures |FilterIn(s, A * B)| > 0 ==> |FilterIn(s, A)| > 0
  {
    FilterTwice(s, A, B);
    var f := FilterIn(s, A * B);
    if |f| > 0 {
      assert f[0] in FilterIn(s, A);
    }
  }

  lemma {:induction false} RestrictTwice(m: MQ, A: set<TaskId>, B: set<TaskId>)
    ensures Restrict(Restrict(m, A), B) == Restrict(m, A * B)
  {
    RestrictQueuesTwice(m.queues, A, B, m.prune);
    assert Restrict(m, A).queues == RestrictQueues(m.queues, A, m.prune);
    FilterTwice(m.byExpiry, A, B);
    FilterTwice(m.byRetry, A, B);
    var r1 := Restrict(Restrict(m, A), B);
    var r2 := Restrict(m, A * B);
    assert r1.queues == r2.queues;
    assert r1.tasks == r2.tasks;
  }

  lemma RestrictQueuesAll(qs: map<QueueName, seq<TaskId>>, K: set<TaskId>, prune: bool)
    requires forall qn | qn in qs :: (prune ==> |qs[qn]| > 0) && forall x | x in qs[qn] :: x in K
    ensures RestrictQueues(qs, K, prune) == qs
  {
    var r := RestrictQueues(qs, K, prune);
    forall qn | qn in qs
      ensures qn in r && r[qn] == qs[qn]
    {
      FilterAll(qs[qn], K);
    }
    SameTable(qs, r, qs);
  }

  lemma {:induction false} RestrictAll(m: MQ, K: set<TaskId>)
    requires Valid(m) && m.tasks.Keys <= K
    ensures Restrict(m, K) == m
  {
    QueuesInside(m, K);
    HeapsInside(m, K);
    RestrictInside(m, K);
  }

  /** Restrict by a set that holds everything the broker refers to. */
  lemma RestrictInside(m: MQ, K: set<TaskId>)
    requires m.tasks.Keys <= K
    requires forall qn | qn in m.queues :: (m.prune ==> |m.queues[qn]| > 0) && forall x | x in m.queues[qn] :: x in K
    requires forall e | e in m.byExpiry :: e in K
    requires forall e | e in m.byRetry :: e in K
    ensures Restrict(m, K) == m
  {
    RestrictQueuesAll(m.queues, K, m.prune);
    FilterAll(m.byExpiry, K);
    FilterAll(m.byRetry, K);
    RestrictTasksAll(m, K);
    SameFields(Restrict(m, K), m);
  }

  lemma RestrictTasksAll(m: MQ, K: set<TaskId>)
    requires m.tasks.Keys <= K
    ensures Restrict(m, K).tasks == m.tasks
  {
    var a := Restrict(m, K).tasks;
    assert a.Keys == m.tasks.Keys;
  }

  lemma HeapsInside(m: MQ, K: set<TaskId>)
    requires HeapsWellFormed(m) && m.tasks.Keys <= K
    ensures forall e | e in m.byExpiry :: e in K
    ensures forall e | e in m.byRetry :: e in K
  {
  }

  lemma QueuesInside(m: MQ, K: set<TaskId>)
    requires QueuesWellFormed(m) && m.tasks.Keys <= K
    ensures forall qn | qn in m.queues :: (m.prune ==> |m.queues[qn]| > 0) && forall x | x in m.queues[qn] :: x in K
  {
  }

  lemma ValidRelax(m: MQ, D: set<TaskId>)
    requires Valid(m)
    ensures Valid(Relax(m, D))
  {
    RelaxTables(m, D);
    RelaxHeaps(m, D);
  }

  /** Relax keeps the task map's keys, ids, retries and queue pointers, and the queues. */
  lemma RelaxTables(m: MQ, D: set<TaskId>)
    requires TasksWellFormed(m) && QueuesWellFormed(m)
    ensures TasksWellFormed(Relax(m, D)) && QueuesWellFormed(Relax(m, D))
  {
    var r := Relax(m, D);
    assert r.queues == m.queues;
    forall x | x in r.tasks
      ensures x in m.tasks && r.tasks[x].id == x && r.tasks[x].retry == m.tasks[x].retry
      ensures r.tasks[x].queue == m.tasks[x].queue
    {
    }
  }

  /** ByRetry loses exactly the released tasks, which are the ones no longer dispatched. */
  lemma RelaxHeaps(m: MQ, D: set<TaskId>)
    requires HeapsWellFormed(m)
    ensures HeapsWellFormed(Relax(m, D))
  {
    var r := Relax(m, D);
    assert r.tasks.Keys == m.tasks.Keys;
    forall x | x in r.tasks && r.tasks[x].dispatched
      ensures x in r.byRetry
    {
      assert x !in D && m.tasks[x].dispatched;
    }
  }

  lemma {:induction false} RelaxTwice(m: MQ, A: set<TaskId>, B: set<TaskId>)
    ensures Relax(Relax(m, A), B) == Relax(m, A + B)
  {
    var m1 := Relax(m, A);
    var r1 := Relax(m1, B);
    var r2 := Relax(m, A + B);
    assert m1.tasks.Keys == m.tasks.Keys;
    FilterTwice(m.byRetry, m.tasks.Keys - A, m.tasks.Keys - B);
    assert (m.tasks.Keys - A) * (m.tasks.Keys - B) == m.tasks.Keys - (A + B);
    assert r1.byRetry == r2.byRetry;
    forall x | x in m.tasks
      ensures r1.tasks[x] == r2.tasks[x]
    {
    }
    assert r1.tasks.Keys == r2.tasks.Keys;
    assert r1.tasks == r2.tasks;
  }

  lemma {:induction false} RelaxNone(m: MQ)
    requires Valid(m)
    ensures Relax(m, {}) == m
  {
    assert m.tasks.Keys - {} == m.tasks.Keys;
    FilterAll(m.byRetry, m.tasks.Keys);
    var r := Relax(m, {});
    assert r.byRetry == m.byRetry;
    assert r.tasks.Keys == m.tasks.Keys;
    assert r.tasks == m.tasks;
  }

  // mq.go operations.

  /** NewMQ: no task, no queue, empty heaps. */
  function NewMQ(prune: bool): (m: MQ)
    ensures Valid(m) && m.prune == prune
    ensures |m.tasks| == 0 && |m.queues| == 0 && |m.byExpiry| == 0 && |m.byRetry| == 0
  {
    MQ(map[], map[], [], [], prune)
  }

  /** The task is present and its q pointer names a queue in the table. */
  ghost predicate CanDelete(m: MQ, x: TaskId) {
    x in m.tasks && m.tasks[x].queue.Some? && m.tasks[x].queue.value in m.queues
  }

  /** deleteTask: drop the task from the map and unlink it from its queue; the queue goes
      too when pruning and it is left empty. The heaps are not touched. */
  function DeleteEntry(m: MQ, x: TaskId): (r: MQ)
    requires CanDelete(m, x)
    ensures x !in r.tasks && r.byExpiry == m.byExpiry && r.byRetry == m.byRetry
    ensures forall y | y != x :: y in r.tasks <==> y in m.tasks
  {
    var qn := m.tasks[x].queue.value;
    var q := RemoveFirst(m.queues[qn], x);
    m.(tasks := m.tasks - {x},
       queues := if m.prune && |q| == 0 then m.queues - {qn} else m.queues[qn := q])
  }

  /** deleteFromRetry: a linear scan that removes the first occurrence, if any. */
  function DeleteFromRetry(m: MQ, x: TaskId): (r: MQ)
    ensures multiset(r.byRetry) == multiset(m.byRetry) - multiset{x}
    ensures x !in m.byRetry ==> r == m
    ensures r.tasks == m.tasks && r.queues == m.queues && r.byExpiry == m.byExpiry
  {
    RemoveFirstMultiset(m.byRetry, x);
    m.(byRetry := RemoveFirst(m.byRetry, x))
  }

  /** deleteFromExpiry: likewise for ByExpiry. */
  function DeleteFromExpiry(m: MQ, x: TaskId): (r: MQ)
    ensures multiset(r.byExpiry) == multiset(m.byExpiry) - multiset{x}
    ensures x !in m.byExpiry ==> r == m
    ensures r.tasks == m.tasks && r.queues == m.queues && r.byRetry == m.byRetry
  {
    RemoveFirstMultiset(m.byExpiry, x);
    m.(byExpiry := RemoveFirst(m.byExpiry, x))
  }

  /** DeleteTask: the broker without the task, everywhere. */
  function DeleteTask(m: MQ, x: TaskId): (r: MQ)
    requires Valid(m) && x in m.tasks
    ensures Valid(r)
    ensures r == Restrict(m, m.tasks.Keys - {x})
    ensures r.tasks.Keys == m.tasks.Keys - {x}
    ensures x !in r.byExpiry && x !in r.byRetry
    ensures forall qn | qn in r.queues :: x !in r.queues[qn]
  {
    DeleteIsRestrict(m, x);
    DeleteFromExpiry(DeleteFromRetry(DeleteEntry(m, x), x), x)
  }

  /** With one task gone, the queue table is the restricted one: the task's own queue loses
      it (and is dropped when pruning leaves it empty), the others are unchanged. */
  lemma DeleteQueues(qs: map<QueueName, seq<TaskId>>, K: set<TaskId>, x: TaskId, qx: QueueName, prune: bool)
    requires qx in qs && x !in K
    requires forall qn | qn in qs ::
      && NoDup(qs[qn])
      && (prune ==> |qs[qn]| > 0)
      && (forall y | y in qs[qn] :: y in K || (y == x && qn == qx))
    ensures var q := RemoveFirst(qs[qx], x);
      RestrictQueues(qs, K, prune) == (if prune && |q| == 0 then qs - {qx} else qs[qx := q])
  {
    var q := RemoveFirst(qs[qx], x);
    var d := if prune && |q| == 0 then qs - {qx} else qs[qx := q];
    var r := RestrictQueues(qs, K, prune);
    forall qn | qn in qs
      ensures qn in r <==> qn in d
      ensures qn in r ==> r[qn] == d[qn]
    {
      DeleteQueueEntry(qs, K, x, qx, prune, qn);
    }
    SameTable(qs, r, d);
  }

  /** Two tables inside qs that agree on every name of qs are equal. */
  lemma SameTable(qs: map<QueueName, seq<TaskId>>, a: map<QueueName, seq<TaskId>>, b: map<QueueName, seq<TaskId>>)
    requires a.Keys <= qs.Keys && b.Keys <= qs.Keys
    requires forall qn | qn in qs :: (qn in a <==> qn in b) && (qn in a ==> a[qn] == b[qn])
    ensures a == b
  {
    assert a.Keys == b.Keys;
  }

  lemma DeleteQueueEntry(qs: map<QueueName, seq<TaskId>>, K: set<TaskId>, x: TaskId, qx: QueueName, prune: bool, qn: QueueName)
    requires qx in qs && x !in K && qn in qs
    requires NoDup(qs[qn]) && (prune ==> |qs[qn]| > 0)
    requires forall y | y in qs[qn] :: y in K || (y == x && qn == qx)
    ensures var q := RemoveFirst(qs[qx], x);
      var d := if prune && |q| == 0 then qs - {qx} else qs[qx := q];
      var r := RestrictQueues(qs, K, prune);
      && (qn in r <==> qn in d)
      && (qn in r ==> r[qn] == d[qn])
  {
    DeleteQueueAt(qs[qn], K, x, qn == qx);
  }

  /** One queue of the table: only the task's own queue holds it. */
  lemma DeleteQueueAt(s: seq<TaskId>, K: set<TaskId>, x: TaskId, own: bool)
    requires NoDup(s) && x !in K
    requires forall y | y in s :: y in K || (y == x && own)
    ensures FilterIn(s, K) == if own then RemoveFirst(s, x) else s
  {
    if own {
      FilterMinus(s, K, x);
    } else {
      FilterAll(s, K);
    }
  }

  lemma HeapMinus(b: seq<TaskId>, tasks: map<TaskId, Task>, x: TaskId)
    requires NoDup(b) && forall y | y in b :: y in tasks
    ensures RemoveFirst(b, x) == FilterIn(b, tasks.Keys - {x})
  {
    FilterMinus(b, tasks.Keys - {x}, x);
  }

  lemma DeleteIsRestrict(m: MQ, x: TaskId)
    requires Valid(m) && x in m.tasks
    ensures CanDelete(m, x)
    ensures var r := DeleteFromExpiry(DeleteFromRetry(DeleteEntry(m, x), x), x);
      Valid(r) && r == Restrict(m, m.tasks.Keys - {x})
  {
    DeleteQueuesMatch(m, x);
    HeapsNoDup(m);
    DeleteEq(m, x);
    ValidRestrict(m, m.tasks.Keys - {x});
  }

  lemma DeleteEq(m: MQ, x: TaskId)
    requires CanDelete(m, x)
    requires DeleteEntry(m, x).queues == RestrictQueues(m.queues, m.tasks.Keys - {x}, m.prune)
    requires NoDup(m.byExpiry) && forall y | y in m.byExpiry :: y in m.tasks
    requires NoDup(m.byRetry) && forall y | y in m.byRetry :: y in m.tasks
    ensures DeleteFromExpiry(DeleteFromRetry(DeleteEntry(m, x), x), x) == Restrict(m, m.tasks.Keys - {x})
  {
    HeapMinus(m.byExpiry, m.tasks, x);
    HeapMinus(m.byRetry, m.tasks, x);
    TasksMinus(m.tasks, x);
    SameFields(DeleteFromExpiry(DeleteFromRetry(DeleteEntry(m, x), x), x), Restrict(m, m.tasks.Keys - {x}));
  }

  lemma DeleteQueuesMatch(m: MQ, x: TaskId)
    requires Valid(m) && x in m.tasks
    ensures CanDelete(m, x)
    ensures DeleteEntry(m, x).queues == RestrictQueues(m.queues, m.tasks.Keys - {x}, m.prune)
  {
    var K := m.tasks.Keys - {x};
    var qx := m.tasks[x].queue.value;
    forall qn | qn in m.queues
      ensures forall y | y in m.queues[qn] :: y in K || (y == x && qn == qx)
    {
    }
    DeleteQueues(m.queues, K, x, qx, m.prune);
  }

  /** Brokers with equal fields are equal. */
  lemma SameFields(a: MQ, b: MQ)
    requires a.tasks == b.tasks && a.queues == b.queues
    requires a.byExpiry == b.byExpiry && a.byRetry == b.byRetry && a.prune == b.prune
    ensures a == b
  {
  }

  lemma HeapsNoDup(m: MQ)
    requires HeapsWellFormed(m)
    ensures NoDup(m.byExpiry) && forall y | y in m.byExpiry :: y in m.tasks
    ensures NoDup(m.byRetry) && forall y | y in m.byRetry :: y in m.tasks
  {
  }

  lemma TasksMinus(tasks: map<TaskId, Task>, x: TaskId)
    ensures tasks - {x} == map y | y in tasks && y in tasks.Keys - {x} :: tasks[y]
  {
  }

  // GC: two sweeps over the heaps.

  /** One turn of GC's first loop: heap.Pop the least-expiry task (at position i of the
      slice), then deleteTask and deleteFromRetry. */
  function ExpireOne(m: MQ, i: nat): (r: MQ)
    requires i < |m.byExpiry| && CanDelete(m, m.byExpiry[i])
    ensures |r.byExpiry| == |m.byExpiry| - 1
  {
    var x := m.byExpiry[i];
    DeleteFromRetry(DeleteEntry(m.(byExpiry := RemoveAt(m.byExpiry, i)), x), x)
  }

  /** One turn of GC's second loop: heap.Pop the least-retryTime task (at position i) and
      Undispatch it. */
  function RetryOne(m: MQ, i: nat): (r: MQ)
    requires i < |m.byRetry| && m.byRetry[i] in m.tasks
    ensures |r.byRetry| == |m.byRetry| - 1
  {
    var x := m.byRetry[i];
    m.(byRetry := RemoveAt(m.byRetry, i), tasks := m.tasks[x := m.tasks[x].Undispatch()])
  }

  /** GC's first loop: pop expired tasks in expiry order until the least one is live.
      It leaves exactly the live tasks. */
  function SweepExpired(m: MQ, now: Time): (r: MQ)
    requires Valid(m)
    ensures Valid(r) && r == Restrict(m, Live(m, now))
    decreases |m.byExpiry|
  {
    if |m.byExpiry| == 0 then
      EmptyHeapNoneExpired(m, now);
      LiveAll(m, now);
      m
    else
      var i := ArgMin(m.byExpiry, ExpiryKey(m.tasks));
      if !m.tasks[m.byExpiry[i]].Expired(now) then
        MinNotExpired(m, now, i);
        LiveAll(m, now);
        m
      else
        ExpireStep(m, now, i);
        SweepExpired(ExpireOne(m, i), now)
  }

  /** GC's second loop, on a broker with nothing expired: pop overdue leases in retryTime
      order until the least one is not overdue. It gives up exactly the overdue leases. */
  function SweepRetry(m: MQ, now: Time): (r: MQ)
    requires Valid(m) && NoneExpired(m, now)
    ensures Valid(r) && r == Relax(m, Overdue(m, now))
    decreases |m.byRetry|
  {
    if |m.byRetry| == 0 then
      EmptyHeapNoneOverdue(m, now);
      RelaxNone(m);
      m
    else
      var i := ArgMin(m.byRetry, RetryKey(m.tasks));
      if !m.tasks[m.byRetry[i]].NeedRetry(now) then
        MinNotOverdue(m, now, i);
        RelaxNone(m);
        m
      else
        RetryStep(m, now, i);
        SweepRetry(RetryOne(m, i), now)
  }

  lemma EmptyHeapNoneExpired(m: MQ, now: Time)
    requires HeapsWellFormed(m) && |m.byExpiry| == 0
    ensures NoneExpired(m, now)
  {
  }

  /** The least expiry is live, so every task is. */
  lemma MinNotExpired(m: MQ, now: Time, i: nat)
    requires HeapsWellFormed(m) && |m.byExpiry| > 0 && i == ArgMin(m.byExpiry, ExpiryKey(m.tasks))
    requires !m.tasks[m.byExpiry[i]].Expired(now)
    ensures NoneExpired(m, now)
  {
    var key := ExpiryKey(m.tasks);
    forall x | x in m.tasks
      ensures !m.tasks[x].Expired(now)
    {
      var k := IndexOf(m.byExpiry, x);
      assert key(m.byExpiry[i]) <= key(m.byExpiry[k]);
    }
  }

  lemma LiveAll(m: MQ, now: Time)
    requires Valid(m) && NoneExpired(m, now)
    ensures Restrict(m, Live(m, now)) == m
  {
    assert m.tasks.Keys <= Live(m, now);
    RestrictAll(m, Live(m, now));
  }

  /** Popping an expired task is restricting to the others, and leaves the same live set. */
  lemma ExpireStep(m: MQ, now: Time, i: nat)
    requires Valid(m) && i < |m.byExpiry| && m.tasks[m.byExpiry[i]].Expired(now)
    ensures CanDelete(m, m.byExpiry[i])
    ensures Valid(ExpireOne(m, i))
    ensures Restrict(ExpireOne(m, i), Live(ExpireOne(m, i), now)) == Restrict(m, Live(m, now))
  {
    var x := m.byExpiry[i];
    DeleteQueuesMatch(m, x);
    HeapsNoDup(m);
    ExpireOneEq(m, i);
    ExpireLive(m, x, now);
    ValidRestrict(m, m.tasks.Keys - {x});
  }

  lemma ExpireOneEq(m: MQ, i: nat)
    requires i < |m.byExpiry| && CanDelete(m, m.byExpiry[i])
    requires DeleteEntry(m, m.byExpiry[i]).queues == RestrictQueues(m.queues, m.tasks.Keys - {m.byExpiry[i]}, m.prune)
    requires NoDup(m.byExpiry) && forall y | y in m.byExpiry :: y in m.tasks
    requires NoDup(m.byRetry) && forall y | y in m.byRetry :: y in m.tasks
    ensures ExpireOne(m, i) == Restrict(m, m.tasks.Keys - {m.byExpiry[i]})
  {
    var x := m.byExpiry[i];
    RemoveFirstAt(m.byExpiry, i);
    DeleteEq(m, x);
    SameFields(ExpireOne(m, i), DeleteFromExpiry(DeleteFromRetry(DeleteEntry(m, x), x), x));
  }

  /** Restricting away an expired task and then to the live tasks is restricting to the
      live tasks. */
  lemma ExpireLive(m: MQ, x: TaskId, now: Time)
    requires x in m.tasks && m.tasks[x].Expired(now)
    ensures var e := Restrict(m, m.tasks.Keys - {x});
      Restrict(e, Live(e, now)) == Restrict(m, Live(m, now))
  {
    var K := m.tasks.Keys - {x};
    RestrictLive(m, K, now);
    assert Live(m, now) * K == Live(m, now);
    RestrictTwice(m, K, Live(m, now));
    assert K * Live(m, now) == Live(m, now);
  }

  lemma EmptyHeapNoneOverdue(m: MQ, now: Time)
    requires HeapsWellFormed(m) && |m.byRetry| == 0
    ensures Overdue(m, now) == {}
  {
  }

  /** The least retryTime is not overdue (and nothing is expired), so no lease is. */
  lemma MinNotOverdue(m: MQ, now: Time, i: nat)
    requires HeapsWellFormed(m) && NoneExpired(m, now)
    requires |m.byRetry| > 0 && i == ArgMin(m.byRetry, RetryKey(m.tasks))
    requires !m.tasks[m.byRetry[i]].NeedRetry(now)
    ensures Overdue(m, now) == {}
  {
    var key := RetryKey(m.tasks);
    forall x | x in m.tasks && m.tasks[x].dispatched
      ensures now <= m.tasks[x].retryTime
    {
      var k := IndexOf(m.byRetry, x);
      assert key(m.byRetry[i]) <= key(m.byRetry[k]);
    }
  }

  /** Failed: drop the task from ByRetry and undispatch it. */
  function Failed(m: MQ, x: TaskId): (r: MQ)
    requires Valid(m) && x in m.tasks
    ensures Valid(r) && r == Relax(m, {x})
  {
    HeapsNoDup(m);
    FailedIsRelax(m, x);
    ValidRelax(m, {x});
    var r := DeleteFromRetry(m, x);
    r.(tasks := r.tasks[x := r.tasks[x].Undispatch()])
  }

  lemma FailedIsRelax(m: MQ, x: TaskId)
    requires x in m.tasks && NoDup(m.byRetry) && forall y | y in m.byRetry :: y in m.tasks
    ensures var r := DeleteFromRetry(m, x);
      r.(tasks := r.tasks[x := r.tasks[x].Undispatch()]) == Relax(m, {x})
  {
    HeapMinus(m.byRetry, m.tasks, x);
    var r := DeleteFromRetry(m, x);
    var f := r.(tasks := r.tasks[x := r.tasks[x].Undispatch()]);
    RelaxOneTasks(m, x);
    assert f.byRetry == Relax(m, {x}).byRetry;
    SameFields(f, Relax(m, {x}));
  }

  lemma RelaxOneTasks(m: MQ, x: TaskId)
    requires x in m.tasks
    ensures Relax(m, {x}).tasks == m.tasks[x := m.tasks[x].Undispatch()]
  {
    var a := Relax(m, {x}).tasks;
    var b := m.tasks[x := m.tasks[x].Undispatch()];
    assert a.Keys == b.Keys;
    forall y | y in a
      ensures a[y] == b[y]
    {
    }
  }

  lemma RetryOneEq(m: MQ, i: nat)
    requires i < |m.byRetry| && NoDup(m.byRetry) && forall y | y in m.byRetry :: y in m.tasks
    ensures RetryOne(m, i) == Relax(m, {m.byRetry[i]})
  {
    var x := m.byRetry[i];
    RemoveFirstAt(m.byRetry, i);
    FailedIsRelax(m, x);
    var r := DeleteFromRetry(m, x);
    SameFields(RetryOne(m, i), r.(tasks := r.tasks[x := r.tasks[x].Undispatch()]));
  }

  /** Popping an overdue lease is relaxing it, and leaves the other overdue leases. */
  lemma RetryStep(m: MQ, now: Time, i: nat)
    requires Valid(m) && NoneExpired(m, now) && i < |m.byRetry| && m.tasks[m.byRetry[i]].NeedRetry(now)
    ensures m.byRetry[i] in m.tasks
    ensures Valid(RetryOne(m, i)) && NoneExpired(RetryOne(m, i), now)
    ensures Relax(RetryOne(m, i), Overdue(RetryOne(m, i), now)) == Relax(m, Overdue(m, now))
  {
    HeapsNoDup(m);
    RetryOneEq(m, i);
    RetryLive(m, m.byRetry[i], now);
    ValidRelax(m, {m.byRetry[i]});
  }

  /** Relaxing one overdue lease and then the remaining overdue ones is relaxing all. */
  lemma RetryLive(m: MQ, x: TaskId, now: Time)
    requires NoneExpired(m, now) && x in m.tasks && m.tasks[x].NeedRetry(now)
    ensures NoneExpired(Relax(m, {x}), now)
    ensures var r := Relax(m, {x});
      Relax(r, Overdue(r, now)) == Relax(m, Overdue(m, now))
  {
    RelaxOverdue(m, x, now);
    RelaxTwice(m, {x}, Overdue(m, now) - {x});
    assert {x} + (Overdue(m, now) - {x}) == Overdue(m, now);
  }

  /** The live tasks of a restriction are the live tasks inside the restricting set. */
  lemma RestrictLive(m: MQ, K: set<TaskId>, now: Time)
    ensures Live(Restrict(m, K), now) == Live(m, now) * K
  {
  }

  /** Relaxing one lease leaves the other overdue leases and expires nothing. */
  lemma RelaxOverdue(m: MQ, x: TaskId, now: Time)
    requires NoneExpired(m, now)
    ensures NoneExpired(Relax(m, {x}), now)
    ensures Overdue(Relax(m, {x}), now) == Overdue(m, now) - {x}
  {
  }

  /** What Restrict means, task by task: the tasks outside K are gone from the map, the
      queues and the heaps; the others keep their records and their queue positions. */
  lemma RestrictEffect(m: MQ, K: set<TaskId>, y: TaskId)
    ensures var r := Restrict(m, K);
      && (y in r.tasks <==> y in m.tasks && y in K)
      && (y in r.tasks ==> r.tasks[y] == m.tasks[y])
      && (y in r.byExpiry <==> y in m.byExpiry && y in K)
      && (y in r.byRetry <==> y in m.byRetry && y in K)
      && (forall qn | qn in r.queues :: y in r.queues[qn] <==> y in m.queues[qn] && y in K)
      && r.queues.Keys <= m.queues.Keys
  {
  }

  /** What Relax means, task by task: the tasks in D lose their lease and their ByRetry
      entry; nothing else changes. */
  lemma RelaxEffect(m: MQ, D: set<TaskId>, y: TaskId)
    ensures var r := Relax(m, D);
      && r.tasks.Keys == m.tasks.Keys && r.queues == m.queues && r.byExpiry == m.byExpiry
      && (y in m.tasks && y in D ==> !r.tasks[y].dispatched && y !in r.byRetry)
      && (y in m.tasks && y !in D ==> r.tasks[y] == m.tasks[y] && (y in r.byRetry <==> y in m.byRetry))
      && (y in m.tasks ==> r.tasks[y].(dispatched := m.tasks[y].dispatched) == m.tasks[y])
  {
  }

  /** mq.GC: both sweeps. It drops every expired task and gives up every overdue lease,
      and touches nothing else. */
  function GC(m: MQ, now: Time): (r: MQ)
    requires Valid(m)
    ensures Valid(r) && Clean(r, now)
    ensures r == Relax(Restrict(m, Live(m, now)), Overdue(m, now))
  {
    var e := SweepExpired(m, now);
    AfterExpiry(m, now);
    GCClean(m, now);
    SweepRetry(e, now)
  }

  lemma AfterExpiry(m: MQ, now: Time)
    ensures NoneExpired(Restrict(m, Live(m, now)), now)
    ensures Overdue(Restrict(m, Live(m, now)), now) == Overdue(m, now)
  {
  }

  lemma GCClean(m: MQ, now: Time)
    ensures Clean(Relax(Restrict(m, Live(m, now)), Overdue(m, now)), now)
  {
  }

  /** GC task by task: a task survives iff it is not expired; a survivor loses its lease
      iff the lease was overdue; whether a task can be dispatched is unchanged. */
  lemma GCEffect(m: MQ, now: Time, y: TaskId)
    requires Valid(m)
    ensures var r := GC(m, now);
      && (y in r.tasks <==> y in m.tasks && !m.tasks[y].Expired(now))
      && (y in r.tasks ==> r.tasks[y] == if m.tasks[y].NeedRetry(now) then m.tasks[y].Undispatch() else m.tasks[y])
      && (y in r.tasks && r.tasks[y].CanDispatch(now) <==> y in m.tasks && m.tasks[y].CanDispatch(now))
      && r.queues == RestrictQueues(m.queues, Live(m, now), m.prune)
      && (y in r.byRetry <==> y in m.byRetry && !m.tasks[y].Expired(now) && !m.tasks[y].NeedRetry(now))
  {
    var K := Live(m, now);
    RestrictEffect(m, K, y);
    RelaxEffect(Restrict(m, K), Overdue(m, now), y);
  }

  /** GC changes nothing once nothing is expired or overdue; in particular it is
      idempotent at a fixed time. */
  lemma GCIdempotent(m: MQ, now: Time)
    requires Valid(m) && Clean(m, now)
    ensures GC(m, now) == m
    ensures GC(GC(m, now), now) == GC(m, now)
  {
    LiveAll(m, now);
    assert Overdue(m, now) == {};
    RelaxNone(m);
  }

  /** mq.Find: GC, then look the id up. */
  function Find(m: MQ, id: TaskId, now: Time): (r: (MQ, Option<Task>))
    requires Valid(m)
    ensures r.0 == GC(m, now)
    ensures r.1.Some? <==> id in m.tasks && !m.tasks[id].Expired(now)
    ensures r.1.Some? ==> r.1.value.id == id && !r.1.value.NeedRetry(now)
    ensures r.1.Some? ==> r.1.value.InDispatch(now) == m.tasks[id].InDispatch(now)
    ensures r.1.Some? ==> id in r.0.tasks && r.1.value == r.0.tasks[id]
  {
    var g := GC(m, now);
    GCEffect(m, now, id);
    (g, if id in g.tasks then Some(g.tasks[id]) else None)
  }

  // Dispatch: GC, then lease the task and move it to the tail of its queue.

  /** The part of mq.Dispatch after its GC: Task.Dispatch, heap.Push on ByRetry, and
      q.Remove then q.Append on the task's queue. */
  function Lease(g: MQ, x: TaskId, now: Time): (r: MQ)
    requires CanDelete(g, x)
    ensures r.tasks.Keys == g.tasks.Keys && r.byExpiry == g.byExpiry
  {
    var t := g.tasks[x].Dispatch(now);
    var qn := t.queue.value;
    g.(tasks := g.tasks[x := t],
       byRetry := g.byRetry + [x],
       queues := g.queues[qn := RemoveFirst(g.queues[qn], x) + [x]])
  }

  /** mq.Dispatch, on a task that can be dispatched (so GC keeps it and its t.q is set).
      The lease starts at now; whether any other task can be dispatched is unchanged. */
  function Dispatch(m: MQ, x: TaskId, now: Time): (r: MQ)
    requires Valid(m) && x in m.tasks && m.tasks[x].CanDispatch(now)
    ensures Valid(r) && Clean(r, now)
    ensures x in r.tasks && r.tasks[x] == m.tasks[x].Dispatch(now)
  {
    var g := GC(m, now);
    GCEffect(m, now, x);
    LeaseValid(g, x, now);
    RedispatchAfterUndispatch(m.tasks[x], now);
    Lease(g, x, now)
  }

  /** After Dispatch the task cannot be dispatched again at now, and every other task can
      be dispatched exactly when it could before. The tasks kept are the live ones. */
  lemma DispatchEligibility(m: MQ, x: TaskId, now: Time)
    requires Valid(m) && x in m.tasks && m.tasks[x].CanDispatch(now)
    ensures var r := Dispatch(m, x, now);
      && r.tasks.Keys == Live(m, now)
      && !r.tasks[x].CanDispatch(now)
      && forall y | y != x :: (y in r.tasks && r.tasks[y].CanDispatch(now)) <==> (y in m.tasks && m.tasks[y].CanDispatch(now))
  {
    var g := GC(m, now);
    GCEffect(m, now, x);
    GCEligibility(m, now);
    GCKeys(m, now);
    assert CanDelete(g, x);
    LeaseEffect(g, x, now);
    LeaseEligibility(g, Lease(g, x, now), x, now);
  }

  /** Dispatch task by task: only the expired tasks go; the leased task takes its lease,
      an overdue lease is given up, and every other task is as it was. */
  lemma DispatchFrame(m: MQ, x: TaskId, now: Time, y: TaskId)
    requires Valid(m) && x in m.tasks && m.tasks[x].CanDispatch(now)
    ensures var r := Dispatch(m, x, now);
      && (y in r.tasks <==> y in m.tasks && !m.tasks[y].Expired(now))
      && (y in r.tasks && y != x ==>
            r.tasks[y] == if m.tasks[y].NeedRetry(now) then m.tasks[y].Undispatch() else m.tasks[y])
  {
    var g := GC(m, now);
    GCEffect(m, now, x);
    GCEffect(m, now, y);
    assert CanDelete(g, x);
    LeaseEffect(g, x, now);
  }

  /** GC changes a task only by giving up its lease, which a new lease at now erases. */
  lemma GCLease(m: MQ, now: Time, y: TaskId)
    requires Valid(m)
    ensures y in GC(m, now).tasks ==> y in m.tasks && GC(m, now).tasks[y].Dispatch(now) == m.tasks[y].Dispatch(now)
  {
    GCEffect(m, now, y);
    if y in GC(m, now).tasks {
      RedispatchAfterUndispatch(m.tasks[y], now);
    }
  }

  lemma GCKeys(m: MQ, now: Time)
    ensures Relax(Restrict(m, Live(m, now)), Overdue(m, now)).tasks.Keys == Live(m, now)
  {
  }

  lemma LeaseEffect(g: MQ, x: TaskId, now: Time)
    requires CanDelete(g, x)
    ensures var r := Lease(g, x, now);
      && r.tasks.Keys == g.tasks.Keys
      && r.tasks[x] == g.tasks[x].Dispatch(now)
      && (forall y | y in g.tasks && y != x :: r.tasks[y] == g.tasks[y])
      && var qn := g.tasks[x].queue.value;
         r.queues == g.queues[qn := RemoveFirst(g.queues[qn], x) + [x]]
  {
  }

  /** Unlinking a live task from the live part of its queue is filtering it out. */
  lemma TailMove(q: seq<TaskId>, L: set<TaskId>, x: TaskId)
    requires NoDup(q) && x in q && x in L
    ensures x in FilterIn(q, L)
    ensures RemoveFirst(FilterIn(q, L), x) == FilterIn(q, L - {x})
  {
    var s := FilterIn(q, L);
    FilterMinus(s, L - {x}, x);
    FilterTwice(q, L, L - {x});
    assert L * (L - {x}) == L - {x};
  }

  lemma LeaseEligibility(g: MQ, r: MQ, x: TaskId, now: Time)
    requires x in g.tasks && r.tasks.Keys == g.tasks.Keys && r.tasks[x] == g.tasks[x].Dispatch(now)
    requires g.tasks[x].retry >= 0
    requires forall y | y in g.tasks && y != x :: r.tasks[y] == g.tasks[y]
    ensures !r.tasks[x].CanDispatch(now)
    ensures forall y | y != x :: (y in r.tasks && r.tasks[y].CanDispatch(now)) <==> (y in g.tasks && g.tasks[y].CanDispatch(now))
  {
  }

  lemma GCEligibility(m: MQ, now: Time)
    requires Valid(m)
    ensures forall y :: (y in GC(m, now).tasks && GC(m, now).tasks[y].CanDispatch(now)) <==> (y in m.tasks && m.tasks[y].CanDispatch(now))
  {
    forall y
      ensures (y in GC(m, now).tasks && GC(m, now).tasks[y].CanDispatch(now)) <==> (y in m.tasks && m.tasks[y].CanDispatch(now))
    {
      GCEffect(m, now, y);
    }
  }

  lemma LeaseValid(g: MQ, x: TaskId, now: Time)
    requires Valid(g) && Clean(g, now) && x in g.tasks && !g.tasks[x].dispatched
    ensures CanDelete(g, x)
    ensures Valid(Lease(g, x, now)) && Clean(Lease(g, x, now), now)
    ensures Lease(g, x, now).tasks[x] == g.tasks[x].Dispatch(now)
    ensures forall y | y in g.tasks && y != x :: Lease(g, x, now).tasks[y] == g.tasks[y]
  {
    LeaseQueues(g, x, now);
    LeaseTasks(g, x, now);
    LeaseHeaps(g, x, now);
    LeaseClean(g, x, now);
  }

  lemma LeaseHeaps(g: MQ, x: TaskId, now: Time)
    requires Valid(g) && x in g.tasks && !g.tasks[x].dispatched
    ensures CanDelete(g, x)
    ensures HeapsWellFormed(Lease(g, x, now))
  {
    var r := Lease(g, x, now);
    HeapsNoDup(g);
    assert x !in g.byRetry;
    NoDupAppend(g.byRetry, x);
    assert r.byRetry == g.byRetry + [x];
    forall y | y in r.byRetry
      ensures y in r.tasks && r.tasks[y].dispatched
    {
      if y != x {
        assert y in g.byRetry;
      }
    }
    forall y | y in r.tasks && r.tasks[y].dispatched
      ensures y in r.byRetry
    {
      if y != x {
        assert g.tasks[y].dispatched;
      }
    }
  }

  lemma LeaseClean(g: MQ, x: TaskId, now: Time)
    requires Valid(g) && Clean(g, now) && x in g.tasks && !g.tasks[x].dispatched
    ensures CanDelete(g, x)
    ensures Clean(Lease(g, x, now), now)
    ensures Lease(g, x, now).tasks[x] == g.tasks[x].Dispatch(now)
    ensures forall y | y in g.tasks && y != x :: Lease(g, x, now).tasks[y] == g.tasks[y]
  {
  }

  lemma LeaseQueues(g: MQ, x: TaskId, now: Time)
    requires Valid(g) && x in g.tasks
    ensures CanDelete(g, x)
    ensures QueuesWellFormed(Lease(g, x, now))
  {
    var qn := g.tasks[x].queue.value;
    var q := g.queues[qn];
    var r := Lease(g, x, now);
    RemoveFirstNoDup(q, x);
    NoDupAppend(RemoveFirst(q, x), x);
    forall y | y in RemoveFirst(q, x) + [x]
      ensures y in r.tasks && r.tasks[y].queue == Some(qn)
    {
      RemoveFirstMembers(q, x, y);
    }
  }

  lemma LeaseTasks(g: MQ, x: TaskId, now: Time)
    requires Valid(g) && x in g.tasks
    ensures CanDelete(g, x)
    ensures TasksWellFormed(Lease(g, x, now))
  {
    var qn := g.tasks[x].queue.value;
    var q := g.queues[qn];
    var r := Lease(g, x, now);
    forall y | y in g.queues[qn] && y != x
      ensures y in r.queues[qn]
    {
      RemoveFirstMembers(q, x, y);
    }
  }

  /** Dispatch moves the task to the tail of its queue; the other tasks of that queue
      are the live ones, in their old order. Other queues are as GC left them. */
  lemma DispatchMovesToTail(m: MQ, x: TaskId, now: Time)
    requires Valid(m) && x in m.tasks && m.tasks[x].CanDispatch(now)
    ensures m.tasks[x].queue.Some? && m.tasks[x].queue.value in m.queues
    ensures var qn := m.tasks[x].queue.value;
      var r := Dispatch(m, x, now);
      && qn in r.queues
      && r.queues[qn] == FilterIn(m.queues[qn], Live(m, now) - {x}) + [x]
      && (forall q | q in r.queues && q != qn :: r.queues[q] == GC(m, now).queues[q])
      && (forall q | q in r.queues && q != qn :: q in m.queues && r.queues[q] == FilterIn(m.queues[q], Live(m, now) - {x}))
      && r.queues.Keys == GC(m, now).queues.Keys
  {
    var qn := m.tasks[x].queue.value;
    var g := GC(m, now);
    GCEffect(m, now, x);
    var L := Live(m, now);
    assert x in m.queues[qn] && x in L;
    assert x in FilterIn(m.queues[qn], L);
    assert qn in g.queues && g.queues[qn] == FilterIn(m.queues[qn], L);
    assert g.tasks[x].queue == Some(qn);
    LeaseEffect(g, x, now);
    MoveFacts(m.queues[qn], g.queues, Dispatch(m, x, now).queues, qn, x, L);
    assert forall q | q in m.queues && q != qn :: x !in m.queues[q];
    OtherQueues(m.queues, g.queues, Dispatch(m, x, now).queues, L, m.prune, qn, x);
  }


  /** Dispatch queue by queue: each holds its live tasks other than x, in their old
      order, and x's own queue has x at its tail. */
  lemma DispatchQueueOf(m: MQ, x: TaskId, now: Time, qn: QueueName)
    requires Valid(m) && x in m.tasks && m.tasks[x].CanDispatch(now)
    ensures var c := Dispatch(m, x, now);
      qn in c.queues ==>
        qn in m.queues && c.queues[qn] == FilterIn(m.queues[qn], Live(m, now) - {x}) + (if m.tasks[x].queue == Some(qn) then [x] else [])
  {
    var c := Dispatch(m, x, now);
    if qn in c.queues {
      DispatchMovesToTail(m, x, now);
      PickQueue(c.queues, m.queues, m.tasks[x].queue.value, qn, x, Live(m, now), (if m.tasks[x].queue == Some(qn) then [x] else []));
    }
  }

  /** The queue-table step of DispatchQueueOf: x sits at the tail of its own queue only. */
  lemma PickQueue(rq: map<QueueName, seq<TaskId>>, mq: map<QueueName, seq<TaskId>>, q0: QueueName, qn: QueueName,
                  x: TaskId, L: set<TaskId>, own: seq<TaskId>)
    requires q0 in rq && q0 in mq && rq[q0] == FilterIn(mq[q0], L - {x}) + [x]
    requires forall q | q in rq && q != q0 :: q in mq && rq[q] == FilterIn(mq[q], L - {x})
    requires own == if q0 == qn then [x] else []
    requires qn in rq
    ensures qn in mq && rq[qn] == FilterIn(mq[qn], L - {x}) + own
  {
    if q0 != qn {
      assert rq[qn] + [] == rq[qn];
    }
  }


  /** Dispatch keeps the queues GC keeps, and the live tasks, x among them. */
  lemma DispatchKeys(m: MQ, x: TaskId, now: Time)
    requires Valid(m) && x in m.tasks && m.tasks[x].CanDispatch(now)
    ensures var c := Dispatch(m, x, now);
      && c.queues.Keys == GC(m, now).queues.Keys
      && x in Live(m, now) && Live(c, now) == Live(m, now)
  {
    var c := Dispatch(m, x, now);
    assert Live(c, now) == Live(m, now) by {
      DispatchEligibility(m, x, now);
      CleanLive(c, now);
    }
    DispatchMovesToTail(m, x, now);
  }

  lemma CleanLive(c: MQ, now: Time)
    requires Clean(c, now)
    ensures Live(c, now) == c.tasks.Keys
  {
  }

  /** A Dispatch of x followed by steps that keep the queues of GC and filter each queue
      by the live tasks outside rest before appending later: the whole is one filter of
      the queue before x's Dispatch, then x when qn is its queue, then later. */
  lemma DispatchThenFilter(m: MQ, x: TaskId, now: Time, qn: QueueName, r: MQ, rest: set<TaskId>, later: seq<TaskId>)
    requires Valid(m) && x in m.tasks && m.tasks[x].CanDispatch(now) && x !in rest
    requires var c := Dispatch(m, x, now);
      && (qn in r.queues <==> qn in GC(c, now).queues)
      && (qn in r.queues ==> qn in c.queues && r.queues[qn] == FilterIn(c.queues[qn], Live(c, now) - rest) + later)
    ensures qn in r.queues <==> qn in GC(m, now).queues
    ensures qn in r.queues ==>
      qn in m.queues && r.queues[qn] == FilterIn(m.queues[qn], Live(m, now) - ({x} + rest)) + ((if m.tasks[x].queue == Some(qn) then [x] else []) + later)
  {
    var c := Dispatch(m, x, now);
    var L := Live(m, now);
    assert GC(c, now) == c by {
      GCIdempotent(c, now);
    }
    assert c.queues.Keys == GC(m, now).queues.Keys && Live(c, now) == L && x in L by {
      DispatchKeys(m, x, now);
    }
    if qn in r.queues {
      assert qn in m.queues && c.queues[qn] == FilterIn(m.queues[qn], L - {x}) + (if m.tasks[x].queue == Some(qn) then [x] else []) by {
        DispatchQueueOf(m, x, now, qn);
      }
      Refilter(m.queues[qn], c.queues[qn], r.queues[qn], L, x, rest, (if m.tasks[x].queue == Some(qn) then [x] else []), later);
    }
  }

  /** The sequence step of DispatchThenFilter. */
  lemma Refilter(q: seq<TaskId>, cq: seq<TaskId>, rq: seq<TaskId>, L: set<TaskId>, x: TaskId, rest: set<TaskId>,
                 own: seq<TaskId>, later: seq<TaskId>)
    requires x in L && x !in rest && (own == [] || own == [x])
    requires cq == FilterIn(q, L - {x}) + own
    requires rq == FilterIn(cq, L - rest) + later
    ensures rq == FilterIn(q, L - ({x} + rest)) + (own + later)
  {
    RefilterMoved(q, L, x, rest, own);
  }

  /** The queues Dispatch does not touch hold their live tasks, x never among them. */
  lemma OtherQueues(mq: map<QueueName, seq<TaskId>>, gq: map<QueueName, seq<TaskId>>, rq: map<QueueName, seq<TaskId>>,
                    L: set<TaskId>, prune: bool, qn: QueueName, x: TaskId)
    requires gq == RestrictQueues(mq, L, prune) && rq.Keys == gq.Keys
    requires forall q | q in rq && q != qn :: rq[q] == gq[q]
    requires forall q | q in mq && q != qn :: x !in mq[q]
    ensures forall q | q in rq && q != qn :: q in mq && rq[q] == FilterIn(mq[q], L - {x})
  {
    forall q | q in rq && q != qn
      ensures q in mq && rq[q] == FilterIn(mq[q], L - {x})
    {
      FilterNotIn(mq[q], L, x);
    }
  }

  lemma MoveFacts(q0: seq<TaskId>, gq: map<QueueName, seq<TaskId>>, rq: map<QueueName, seq<TaskId>>,
                  qn: QueueName, x: TaskId, L: set<TaskId>)
    requires NoDup(q0) && x in q0 && x in L
    requires qn in gq && gq[qn] == FilterIn(q0, L)
    requires rq == gq[qn := RemoveFirst(gq[qn], x) + [x]]
    ensures qn in rq && rq[qn] == FilterIn(q0, L - {x}) + [x]
    ensures forall q | q in rq && q != qn :: rq[q] == gq[q]
    ensures rq.Keys == gq.Keys
  {
    TailMove(q0, L, x);
  }

  // Add and its inverse.

  /** mq.Add: create the queue if absent, append the task at its tail (which sets t.q),
      file the task under its id and push it on ByExpiry. */
  function Add(m: MQ, qn: QueueName, t: Task): (r: MQ)
    ensures t.id in r.tasks && r.tasks[t.id] == t.(queue := Some(qn))
    ensures qn in r.queues && r.queues[qn] == (if qn in m.queues then m.queues[qn] else []) + [t.id]
    ensures forall q | q in m.queues && q != qn :: q in r.queues && r.queues[q] == m.queues[q]
    ensures multiset(r.byExpiry) == multiset(m.byExpiry) + multiset{t.id}
    ensures r.byRetry == m.byRetry && r.prune == m.prune
  {
    var q := if qn in m.queues then m.queues[qn] else [];
    MQ(m.tasks[t.id := t.(queue := Some(qn))],
       m.queues[qn := q + [t.id]],
       m.byExpiry + [t.id],
       m.byRetry,
       m.prune)
  }

  /** Add keeps the invariant for a task with a fresh id, not dispatched, whose retry is
      not negative (what ToTask produces). */
  lemma AddValid(m: MQ, qn: QueueName, t: Task)
    requires Valid(m) && t.id !in m.tasks && !t.dispatched && t.retry >= 0
    ensures Valid(Add(m, qn, t))
  {
    AddTasks(m, qn, t);
    AddQueuesValid(m, qn, t);
    AddHeaps(m, qn, t);
  }

  lemma AddTasks(m: MQ, qn: QueueName, t: Task)
    requires Valid(m) && t.id !in m.tasks && t.retry >= 0
    ensures TasksWellFormed(Add(m, qn, t))
  {
    var a := Add(m, qn, t);
    forall x, q | x in a.tasks && q in a.queues && a.tasks[x].queue == Some(q)
      ensures x in a.queues[q]
    {
      if x != t.id {
        assert q in m.queues && x in m.queues[q];
      }
    }
  }

  lemma AddQueuesValid(m: MQ, qn: QueueName, t: Task)
    requires Valid(m) && t.id !in m.tasks
    ensures QueuesWellFormed(Add(m, qn, t))
  {
    var a := Add(m, qn, t);
    var q := if qn in m.queues then m.queues[qn] else [];
    assert t.id !in q;
    NoDupAppend(q, t.id);
    forall p | p in a.queues
      ensures NoDup(a.queues[p])
      ensures a.prune ==> |a.queues[p]| > 0
      ensures forall x | x in a.queues[p] :: x in a.tasks && a.tasks[x].queue == Some(p)
    {
      if p != qn {
        assert p in m.queues && a.queues[p] == m.queues[p];
      }
    }
  }

  lemma AddHeaps(m: MQ, qn: QueueName, t: Task)
    requires Valid(m) && t.id !in m.tasks && !t.dispatched
    ensures HeapsWellFormed(Add(m, qn, t))
  {
    var a := Add(m, qn, t);
    assert a.byExpiry == m.byExpiry + [t.id];
    assert t.id !in m.byExpiry;
    NoDupAppend(m.byExpiry, t.id);
  }

  /** Deleting a task just added restores the broker, provided the queue already existed
      or the table prunes empty queues. */
  lemma AddThenDelete(m: MQ, qn: QueueName, t: Task)
    requires Valid(m) && t.id !in m.tasks && !t.dispatched && t.retry >= 0
    requires qn in m.queues || m.prune
    ensures Valid(Add(m, qn, t))
    ensures DeleteTask(Add(m, qn, t), t.id) == m
  {
    AddValid(m, qn, t);
    var a := Add(m, qn, t);
    assert a.tasks.Keys - {t.id} == m.tasks.Keys;
    QueuesInside(m, m.tasks.Keys);
    HeapsInside(m, m.tasks.Keys);
    AddRestrict(m, qn, t);
  }

  lemma AddRestrict(m: MQ, qn: QueueName, t: Task)
    requires t.id !in m.tasks && (qn in m.queues || m.prune)
    requires forall q | q in m.queues :: (m.prune ==> |m.queues[q]| > 0) && forall x | x in m.queues[q] :: x in m.tasks.Keys
    requires forall e | e in m.byExpiry :: e in m.tasks.Keys
    requires forall e | e in m.byRetry :: e in m.tasks.Keys
    ensures Restrict(Add(m, qn, t), m.tasks.Keys) == m
  {
    var K := m.tasks.Keys;
    var a := Add(m, qn, t);
    var r := Restrict(a, K);
    AddQueues(m.queues, K, qn, t.id, m.prune);
    FilterDropsNew(m.byExpiry, K, t.id);
    assert a.byExpiry == m.byExpiry + [t.id];
    FilterAll(m.byRetry, K);
    AddRestrictTasks(m, qn, t);
    SameFields(r, m);
  }

  lemma AddRestrictTasks(m: MQ, qn: QueueName, t: Task)
    requires t.id !in m.tasks
    ensures Restrict(Add(m, qn, t), m.tasks.Keys).tasks == m.tasks
  {
    var a := Restrict(Add(m, qn, t), m.tasks.Keys).tasks;
    assert a.Keys == m.tasks.Keys;
  }

  lemma FilterDropsNew(b: seq<TaskId>, K: set<TaskId>, id: TaskId)
    requires id !in K && forall e | e in b :: e in K
    ensures FilterIn(b + [id], K) == b
  {
    FilterAppend(b, [id], K);
    FilterAll(b, K);
    assert FilterIn([id], K) == [];
  }

  lemma AddQueues(qs: map<QueueName, seq<TaskId>>, K: set<TaskId>, qn: QueueName, id: TaskId, prune: bool)
    requires id !in K && (qn in qs || prune)
    requires forall q | q in qs :: (prune ==> |qs[q]| > 0) && forall x | x in qs[q] :: x in K
    ensures RestrictQueues(qs[qn := (if qn in qs then qs[qn] else []) + [id]], K, prune) == qs
  {
    var q0 := if qn in qs then qs[qn] else [];
    var a := qs[qn := q0 + [id]];
    var rq := RestrictQueues(a, K, prune);
    forall p | p in a
      ensures p in rq <==> p in qs
      ensures p in rq ==> rq[p] == qs[p]
    {
      if p == qn {
        FilterDropsNew(q0, K, id);
      } else {
        FilterAll(qs[p], K);
      }
    }
    SameTable(a, rq, qs);
  }
}
