/** server.go: the sequential logic of the request handlers, each a step of the broker
    taken under the server lock, with the clock reading `now` as a parameter. */
module Server {

  import opened Options
  import opened Seqs
  import opened Tasks
  import opened Broker
  import opened Matching
  import opened DList
  import Waiters

  // GetID.

  /** GetID draws ids until one is not a key of Tasks. The random source is the
      sequence of ids it yields; None means this finite stream has no fresh id. */
  method GetID(tasks: map<TaskId, Task>, draws: seq<TaskId>) returns (id: Option<TaskId>, k: nat)
    ensures id.Some? <==> exists i | 0 <= i < |draws| :: draws[i] !in tasks
    ensures id.Some? ==> k < |draws| && draws[k] == id.value && id.value !in tasks
    ensures id.Some? ==> forall i | 0 <= i < k :: draws[i] in tasks
  {
    k := 0;
    while k < |draws|
      invariant k <= |draws|
      invariant forall i | 0 <= i < k :: draws[i] in tasks
    {
      if draws[k] !in tasks {
        return Some(draws[k]), k;
      }
      k := k + 1;
    }
    id := None;
  }

  // Consume.

  /** Slots Consume can serve: every task in them can be dispatched now, and none occurs
      twice. */
  ghost predicate Dispatchable(m: MQ, slots: seq<Option<TaskId>>, now: Time) {
    && (forall k | 0 <= k < |slots| && slots[k].Some? ::
          slots[k].value in m.tasks && m.tasks[slots[k].value].CanDispatch(now))
    && (forall i, j | 0 <= i < j < |slots| && slots[i].Some? :: slots[i] != slots[j])
  }

  /** Consume: mq.Dispatch on each non-nil slot, in order. */
  function Consume(m: MQ, slots: seq<Option<TaskId>>, now: Time): (r: MQ)
    requires Valid(m) && Dispatchable(m, slots, now)
    ensures Valid(r)
    ensures Clean(m, now) ==> Clean(r, now)
    decreases |slots|
  {
    if |slots| == 0 then m
    else Consume(ConsumeHead(m, slots, now), slots[1..], now)
  }

  /** Afterwards the tasks that can be dispatched are those that could before, less the
      ones just handed out. */
  lemma {:induction false} ConsumeEligibility(m: MQ, slots: seq<Option<TaskId>>, now: Time, y: TaskId)
    requires Valid(m) && Dispatchable(m, slots, now)
    ensures var r := Consume(m, slots, now);
      (y in r.tasks && r.tasks[y].CanDispatch(now)) <==>
      (y in m.tasks && m.tasks[y].CanDispatch(now) && Some(y) !in slots)
    decreases |slots|
  {
    if |slots| > 0 {
      assert slots == [slots[0]] + slots[1..];
      ConsumeHeadEligibility(m, slots, now, y);
      ConsumeEligibility(ConsumeHead(m, slots, now), slots[1..], now, y);
    }
  }

  /** The first dispatch of Consume. */
  function ConsumeHead(m: MQ, slots: seq<Option<TaskId>>, now: Time): (c: MQ)
    requires Valid(m) && Dispatchable(m, slots, now) && |slots| > 0
    ensures Valid(c) && Dispatchable(c, slots[1..], now)
    ensures Clean(m, now) ==> Clean(c, now)
  {
    if slots[0].None? then m
    else
      var x := slots[0].value;
      DispatchEligibility(m, x, now);
      var c := Dispatch(m, x, now);
      assert forall k | 1 <= k < |slots| :: slots[k] != slots[0];
      c
  }

  lemma ConsumeHeadEligibility(m: MQ, slots: seq<Option<TaskId>>, now: Time, y: TaskId)
    requires Valid(m) && Dispatchable(m, slots, now) && |slots| > 0
    ensures var c := ConsumeHead(m, slots, now);
      (y in c.tasks && c.tasks[y].CanDispatch(now)) <==>
      (y in m.tasks && m.tasks[y].CanDispatch(now) && Some(y) != slots[0])
  {
    if slots[0].Some? {
      DispatchEligibility(m, slots[0].value, now);
    }
  }

  /** Consume task by task: it drops only expired tasks, changes a task only by leases
      (so a lease taken now looks the same before and after), and leaves a live task
      with no overdue lease as it was unless it is in a slot. */
  lemma ConsumeEffect(m: MQ, slots: seq<Option<TaskId>>, now: Time, y: TaskId)
    requires Valid(m) && Dispatchable(m, slots, now)
    ensures var r := Consume(m, slots, now);
      && (y in r.tasks ==> y in m.tasks && r.tasks[y].Dispatch(now) == m.tasks[y].Dispatch(now))
      && (y in m.tasks && !m.tasks[y].Expired(now) ==> y in r.tasks)
      && (y in m.tasks && !m.tasks[y].Expired(now) && !m.tasks[y].NeedRetry(now) && Some(y) !in slots ==>
            r.tasks[y] == m.tasks[y])
  {
    ConsumeLeaseOnly(m, slots, now, y);
    ConsumeKeepsLive(m, slots, now, y);
    if y in m.tasks && !m.tasks[y].Expired(now) && !m.tasks[y].NeedRetry(now) && Some(y) !in slots {
      ConsumeLeavesOthers(m, slots, now, y);
    }
  }

  lemma {:induction false} ConsumeLeaseOnly(m: MQ, slots: seq<Option<TaskId>>, now: Time, y: TaskId)
    requires Valid(m) && Dispatchable(m, slots, now)
    ensures var r := Consume(m, slots, now);
      y in r.tasks ==> y in m.tasks && r.tasks[y].Dispatch(now) == m.tasks[y].Dispatch(now)
    decreases |slots|
  {
    if |slots| > 0 {
      var c := ConsumeHead(m, slots, now);
      ConsumeHeadEffect(m, slots, now, y);
      ConsumeLeaseOnly(c, slots[1..], now, y);
      assert Consume(m, slots, now) == Consume(c, slots[1..], now);
    }
  }

  lemma {:induction false} ConsumeKeepsLive(m: MQ, slots: seq<Option<TaskId>>, now: Time, y: TaskId)
    requires Valid(m) && Dispatchable(m, slots, now)
    ensures var r := Consume(m, slots, now);
      y in m.tasks && !m.tasks[y].Expired(now) ==> y in r.tasks
    decreases |slots|
  {
    if |slots| > 0 {
      var c := ConsumeHead(m, slots, now);
      ConsumeHeadEffect(m, slots, now, y);
      ConsumeKeepsLive(c, slots[1..], now, y);
      assert Consume(m, slots, now) == Consume(c, slots[1..], now);
    }
  }

  lemma {:induction false} ConsumeLeavesOthers(m: MQ, slots: seq<Option<TaskId>>, now: Time, y: TaskId)
    requires Valid(m) && Dispatchable(m, slots, now)
    requires y in m.tasks && !m.tasks[y].Expired(now) && !m.tasks[y].NeedRetry(now) && Some(y) !in slots
    ensures var r := Consume(m, slots, now);
      y in r.tasks && r.tasks[y] == m.tasks[y]
    decreases |slots|
  {
    if |slots| > 0 {
      var c := ConsumeHead(m, slots, now);
      NotInTail(slots, Some(y));
      ConsumeHeadEffect(m, slots, now, y);
      ConsumeLeavesOthers(c, slots[1..], now, y);
      assert Consume(m, slots, now) == Consume(c, slots[1..], now);
    }
  }

  /** ConsumeEffect for the first dispatch alone. */
  lemma ConsumeHeadEffect(m: MQ, slots: seq<Option<TaskId>>, now: Time, y: TaskId)
    requires Valid(m) && Dispatchable(m, slots, now) && |slots| > 0
    ensures var c := ConsumeHead(m, slots, now);
      && (y in c.tasks ==> y in m.tasks && c.tasks[y].Dispatch(now) == m.tasks[y].Dispatch(now))
      && (y in c.tasks ==> c.tasks[y].Expired(now) == m.tasks[y].Expired(now))
      && (y in m.tasks && !m.tasks[y].Expired(now) ==> y in c.tasks)
      && (y in m.tasks && !m.tasks[y].Expired(now) && !m.tasks[y].NeedRetry(now) && Some(y) != slots[0] ==>
            c.tasks[y] == m.tasks[y])
  {
    var c := ConsumeHead(m, slots, now);
    if slots[0].Some? {
      var x := slots[0].value;
      assert c == Dispatch(m, x, now);
      DispatchFrame(m, x, now, y);
      if y in c.tasks {
        var t := m.tasks[y];
        RedispatchAfterUndispatch(t, now);
        if y == x {
          assert c.tasks[y] == t.Dispatch(now);
        } else if t.NeedRetry(now) {
          assert c.tasks[y] == t.Undispatch();
        } else {
          assert c.tasks[y] == t;
        }
      }
    }
  }

  /** Every task in a slot ends up leased from now, as Task.Dispatch says. */
  lemma {:induction false} ConsumeRecord(m: MQ, slots: seq<Option<TaskId>>, now: Time, x: TaskId)
    requires Valid(m) && Dispatchable(m, slots, now) && Some(x) in slots
    ensures x in m.tasks
    ensures var r := Consume(m, slots, now);
      x in r.tasks && r.tasks[x] == m.tasks[x].Dispatch(now)
    decreases |slots|, 1
  {
    if slots[0] == Some(x) {
      ConsumeRecordHead(m, slots, now, x);
    } else {
      ConsumeRecordLater(m, slots, now, x);
    }
  }

  lemma {:induction false} ConsumeRecordHead(m: MQ, slots: seq<Option<TaskId>>, now: Time, x: TaskId)
    requires Valid(m) && Dispatchable(m, slots, now) && |slots| > 0 && slots[0] == Some(x)
    ensures x in m.tasks
    ensures var r := Consume(m, slots, now);
      x in r.tasks && r.tasks[x] == m.tasks[x].Dispatch(now)
  {
    var c := ConsumeHead(m, slots, now);
    assert Some(x) !in slots[1..] by {
      assert forall k | 1 <= k < |slots| :: slots[k] != slots[0];
    }
    ConsumeEffect(c, slots[1..], now, x);
    assert Consume(m, slots, now) == Consume(c, slots[1..], now);
  }

  lemma {:induction false} ConsumeRecordLater(m: MQ, slots: seq<Option<TaskId>>, now: Time, x: TaskId)
    requires Valid(m) && Dispatchable(m, slots, now) && |slots| > 0 && slots[0] != Some(x)
    requires Some(x) in slots
    ensures x in m.tasks
    ensures var r := Consume(m, slots, now);
      x in r.tasks && r.tasks[x] == m.tasks[x].Dispatch(now)
    decreases |slots|, 0
  {
    var c := ConsumeHead(m, slots, now);
    var k := InTail(slots, Some(x));
    assert slots[k].value in m.tasks && m.tasks[slots[k].value].CanDispatch(now);
    ConsumeHeadEffect(m, slots, now, x);
    ConsumeRecord(c, slots[1..], now, x);
    assert Consume(m, slots, now) == Consume(c, slots[1..], now);
  }

  /** [x] when the q pointer of x names qn, and [] otherwise. */
  function Own(tasks: map<TaskId, Task>, x: TaskId, qn: QueueName): seq<TaskId> {
    if x in tasks && tasks[x].queue == Some(qn) then [x] else []
  }

  /** The tasks in the slots. */
  function SlotTasks(slots: seq<Option<TaskId>>): set<TaskId> {
    set k | 0 <= k < |slots| && slots[k].Some? :: slots[k].value
  }

  /** Every slot is nil. */
  predicate NoTasks(slots: seq<Option<TaskId>>) {
    forall k | 0 <= k < |slots| :: slots[k].None?
  }


  /** The slot tasks that belong to queue qn, in slot order. */
  function Picks(tasks: map<TaskId, Task>, slots: seq<Option<TaskId>>, qn: QueueName): seq<TaskId> {
    if |slots| == 0 then []
    else (if slots[0].Some? then Own(tasks, slots[0].value, qn) else []) + Picks(tasks, slots[1..], qn)
  }

  /** Consume queue by queue. With every slot nil nothing happens. Otherwise the table
      has the queues GC keeps, and each of them holds its live tasks that were not handed
      out, in their old order, then its handed-out tasks in slot order: every
      mq.Dispatch moves its task to the tail. */
  lemma {:induction false} ConsumeQueues(m: MQ, slots: seq<Option<TaskId>>, now: Time, qn: QueueName)
    requires Valid(m) && Dispatchable(m, slots, now)
    ensures var r := Consume(m, slots, now);
      && (NoTasks(slots) ==> r == m)
      && (!NoTasks(slots) ==> (qn in r.queues <==> qn in GC(m, now).queues))
      && (!NoTasks(slots) && qn in r.queues ==>
            qn in m.queues &&
            r.queues[qn] == FilterIn(m.queues[qn], Live(m, now) - SlotTasks(slots)) + Picks(m.tasks, slots, qn))
    decreases |slots|, 1
  {
    if |slots| > 0 {
      if slots[0].None? {
        var c := ConsumeHead(m, slots, now);
        assert Consume(m, slots, now) == Consume(c, slots[1..], now);
        SlotsSkip(m.tasks, slots, qn);
        ConsumeQueues(m, slots[1..], now, qn);
      } else {
        ConsumeQueuesHead(m, slots, now, qn);
      }
    }
  }

  /** A nil first slot adds nothing. */
  lemma SlotsSkip(tasks: map<TaskId, Task>, slots: seq<Option<TaskId>>, qn: QueueName)
    requires |slots| > 0 && slots[0].None?
    ensures NoTasks(slots) <==> NoTasks(slots[1..])
    ensures SlotTasks(slots) == SlotTasks(slots[1..])
    ensures Picks(tasks, slots, qn) == Picks(tasks, slots[1..], qn)
  {
    forall x | x in SlotTasks(slots)
      ensures x in SlotTasks(slots[1..])
    {
      var k :| 0 <= k < |slots| && slots[k].Some? && slots[k].value == x;
      assert slots[1..][k - 1] == slots[k];
    }
    forall x | x in SlotTasks(slots[1..])
      ensures x in SlotTasks(slots)
    {
      var k :| 0 <= k < |slots[1..]| && slots[1..][k].Some? && slots[1..][k].value == x;
      assert slots[k + 1] == slots[1..][k];
    }
    if !NoTasks(slots) {
      var k :| 0 <= k < |slots| && slots[k].Some?;
      assert slots[1..][k - 1] == slots[k];
    }
  }

  /** A first slot holding x: x joins the set and, when it belongs to qn, the picks. */
  lemma SlotsCons(m: MQ, slots: seq<Option<TaskId>>, now: Time, qn: QueueName)
    requires Dispatchable(m, slots, now) && |slots| > 0 && slots[0].Some?
    ensures !NoTasks(slots)
    ensures SlotTasks(slots) == {slots[0].value} + SlotTasks(slots[1..])
    ensures slots[0].value !in SlotTasks(slots[1..])
    ensures Picks(m.tasks, slots, qn) == Own(m.tasks, slots[0].value, qn) + Picks(m.tasks, slots[1..], qn)
    ensures NoTasks(slots[1..]) ==>
      SlotTasks(slots) == {slots[0].value} && Picks(m.tasks, slots, qn) == Own(m.tasks, slots[0].value, qn)
  {
    var x := slots[0].value;
    forall y | y in SlotTasks(slots) && y != x
      ensures y in SlotTasks(slots[1..])
    {
      var k :| 0 <= k < |slots| && slots[k].Some? && slots[k].value == y;
      assert slots[1..][k - 1] == slots[k];
    }
    forall y | y in SlotTasks(slots[1..])
      ensures y in SlotTasks(slots) && y != x
    {
      var k :| 0 <= k < |slots[1..]| && slots[1..][k].Some? && slots[1..][k].value == y;
      assert slots[k + 1] == slots[1..][k];
    }
    if NoTasks(slots[1..]) {
      PicksNone(m.tasks, slots[1..], qn);
      assert Own(m.tasks, x, qn) + [] == Own(m.tasks, x, qn);
    }
  }

  /** ConsumeQueues when the first slot holds a task: one Dispatch, then the rest. */
  lemma {:induction false} ConsumeQueuesHead(m: MQ, slots: seq<Option<TaskId>>, now: Time, qn: QueueName)
    requires Valid(m) && Dispatchable(m, slots, now) && |slots| > 0 && slots[0].Some?
    ensures var r := Consume(m, slots, now);
      && !NoTasks(slots)
      && (qn in r.queues <==> qn in GC(m, now).queues)
      && (qn in r.queues ==>
            qn in m.queues &&
            r.queues[qn] == FilterIn(m.queues[qn], Live(m, now) - SlotTasks(slots)) + Picks(m.tasks, slots, qn))
    decreases |slots|, 0
  {
    var x := slots[0].value;
    var c := ConsumeHead(m, slots, now);
    var tail := slots[1..];
    var r := Consume(c, tail, now);
    var S := SlotTasks(slots);
    var picks := Picks(m.tasks, slots, qn);
    assert Consume(m, slots, now) == r;
    assert c == Dispatch(m, x, now);
    assert Own(m.tasks, x, qn) == if m.tasks[x].queue == Some(qn) then [x] else [];
    assert !NoTasks(slots) && S == {x} + SlotTasks(tail) && x !in SlotTasks(tail)
        && picks == Own(m.tasks, x, qn) + Picks(m.tasks, tail, qn)
        && (NoTasks(tail) ==> S == {x} && picks == Own(m.tasks, x, qn)) by {
      SlotsCons(m, slots, now, qn);
    }
    assert Picks(c.tasks, tail, qn) == Picks(m.tasks, tail, qn) by {
      ConsumePicksSame(m, slots, now, qn);
    }
    assert && (NoTasks(tail) ==> r == c)
           && (!NoTasks(tail) ==> (qn in r.queues <==> qn in GC(c, now).queues))
           && (!NoTasks(tail) && qn in r.queues ==>
                 qn in c.queues &&
                 r.queues[qn] == FilterIn(c.queues[qn], Live(c, now) - SlotTasks(tail)) + Picks(c.tasks, tail, qn)) by {
      ConsumeQueues(c, tail, now, qn);
    }
    if NoTasks(tail) {
      assert (qn in c.queues <==> qn in GC(m, now).queues)
          && (qn in c.queues ==> qn in m.queues && c.queues[qn] == FilterIn(m.queues[qn], Live(m, now) - {x}) + Own(m.tasks, x, qn)) by {
        DispatchKeys(m, x, now);
        DispatchQueueOf(m, x, now, qn);
      }
    } else {
      DispatchThenFilter(m, x, now, qn, r, SlotTasks(tail), Picks(m.tasks, tail, qn));
    }
  }

  lemma {:induction false} PicksNone(tasks: map<TaskId, Task>, slots: seq<Option<TaskId>>, qn: QueueName)
    requires NoTasks(slots)
    ensures Picks(tasks, slots, qn) == []
  {
    if |slots| > 0 {
      PicksNone(tasks, slots[1..], qn);
    }
  }

  /** The tail's picks read the same q pointers before and after the first Dispatch. */
  lemma ConsumePicksSame(m: MQ, slots: seq<Option<TaskId>>, now: Time, qn: QueueName)
    requires Valid(m) && Dispatchable(m, slots, now) && |slots| > 0 && slots[0].Some?
    ensures Picks(ConsumeHead(m, slots, now).tasks, slots[1..], qn) == Picks(m.tasks, slots[1..], qn)
  {
    var x := slots[0].value;
    var c := ConsumeHead(m, slots, now);
    var tail := slots[1..];
    forall k | 0 <= k < |tail| && tail[k].Some?
      ensures tail[k].value in c.tasks && tail[k].value in m.tasks
      ensures c.tasks[tail[k].value].queue == m.tasks[tail[k].value].queue
    {
      assert tail[k] == slots[k + 1];
      DispatchFrame(m, x, now, tail[k].value);
    }
    PicksSame(c.tasks, m.tasks, tail, qn);
  }

  /** Picks depends only on the q pointers of the slot tasks. */
  lemma {:induction false} PicksSame(a: map<TaskId, Task>, b: map<TaskId, Task>, slots: seq<Option<TaskId>>, qn: QueueName)
    requires forall k | 0 <= k < |slots| && slots[k].Some? ::
      slots[k].value in a && slots[k].value in b && a[slots[k].value].queue == b[slots[k].value].queue
    ensures Picks(a, slots, qn) == Picks(b, slots, qn)
  {
    if |slots| > 0 {
      assert forall k | 1 <= k < |slots| :: slots[1..][k - 1] == slots[k];
      PicksSame(a, b, slots[1..], qn);
    }
  }

  // Peek.

  /** Peek: up to n tasks of the queue that can be dispatched now, in queue order;
      nothing for a missing queue or a non-positive n. */
  method Peek(m: MQ, qn: QueueName, n: int, now: Time) returns (ts: seq<TaskId>)
    requires QueuesKnown(m)
    ensures qn !in m.queues ==> ts == []
    ensures qn in m.queues ==>
      var e := Avail(m, qn, now);
      ts == e[..if n <= 0 then 0 else if n < |e| then n else |e|]
  {
    ts := [];
    if qn in m.queues {
      ts := PeekScan(m.queues[qn], m.tasks, n, now);
    }
  }

  /** The scan loop of Peek: NextUndispatched from just past the last task taken, until
      n tasks are taken or the scan finds nothing. */
  method PeekScan(s: seq<TaskId>, tasks: map<TaskId, Task>, n: int, now: Time) returns (ts: seq<TaskId>)
    requires Known(s, tasks)
    ensures var e := Eligible(s, tasks, now);
      ts == e[..if n <= 0 then 0 else if n < |e| then n else |e|]
  {
    ts := [];
    ghost var e := Eligible(s, tasks, now);
    var t := 0;
    var i := 0;
    assert s[0..] == s;
    while i < n
      invariant 0 <= i <= (if n > 0 then n else 0) && 0 <= t <= |s|
      invariant i <= |e| && ts == e[..i]
      invariant Eligible(s[t..], tasks, now) == e[i..]
    {
      var u := NextEligible(s, t, tasks, now);
      PeekAdvance(s, tasks, now, e, t, i, ts);
      if u.None? {
        break;
      }
      ts := ts + [s[u.value]];
      t := u.value + 1;
      i := i + 1;
    }
  }

  /** One round of the scan loop: it takes the next task of the reference scan, or finds
      nothing exactly when the reference scan is used up. */
  lemma PeekAdvance(s: seq<TaskId>, tasks: map<TaskId, Task>, now: Time, e: seq<TaskId>, t: nat, i: nat, ts: seq<TaskId>)
    requires Known(s, tasks) && t <= |s| && i <= |e| && ts == e[..i]
    requires Eligible(s[t..], tasks, now) == e[i..]
    ensures NextEligible(s, t, tasks, now).None? ==> i == |e|
    ensures NextEligible(s, t, tasks, now).Some? ==>
      var j := NextEligible(s, t, tasks, now).value;
      && j + 1 <= |s| && i + 1 <= |e|
      && ts + [s[j]] == e[..i + 1]
      && Eligible(s[j + 1..], tasks, now) == e[i + 1..]
  {
    ScanAdvance(s, t, tasks, now, e, i);
    if NextEligible(s, t, tasks, now).Some? {
      var j := NextEligible(s, t, tasks, now).value;
      assert e[..i + 1] == e[..i] + [e[i]];
    }
  }

  /** What Peek returns: distinct tasks of the queue, each dispatchable now, at most n. */
  lemma PeekFacts(m: MQ, qn: QueueName, n: int, now: Time, ts: seq<TaskId>)
    requires Valid(m) && QueuesKnown(m) && qn in m.queues
    requires ts == Avail(m, qn, now)[..if n <= 0 then 0 else if n < |Avail(m, qn, now)| then n else |Avail(m, qn, now)|]
    ensures NoDup(ts) && |ts| <= (if n <= 0 then 0 else n)
    ensures forall x | x in ts :: x in m.queues[qn] && x in m.tasks && m.tasks[x].CanDispatch(now)
  {
    ValidQueuesKnown(m);
    var e := Avail(m, qn, now);
    EligibleNoDup(m.queues[qn], m.tasks, now);
    forall x | x in ts
      ensures x in m.queues[qn] && x in m.tasks && m.tasks[x].CanDispatch(now)
    {
      assert x in e;
      EligibleMembers(m.queues[qn], m.tasks, now, x);
    }
  }

  // Enqueue.

  /** The core of Enqueue: build the task with ToTask under a fresh id and Add it to the
      named queue. */
  function Enqueue(m: MQ, qn: QueueName, tc: TaskConfig, id: TaskId, now: Time): (r: MQ)
    requires Valid(m) && id !in m.tasks
    ensures Valid(r)
    ensures id in r.tasks && r.tasks[id].queue == Some(qn) && r.tasks[id].CanDispatch(now)
  {
    var t := ToTask(tc, id, now);
    AddValid(m, qn, t);
    Add(m, qn, t)
  }

  /** A new task joins the tail of its queue's line: it is served after every task that
      was already waiting there, and no other queue's line changes. */
  lemma EnqueueServedLast(m: MQ, qn: QueueName, tc: TaskConfig, id: TaskId, now: Time)
    requires Valid(m) && id !in m.tasks
    ensures QueuesKnown(m) && QueuesKnown(Enqueue(m, qn, tc, id, now))
    ensures var r := Enqueue(m, qn, tc, id, now);
      && qn in r.queues
      && Avail(r, qn, now) == (if qn in m.queues then Avail(m, qn, now) else []) + [id]
      && forall q | q in m.queues && q != qn :: q in r.queues && Avail(r, q, now) == Avail(m, q, now)
  {
    ValidQueuesKnown(m);
    var r := Enqueue(m, qn, tc, id, now);
    ValidQueuesKnown(r);
    var q0 := if qn in m.queues then m.queues[qn] else [];
    assert Known(q0, r.tasks);
    EligibleAppend(q0, id, r.tasks, now);
    EligibleFrame(q0, r.tasks, m.tasks, now);
    forall q | q in m.queues && q != qn
      ensures q in r.queues && Avail(r, q, now) == Avail(m, q, now)
    {
      EligibleFrame(m.queues[q], r.tasks, m.tasks, now);
    }
  }

  /** Acknowledging a task right after enqueueing it restores the broker (when its queue
      already existed or emptied queues are pruned). */
  lemma EnqueueThenDelete(m: MQ, qn: QueueName, tc: TaskConfig, id: TaskId, now: Time)
    requires Valid(m) && id !in m.tasks && (qn in m.queues || m.prune)
    ensures DeleteTask(Enqueue(m, qn, tc, id, now), id) == m
  {
    AddThenDelete(m, qn, ToTask(tc, id, now));
  }

  // The matching pass of UpdateWaitSpecs.

  /** A WaitDone sent on a waiter's ready channel: the waiter's position in the list and
      the tasks it receives, one per requested queue. */
  datatype Notice = Notice(waiter: nat, tasks: seq<TaskId>)

  /** Every task some notice carries. */
  function Handed(sent: seq<Notice>): set<TaskId> {
    set k, x | 0 <= k < |sent| && x in sent[k].tasks :: x
  }

  lemma HandedAppend(sent: seq<Notice>, n: Notice)
    ensures Handed(sent + [n]) == Handed(sent) + set x | x in n.tasks
  {
    var s' := sent + [n];
    forall x | x in Handed(s')
      ensures x in Handed(sent) || x in n.tasks
    {
      var k :| 0 <= k < |s'| && x in s'[k].tasks;
      if k < |sent| {
        assert s'[k] == sent[k];
      }
    }
    forall x | x in n.tasks
      ensures x in Handed(s')
    {
      assert s'[|sent|] == n;
    }
    forall x | x in Handed(sent)
      ensures x in Handed(s')
    {
      var k :| 0 <= k < |sent| && x in sent[k].tasks;
      assert s'[k] == sent[k];
    }
  }

  /** Ready's tasks as Consume's slots, none of them nil. */
  function Lift(ts: seq<TaskId>): (slots: seq<Option<TaskId>>)
    ensures |slots| == |ts| && forall k | 0 <= k < |ts| :: slots[k] == Some(ts[k])
    ensures forall x :: Some(x) in slots <==> x in ts
  {
    seq(|ts|, k requires 0 <= k < |ts| => Some(ts[k]))
  }

  /** The notices of a pass that has looked at the first i waiters: for distinct waiters
      among them, in list order, each with one task per requested queue, none twice, and
      no task in two notices. */
  ghost predicate NoticesOk(waiters: seq<WaitSpec>, i: nat, sent: seq<Notice>) {
    && (forall k | 0 <= k < |sent| ::
          && sent[k].waiter < i && sent[k].waiter < |waiters|
          && |sent[k].tasks| == |waiters[sent[k].waiter].queues|
          && NoDup(sent[k].tasks))
    && (forall k, l | 0 <= k < l < |sent| :: sent[k].waiter < sent[l].waiter)
    && (forall k, l, x | 0 <= k < l < |sent| && x in sent[k].tasks :: x !in sent[l].tasks)
  }

  /** The broker after handing out `sent`, against m: a task can be dispatched iff it
      could be in m and was not handed out; a handed-out task is leased from now; and a
      task differs from its m record at most in its lease. */
  ghost predicate Leases(m: MQ, r: MQ, sent: seq<Notice>, now: Time) {
    && (forall y :: (y in r.tasks && r.tasks[y].CanDispatch(now)) <==>
          (y in m.tasks && m.tasks[y].CanDispatch(now) && y !in Handed(sent)))
    && (forall x | x in Handed(sent) :: x in m.tasks && x in r.tasks && r.tasks[x] == m.tasks[x].Dispatch(now))
    && (forall y | y in r.tasks :: y in m.tasks && r.tasks[y].Dispatch(now) == m.tasks[y].Dispatch(now))
  }

  /** UpdateWaitSpecs: GC once, then visit the waiters head to tail; a waiter whose Ready
      succeeds has its tasks dispatched (before the next waiter is looked at) and is
      sent them. No task goes to two waiters, every task sent is leased from now, and the
      notices are those of the reference pass Plan over the broker GC leaves: each waiter,
      oldest first, gets Serve's answer against the tasks the waiters before it received. */
  method UpdateWaitSpecs(m: MQ, waiters: seq<WaitSpec>, now: Time) returns (r: MQ, sent: seq<Notice>)
    requires Valid(m)
    ensures Valid(r) && Clean(r, now)
    ensures NoticesOk(waiters, |waiters|, sent)
    ensures Leases(m, r, sent, now)
    ensures |sent| == 0 ==> r == GC(m, now)
    ensures QueuesKnown(GC(m, now))
    ensures |waiters| > 0 ==>
      (|sent| > 0 && sent[0].waiter == 0 <==> Ready(GC(m, now), waiters[0].queues, now).Some?)
    ensures forall k | 0 <= k < |sent| :: Answers(GC(m, now), waiters[sent[k].waiter].queues, sent[k].tasks, now)
    ensures QueuesKnown(r)
    ensures forall w | 0 <= w < |waiters| && Unserved(sent, w) :: Ready(r, waiters[w].queues, now).None?
    ensures sent == Plan(GC(m, now), waiters, now, 0, {})
    ensures Arranged(GC(m, now), r, sent)
    ensures forall k | 0 <= k < |sent| ::
      Serve(GC(m, now), waiters[sent[k].waiter].queues, HandedBefore(sent, sent[k].waiter), now) == Some(sent[k].tasks)
    ensures forall w | 0 <= w < |waiters| && Unserved(sent, w) ::
      Serve(GC(m, now), waiters[w].queues, HandedBefore(sent, w), now).None?
  {
    r, sent := Pass(m, waiters, now);
    PassEnd(m, waiters, now, r, sent);
  }

  /** The loop of UpdateWaitSpecs, from the broker GC leaves, one waiter at a time. */
  method Pass(m: MQ, waiters: seq<WaitSpec>, now: Time) returns (r: MQ, sent: seq<Notice>)
    requires Valid(m)
    ensures PassInv(m, waiters, now, |waiters|, r, sent)
  {
    r := GC(m, now);
    PassStart(m, waiters, now);
    sent := [];
    var i := 0;
    while i < |waiters|
      invariant PassInv(m, waiters, now, i, r, sent)
      decreases |waiters| - i
    {
      r, sent := Visit(m, waiters, now, i, r, sent);
      i := i + 1;
    }
  }

  /** One waiter of the pass: when Ready succeeds, its tasks are dispatched and sent to
      the waiter; otherwise nothing changes. */
  method Visit(m: MQ, waiters: seq<WaitSpec>, now: Time, i: nat, r: MQ, sent: seq<Notice>)
    returns (r': MQ, sent': seq<Notice>)
    requires PassInv(m, waiters, now, i, r, sent) && i < |waiters|
    ensures PassInv(m, waiters, now, i + 1, r', sent')
    ensures QueuesKnown(r)
    ensures Ready(r, waiters[i].queues, now).None? ==> r' == r && sent' == sent
    ensures Ready(r, waiters[i].queues, now).Some? ==> sent' == sent + [Notice(i, Ready(r, waiters[i].queues, now).value)]
  {
    PassStep(m, waiters, now, i, r, sent);
    var ready := Ready(r, waiters[i].queues, now);
    if ready.Some? {
      var ts := ready.value;
      r' := Consume(r, Lift(ts), now);
      sent' := sent + [Notice(i, ts)];
    } else {
      r', sent' := r, sent;
    }
  }

  /** What the finished pass promises. */
  lemma PassEnd(m: MQ, waiters: seq<WaitSpec>, now: Time, r: MQ, sent: seq<Notice>)
    requires PassInv(m, waiters, now, |waiters|, r, sent)
    ensures Valid(r) && Clean(r, now)
    ensures NoticesOk(waiters, |waiters|, sent)
    ensures Leases(m, r, sent, now)
    ensures |sent| == 0 ==> r == GC(m, now)
    ensures QueuesKnown(GC(m, now))
    ensures |waiters| > 0 ==>
      (|sent| > 0 && sent[0].waiter == 0 <==> Ready(GC(m, now), waiters[0].queues, now).Some?)
    ensures forall k | 0 <= k < |sent| :: Answers(GC(m, now), waiters[sent[k].waiter].queues, sent[k].tasks, now)
    ensures QueuesKnown(r)
    ensures forall w | 0 <= w < |waiters| && Unserved(sent, w) :: Ready(r, waiters[w].queues, now).None?
    ensures sent == Plan(GC(m, now), waiters, now, 0, {})
    ensures Arranged(GC(m, now), r, sent)
    ensures forall k | 0 <= k < |sent| ::
      Serve(GC(m, now), waiters[sent[k].waiter].queues, HandedBefore(sent, sent[k].waiter), now) == Some(sent[k].tasks)
    ensures forall w | 0 <= w < |waiters| && Unserved(sent, w) ::
      Serve(GC(m, now), waiters[w].queues, HandedBefore(sent, w), now).None?
  {
    PassDone(m, waiters, now, r, sent);
    PlanDone(GC(m, now), waiters, now, r, sent);
  }

  /** The end of the pass, against the reference pass: the notices are the plan's, so
      each waiter was served, or not, against the tasks handed to the waiters before it. */
  lemma PlanDone(g: MQ, waiters: seq<WaitSpec>, now: Time, r: MQ, sent: seq<Notice>)
    requires PlanAt(g, waiters, now, |waiters|, r, sent)
    ensures QueuesKnown(g)
    ensures sent == Plan(g, waiters, now, 0, {})
    ensures Arranged(g, r, sent)
    ensures forall k | 0 <= k < |sent| :: sent[k].waiter < |waiters|
    ensures forall k | 0 <= k < |sent| ::
      Serve(g, waiters[sent[k].waiter].queues, HandedBefore(sent, sent[k].waiter), now) == Some(sent[k].tasks)
    ensures forall w | 0 <= w < |waiters| && Unserved(sent, w) ::
      Serve(g, waiters[w].queues, HandedBefore(sent, w), now).None?
  {
    assert sent + [] == sent;
    PlanFair(g, waiters, now, 0, {});
    forall w: nat
      ensures {} + HandedBefore(sent, w) == HandedBefore(sent, w)
    {
    }
  }

  /** The end of the pass: every waiter left without a notice still cannot be served. */
  lemma PassDone(m: MQ, waiters: seq<WaitSpec>, now: Time, r: MQ, sent: seq<Notice>)
    requires PassInv(m, waiters, now, |waiters|, r, sent)
    ensures QueuesKnown(r)
    ensures forall w | 0 <= w < |waiters| && Unserved(sent, w) :: Ready(r, waiters[w].queues, now).None?
  {
    ValidQueuesKnown(r);
    forall w | 0 <= w < |waiters| && Unserved(sent, w)
      ensures Ready(r, waiters[w].queues, now).None?
    {
      ReadyShort(m, r, sent, waiters[w].queues, now);
    }
  }

  /** What holds after the pass has looked at the first i waiters. */
  ghost predicate PassInv(m: MQ, waiters: seq<WaitSpec>, now: Time, i: nat, r: MQ, sent: seq<Notice>) {
    && Valid(m)
    && i <= |waiters|
    && Valid(r) && Clean(r, now)
    && NoticesOk(waiters, i, sent)
    && Leases(m, r, sent, now)
    && (|sent| == 0 ==> r == GC(m, now))
    && (i > 0 ==> QueuesKnown(GC(m, now)))
    && (i > 0 ==> (|sent| > 0 && sent[0].waiter == 0 <==> Ready(GC(m, now), waiters[0].queues, now).Some?))
    && NoticesFrom(m, waiters, sent, now)
    && SkippedShort(m, waiters, i, sent, now)
    && OnPlan(m, waiters, now, i, r, sent)
  }

  /** The pass so far agrees with the reference pass over GC(m, now): the queues are
      arranged for the notices sent, and the notices still to come are the plan's. */
  ghost predicate OnPlan(m: MQ, waiters: seq<WaitSpec>, now: Time, i: nat, r: MQ, sent: seq<Notice>) {
    Valid(m) && PlanAt(GC(m, now), waiters, now, i, r, sent)
  }

  ghost predicate PlanAt(g: MQ, waiters: seq<WaitSpec>, now: Time, i: nat, r: MQ, sent: seq<Notice>) {
    && QueuesKnown(g)
    && Arranged(g, r, sent)
    && sent + Plan(g, waiters, now, i, Handed(sent)) == Plan(g, waiters, now, 0, {})
  }

  /** One waiter of the pass: served if Ready succeeds, skipped otherwise. */
  lemma PassStep(m: MQ, waiters: seq<WaitSpec>, now: Time, i: nat, r: MQ, sent: seq<Notice>)
    requires PassInv(m, waiters, now, i, r, sent) && i < |waiters|
    ensures QueuesKnown(r)
    ensures var ready := Ready(r, waiters[i].queues, now);
      && (ready.None? ==> PassInv(m, waiters, now, i + 1, r, sent))
      && (ready.Some? ==> Valid(r) && Dispatchable(r, Lift(ready.value), now))
      && (ready.Some? ==>
            PassInv(m, waiters, now, i + 1, Consume(r, Lift(ready.value), now), sent + [Notice(i, ready.value)]))
  {
    ValidQueuesKnown(r);
    var g := GC(m, now);
    ValidQueuesKnown(g);
    PassFair(m, waiters, now, i, r, sent);
    var ready := Ready(r, waiters[i].queues, now);
    if ready.Some? {
      var ts := ready.value;
      PassServe(m, waiters, now, i, r, sent, ts);
      PlanServe(m, waiters, now, i, r, sent, ts);
      var r' := Consume(r, Lift(ts), now);
      var sent' := sent + [Notice(i, ts)];
      assert sent'[0].waiter == 0 <==> (|sent| == 0 && i == 0) || (|sent| > 0 && sent[0].waiter == 0);
    } else {
      NoticesGrow(waiters, i, sent);
      PlanSkip(m, waiters, now, i, r, sent);
    }
  }

  /** A waiter the pass skips is one the reference pass skips. */
  lemma PlanSkip(m: MQ, waiters: seq<WaitSpec>, now: Time, i: nat, r: MQ, sent: seq<Notice>)
    requires Valid(m) && Valid(r) && Leases(m, r, sent, now) && i < |waiters| && OnPlan(m, waiters, now, i, r, sent)
    requires QueuesKnown(r) && Ready(r, waiters[i].queues, now).None?
    ensures OnPlan(m, waiters, now, i + 1, r, sent)
  {
    PassPlan(m, waiters, now, i, r, sent);
  }

  /** A waiter the pass serves is one the reference pass serves, with the same tasks,
      and consuming them keeps the queues arranged. */
  lemma PlanServe(m: MQ, waiters: seq<WaitSpec>, now: Time, i: nat, r: MQ, sent: seq<Notice>, ts: seq<TaskId>)
    requires Valid(m) && Valid(r) && Clean(r, now) && Leases(m, r, sent, now)
    requires i < |waiters| && OnPlan(m, waiters, now, i, r, sent)
    requires QueuesKnown(r) && Ready(r, waiters[i].queues, now) == Some(ts) && Dispatchable(r, Lift(ts), now)
    ensures OnPlan(m, waiters, now, i + 1, Consume(r, Lift(ts), now), sent + [Notice(i, ts)])
  {
    var g := GC(m, now);
    PassPlan(m, waiters, now, i, r, sent);
    assert forall x | x in Handed(sent) :: x in r.tasks && !r.tasks[x].CanDispatch(now);
    QueuesAgree(m, r, sent, now);
    ArrangedStep(g, r, sent, Notice(i, ts), now);
  }

  /** One waiter of the pass, for the notices' origin and the waiters left waiting. */
  lemma PassFair(m: MQ, waiters: seq<WaitSpec>, now: Time, i: nat, r: MQ, sent: seq<Notice>)
    requires Valid(m) && Valid(r) && i < |waiters| && Leases(m, r, sent, now)
    requires NoticesFrom(m, waiters, sent, now) && SkippedShort(m, waiters, i, sent, now)
    ensures QueuesKnown(r)
    ensures var ready := Ready(r, waiters[i].queues, now);
      && (ready.None? ==> SkippedShort(m, waiters, i + 1, sent, now))
      && (ready.Some? ==> NoticesFrom(m, waiters, sent + [Notice(i, ready.value)], now))
      && (ready.Some? ==> SkippedShort(m, waiters, i + 1, sent + [Notice(i, ready.value)], now))
  {
    var names := waiters[i].queues;
    ReadyShort(m, r, sent, names, now);
    var ready := Ready(r, names, now);
    if ready.Some? {
      var n := Notice(i, ready.value);
      var sent' := sent + [n];
      HandedAppend(sent, n);
      forall k | 0 <= k < |sent'| && sent'[k].waiter < |waiters|
        ensures Answers(GC(m, now), waiters[sent'[k].waiter].queues, sent'[k].tasks, now)
      {
        if k < |sent| {
          assert sent'[k] == sent[k];
        } else {
          ServeFrom(m, r, sent, names, ready.value, now);
        }
      }
      forall w | 0 <= w < i + 1 && w < |waiters| && Unserved(sent', w)
        ensures Short(m, waiters[w].queues, Handed(sent'), now)
      {
        assert sent'[|sent|].waiter == i;
        forall k | 0 <= k < |sent|
          ensures sent[k].waiter != w
        {
          assert sent'[k] == sent[k];
        }
        ShortGrows(m, waiters[w].queues, Handed(sent), Handed(sent'), now);
      }
    }
  }

  /** Before the pass, the broker is GC(m, now) as the reference pass starts from it. */
  lemma PlanStart(m: MQ, waiters: seq<WaitSpec>, now: Time)
    requires Valid(m)
    ensures OnPlan(m, waiters, now, 0, GC(m, now), [])
  {
    var g := GC(m, now);
    ValidQueuesKnown(g);
    PlanAtStart(g, waiters, now);
  }

  lemma PlanAtStart(g: MQ, waiters: seq<WaitSpec>, now: Time)
    requires QueuesKnown(g)
    ensures PlanAt(g, waiters, now, 0, g, [])
  {
    assert Handed([]) == {};
    assert g.tasks.Keys - Handed([]) == g.tasks.Keys;
    forall qn | qn in g.queues
      ensures g.queues[qn] == FilterIn(g.queues[qn], g.tasks.Keys - Handed([])) + HandedTo(g.tasks, [], qn)
    {
      assert Known(g.queues[qn], g.tasks);
      FilterAll(g.queues[qn], g.tasks.Keys);
      assert HandedTo(g.tasks, [], qn) == [];
    }
    assert [] + Plan(g, waiters, now, 0, {}) == Plan(g, waiters, now, 0, {});
  }

  lemma NoticesGrow(waiters: seq<WaitSpec>, i: nat, sent: seq<Notice>)
    requires NoticesOk(waiters, i, sent)
    ensures NoticesOk(waiters, i + 1, sent)
  {
  }

  lemma PassStart(m: MQ, waiters: seq<WaitSpec>, now: Time)
    requires Valid(m)
    ensures PassInv(m, waiters, now, 0, GC(m, now), [])
  {
    GCEligibility(m, now);
    assert Handed([]) == {};
    PlanStart(m, waiters, now);
    forall y | y in GC(m, now).tasks
      ensures y in m.tasks && GC(m, now).tasks[y].Dispatch(now) == m.tasks[y].Dispatch(now)
    {
      GCLease(m, now, y);
    }
  }

  /** Serving waiter i with the tasks Ready found keeps the notices and leases right. */
  lemma PassServe(m: MQ, waiters: seq<WaitSpec>, now: Time, i: nat, r: MQ, sent: seq<Notice>, ts: seq<TaskId>)
    requires Valid(r) && Clean(r, now) && QueuesKnown(r) && i < |waiters|
    requires Ready(r, waiters[i].queues, now) == Some(ts)
    requires NoticesOk(waiters, i, sent) && Leases(m, r, sent, now)
    ensures Dispatchable(r, Lift(ts), now)
    ensures NoticesOk(waiters, i + 1, sent + [Notice(i, ts)])
    ensures Leases(m, Consume(r, Lift(ts), now), sent + [Notice(i, ts)], now)
  {
    ReadySpec(r, waiters[i].queues, now);
    PassNotices(m, waiters, i, r, sent, ts, now);
    PassLeases(m, r, sent, Notice(i, ts), now);
  }

  lemma PassNotices(m: MQ, waiters: seq<WaitSpec>, i: nat, r: MQ, sent: seq<Notice>, ts: seq<TaskId>, now: Time)
    requires i < |waiters| && NoticesOk(waiters, i, sent) && Leases(m, r, sent, now)
    requires |ts| == |waiters[i].queues| && NoDup(ts)
    requires forall x | x in ts :: x in r.tasks && r.tasks[x].CanDispatch(now)
    ensures NoticesOk(waiters, i + 1, sent + [Notice(i, ts)])
  {
    var sent' := sent + [Notice(i, ts)];
    forall k, l, x | 0 <= k < l < |sent'| && x in sent'[k].tasks
      ensures x !in sent'[l].tasks
    {
      if l == |sent| {
        assert sent'[k] == sent[k];
        assert x in Handed(sent);
      } else {
        assert sent'[k] == sent[k] && sent'[l] == sent[l];
      }
    }
  }

  lemma PassLeases(m: MQ, r: MQ, sent: seq<Notice>, n: Notice, now: Time)
    requires Valid(r) && Clean(r, now) && Leases(m, r, sent, now)
    requires NoDup(n.tasks)
    requires forall x | x in n.tasks :: x in r.tasks && r.tasks[x].CanDispatch(now)
    ensures Dispatchable(r, Lift(n.tasks), now)
    ensures Leases(m, Consume(r, Lift(n.tasks), now), sent + [n], now)
  {
    var ts := n.tasks;
    var slots := Lift(ts);
    forall i, j | 0 <= i < j < |slots| && slots[i].Some?
      ensures slots[i] != slots[j]
    {
      assert slots[i] == Some(ts[i]) && slots[j] == Some(ts[j]);
    }
    var sent' := sent + [n];
    HandedAppend(sent, n);
    var r' := Consume(r, slots, now);
    forall y
      ensures (y in r'.tasks && r'.tasks[y].CanDispatch(now)) <==>
        (y in m.tasks && m.tasks[y].CanDispatch(now) && y !in Handed(sent'))
      ensures y in Handed(sent') ==> y in m.tasks && y in r'.tasks && r'.tasks[y] == m.tasks[y].Dispatch(now)
      ensures y in r'.tasks ==> y in m.tasks && r'.tasks[y].Dispatch(now) == m.tasks[y].Dispatch(now)
    {
      ServeTask(m, r, sent, ts, now, y);
    }
  }

  lemma ServeTask(m: MQ, r: MQ, sent: seq<Notice>, ts: seq<TaskId>, now: Time, y: TaskId)
    requires Valid(r) && Clean(r, now) && Leases(m, r, sent, now)
    requires forall x | x in ts :: x in r.tasks && r.tasks[x].CanDispatch(now)
    requires Dispatchable(r, Lift(ts), now)
    ensures var r' := Consume(r, Lift(ts), now);
      && ((y in r'.tasks && r'.tasks[y].CanDispatch(now)) <==>
          (y in m.tasks && m.tasks[y].CanDispatch(now) && y !in Handed(sent) && y !in ts))
      && (y in Handed(sent) || y in ts ==> y in m.tasks && y in r'.tasks && r'.tasks[y] == m.tasks[y].Dispatch(now))
      && (y in r'.tasks ==> y in m.tasks && r'.tasks[y].Dispatch(now) == m.tasks[y].Dispatch(now))
  {
    var slots := Lift(ts);
    ConsumeEligibility(r, slots, now, y);
    ConsumeEffect(r, slots, now, y);
    if y in ts {
      ConsumeRecord(r, slots, now, y);
    } else if y in Handed(sent) {
      RedispatchAfterUndispatch(m.tasks[y], now);
    }
  }

  // What the pass promises about the notices and the waiters left waiting.

  /** ts answers the request `names` from g: one task per name, each a task of the
      named queue that can be dispatched at now. */
  ghost predicate Answers(g: MQ, names: seq<QueueName>, ts: seq<TaskId>, now: Time) {
    && |ts| == |names|
    && forall j | 0 <= j < |ts| ::
         names[j] in g.queues && ts[j] in g.queues[names[j]] && ts[j] in g.tasks && g.tasks[ts[j]].CanDispatch(now)
  }

  /** Every notice answers its waiter's request from the broker GC left. */
  ghost predicate NoticesFrom(m: MQ, waiters: seq<WaitSpec>, sent: seq<Notice>, now: Time)
    requires Valid(m)
  {
    forall k | 0 <= k < |sent| ::
      sent[k].waiter < |waiters| ==> Answers(GC(m, now), waiters[sent[k].waiter].queues, sent[k].tasks, now)
  }

  /** No notice goes to waiter w. */
  predicate Unserved(sent: seq<Notice>, w: nat) {
    forall k | 0 <= k < |sent| :: sent[k].waiter != w
  }

  /** The tasks of qn that could be dispatched in m and are not in H. */
  ghost function Pool(m: MQ, qn: QueueName, H: set<TaskId>, now: Time): set<TaskId> {
    set x | x in m.tasks && m.tasks[x].queue == Some(qn) && m.tasks[x].CanDispatch(now) && x !in H
  }

  /** With the tasks in H handed out, some request of `names` asks its queue for more
      tasks than are left. */
  ghost predicate Short(m: MQ, names: seq<QueueName>, H: set<TaskId>, now: Time) {
    exists k | 0 <= k < |names| :: multiset(names[..k])[names[k]] >= |Pool(m, names[k], H, now)|
  }

  /** Every waiter before i that got no notice is short of tasks. */
  ghost predicate SkippedShort(m: MQ, waiters: seq<WaitSpec>, i: nat, sent: seq<Notice>, now: Time) {
    forall w | 0 <= w < i && w < |waiters| && Unserved(sent, w) :: Short(m, waiters[w].queues, Handed(sent), now)
  }

  /** During the pass the tasks waiting in a queue are those of m not yet handed out. */
  lemma PoolIs(m: MQ, r: MQ, sent: seq<Notice>, qn: QueueName, now: Time)
    requires Leases(m, r, sent, now)
    ensures Waiting(r, qn, now) == Pool(m, qn, Handed(sent), now)
  {
    forall y
      ensures y in Waiting(r, qn, now) <==> y in Pool(m, qn, Handed(sent), now)
    {
      if y in r.tasks {
        assert r.tasks[y].Dispatch(now).queue == r.tasks[y].queue;
        assert m.tasks[y].Dispatch(now).queue == m.tasks[y].queue;
      }
    }
  }

  /** During the pass Ready fails exactly when the waiter is short of tasks. */
  lemma ReadyShort(m: MQ, r: MQ, sent: seq<Notice>, names: seq<QueueName>, now: Time)
    requires Valid(r) && Leases(m, r, sent, now)
    ensures QueuesKnown(r)
    ensures Ready(r, names, now).None? <==> Short(m, names, Handed(sent), now)
  {
    ReadyCounts(r, names, now);
    forall k | 0 <= k < |names|
      ensures Waiting(r, names[k], now) == Pool(m, names[k], Handed(sent), now)
    {
      PoolIs(m, r, sent, names[k], now);
    }
  }

  /** Handing out more tasks only shortens the pools. */
  lemma ShortGrows(m: MQ, names: seq<QueueName>, H: set<TaskId>, H': set<TaskId>, now: Time)
    requires H <= H' && Short(m, names, H, now)
    ensures Short(m, names, H', now)
  {
    var k :| 0 <= k < |names| && multiset(names[..k])[names[k]] >= |Pool(m, names[k], H, now)|;
    var A := Pool(m, names[k], H', now);
    var B := Pool(m, names[k], H, now);
    assert B == A + (B - A);
    assert |A| <= |B|;
  }

  /** Serving a waiter answers it from the broker GC left. */
  lemma ServeFrom(m: MQ, r: MQ, sent: seq<Notice>, names: seq<QueueName>, ts: seq<TaskId>, now: Time)
    requires Valid(m) && Valid(r) && Leases(m, r, sent, now)
    requires Ready(r, names, now) == Some(ts)
    ensures Answers(GC(m, now), names, ts, now)
  {
    ReadySpec(r, names, now);
    var g := GC(m, now);
    forall j | 0 <= j < |ts|
      ensures names[j] in g.queues && ts[j] in g.queues[names[j]] && ts[j] in g.tasks && g.tasks[ts[j]].CanDispatch(now)
    {
      var y := ts[j];
      assert r.tasks[y].queue == Some(names[j]);
      assert r.tasks[y].Dispatch(now).queue == r.tasks[y].queue;
      assert m.tasks[y].Dispatch(now).queue == m.tasks[y].queue;
      GCEffect(m, now, y);
      assert g.tasks[y].queue == Some(names[j]);
    }
  }

  // The order of service: the pass against a reference pass.

  /** The tasks of queue qn the notices hand out, notice by notice, in slot order. */
  function HandedTo(tasks: map<TaskId, Task>, sent: seq<Notice>, qn: QueueName): seq<TaskId> {
    if |sent| == 0 then []
    else HandedTo(tasks, sent[..|sent| - 1], qn) + Picks(tasks, Lift(sent[|sent| - 1].tasks), qn)
  }

  /** The queues of r against g: the same tasks and queues, and each queue holds its
      tasks that were not handed out, in their order in g, then the handed-out ones in
      the order they were handed out (every mq.Dispatch moves its task to the tail). */
  ghost predicate Arranged(g: MQ, r: MQ, sent: seq<Notice>) {
    && r.tasks.Keys == g.tasks.Keys
    && r.queues.Keys == g.queues.Keys
    && forall qn | qn in g.queues ::
         r.queues[qn] == FilterIn(g.queues[qn], g.tasks.Keys - Handed(sent)) + HandedTo(g.tasks, sent, qn)
  }

  /** The reference pass over the waiters from i on, with the tasks in H already handed
      out: each waiter in list order receives Serve's answer against everything handed
      out before it, or nothing if Serve has none. */
  function Plan(g: MQ, waiters: seq<WaitSpec>, now: Time, i: nat, H: set<TaskId>): seq<Notice>
    requires QueuesKnown(g)
    decreases |waiters| - i
  {
    if i >= |waiters| then []
    else match Serve(g, waiters[i].queues, H, now)
      case None => Plan(g, waiters, now, i + 1, H)
      case Some(ts) => [Notice(i, ts)] + Plan(g, waiters, now, i + 1, H + set x | x in ts)
  }

  /** Every task the notices to waiters before w carry. */
  function HandedBefore(sent: seq<Notice>, w: nat): set<TaskId> {
    set k, x | 0 <= k < |sent| && sent[k].waiter < w && x in sent[k].tasks :: x
  }

  /** The notices p, for the waiters from i on with the tasks in H already handed out,
      serve the waiters in list order, and each waiter w gets Serve's answer against
      exactly the tasks handed to the waiters before it: the notice when there is an
      answer, and nothing when there is none. */
  ghost predicate FairFrom(g: MQ, waiters: seq<WaitSpec>, now: Time, i: nat, H: set<TaskId>, p: seq<Notice>)
    requires QueuesKnown(g)
  {
    InOrder(p, i, |waiters|) && ServedFrom(g, waiters, now, H, p) && SkippedFrom(g, waiters, now, i, H, p)
  }

  /** The notices go to waiters i to n - 1, each at most once, in list order. */
  predicate InOrder(p: seq<Notice>, i: nat, n: nat) {
    && (forall k | 0 <= k < |p| :: i <= p[k].waiter < n)
    && (forall k, l | 0 <= k < l < |p| :: p[k].waiter < p[l].waiter)
  }

  ghost predicate ServedFrom(g: MQ, waiters: seq<WaitSpec>, now: Time, H: set<TaskId>, p: seq<Notice>)
    requires QueuesKnown(g)
  {
    forall k | 0 <= k < |p| && p[k].waiter < |waiters| ::
      Serve(g, waiters[p[k].waiter].queues, H + HandedBefore(p, p[k].waiter), now) == Some(p[k].tasks)
  }

  ghost predicate SkippedFrom(g: MQ, waiters: seq<WaitSpec>, now: Time, i: nat, H: set<TaskId>, p: seq<Notice>)
    requires QueuesKnown(g)
  {
    forall w | i <= w < |waiters| && Unserved(p, w) ::
      Serve(g, waiters[w].queues, H + HandedBefore(p, w), now).None?
  }

  /** The reference pass is fair in that sense. */
  lemma {:induction false} PlanFair(g: MQ, waiters: seq<WaitSpec>, now: Time, i: nat, H: set<TaskId>)
    requires QueuesKnown(g)
    ensures FairFrom(g, waiters, now, i, H, Plan(g, waiters, now, i, H))
    decreases |waiters| - i
  {
    if i < |waiters| {
      var a := Serve(g, waiters[i].queues, H, now);
      var H' := if a.Some? then H + (set x | x in a.value) else H;
      PlanFair(g, waiters, now, i + 1, H');
      if a.None? {
        PlanFairSkip(g, waiters, now, i, H);
      } else {
        PlanFairServe(g, waiters, now, i, H, a.value);
      }
    }
  }

  lemma PlanFairSkip(g: MQ, waiters: seq<WaitSpec>, now: Time, i: nat, H: set<TaskId>)
    requires QueuesKnown(g) && i < |waiters| && Serve(g, waiters[i].queues, H, now).None?
    requires FairFrom(g, waiters, now, i + 1, H, Plan(g, waiters, now, i + 1, H))
    ensures FairFrom(g, waiters, now, i, H, Plan(g, waiters, now, i, H))
  {
    var q := Plan(g, waiters, now, i + 1, H);
    assert Plan(g, waiters, now, i, H) == q;
    HandedBeforeNone(q, i);
    assert H + HandedBefore(q, i) == H;
  }

  lemma PlanFairServe(g: MQ, waiters: seq<WaitSpec>, now: Time, i: nat, H: set<TaskId>, ts: seq<TaskId>)
    requires QueuesKnown(g) && i < |waiters| && Serve(g, waiters[i].queues, H, now) == Some(ts)
    requires FairFrom(g, waiters, now, i + 1, H + (set x | x in ts), Plan(g, waiters, now, i + 1, H + (set x | x in ts)))
    ensures FairFrom(g, waiters, now, i, H, Plan(g, waiters, now, i, H))
  {
    var H' := H + (set x | x in ts);
    var q := Plan(g, waiters, now, i + 1, H');
    var n := Notice(i, ts);
    assert Plan(g, waiters, now, i, H) == [n] + q;
    InOrderCons(n, q, i, |waiters|);
    HandedBeforeShift(n, q, i, |waiters|, H);
    ServedCons(g, waiters, now, H, n, q);
    SkippedCons(g, waiters, now, H, n, q);
  }

  /** A notice to waiter i in front of notices in order for the waiters after it. */
  lemma InOrderCons(n: Notice, q: seq<Notice>, i: nat, N: nat)
    requires InOrder(q, i + 1, N) && n.waiter == i < N
    ensures InOrder([n] + q, i, N)
  {
    var p := [n] + q;
    forall k | 0 < k < |p|
      ensures p[k] == q[k - 1]
    {
    }
  }

  /** The tasks handed out before each waiter, with one more notice in front. */
  lemma HandedBeforeShift(n: Notice, q: seq<Notice>, i: nat, N: nat, H: set<TaskId>)
    requires InOrder(q, i + 1, N) && n.waiter == i
    ensures H + HandedBefore([n] + q, i) == H
    ensures forall w | i < w :: H + HandedBefore([n] + q, w) == (H + set x | x in n.tasks) + HandedBefore(q, w)
  {
    forall w | i < w
      ensures H + HandedBefore([n] + q, w) == (H + set x | x in n.tasks) + HandedBefore(q, w)
    {
      HandedBeforeCons(n, q, w);
    }
    HandedBeforeCons(n, q, i);
    HandedBeforeNone(q, i);
  }

  lemma ServedCons(g: MQ, waiters: seq<WaitSpec>, now: Time, H: set<TaskId>, n: Notice, q: seq<Notice>)
    requires QueuesKnown(g) && n.waiter < |waiters|
    requires forall k | 0 <= k < |q| :: n.waiter < q[k].waiter
    requires Serve(g, waiters[n.waiter].queues, H, now) == Some(n.tasks)
    requires H + HandedBefore([n] + q, n.waiter) == H
    requires forall w | n.waiter < w :: H + HandedBefore([n] + q, w) == (H + set x | x in n.tasks) + HandedBefore(q, w)
    requires ServedFrom(g, waiters, now, H + (set x | x in n.tasks), q)
    ensures ServedFrom(g, waiters, now, H, [n] + q)
  {
    var p := [n] + q;
    forall k | 0 <= k < |p| && p[k].waiter < |waiters|
      ensures Serve(g, waiters[p[k].waiter].queues, H + HandedBefore(p, p[k].waiter), now) == Some(p[k].tasks)
    {
      if k > 0 {
        assert p[k] == q[k - 1];
      }
    }
  }

  lemma SkippedCons(g: MQ, waiters: seq<WaitSpec>, now: Time, H: set<TaskId>, n: Notice, q: seq<Notice>)
    requires QueuesKnown(g)
    requires forall w | n.waiter < w :: H + HandedBefore([n] + q, w) == (H + set x | x in n.tasks) + HandedBefore(q, w)
    requires SkippedFrom(g, waiters, now, n.waiter + 1, H + (set x | x in n.tasks), q)
    ensures SkippedFrom(g, waiters, now, n.waiter, H, [n] + q)
  {
    var p := [n] + q;
    forall w | n.waiter <= w < |waiters| && Unserved(p, w)
      ensures Serve(g, waiters[w].queues, H + HandedBefore(p, w), now).None?
    {
      assert p[0].waiter == n.waiter;
      forall k | 0 <= k < |q|
        ensures q[k].waiter != w
      {
        assert q[k] == p[k + 1];
      }
    }
  }

  /** Task 1 alone in queue "A", and waiters for "B", "A" and "A": the reference pass
      skips the first, whose queue does not exist, serves the second, and skips the
      third, whose only candidate went to the second. */
  lemma PlanOneTask()
    ensures QueuesKnown(OneTaskBroker())
    ensures Plan(OneTaskBroker(), [WaitSpec(["B"], 0), WaitSpec(["A"], 0), WaitSpec(["A"], 0)], 0, 0, {})
         == [Notice(1, [1])]
  {
    var g := OneTaskBroker();
    var ws := [WaitSpec(["B"], 0), WaitSpec(["A"], 0), WaitSpec(["A"], 0)];
    OneTaskScans();
    assert Avail(g, "A", 0) == [1];
    assert Left(g, "A", {}, 0) == [1];
    assert Left(g, "A", {1}, 0) == [];
    assert SlotLeft(g, [], "B", {}, 0) == None;
    assert Serve(g, ["B"], {}, 0) == None;
    assert SlotLeft(g, [], "A", {}, 0) == Some(1);
    assert Serve(g, ["A"], {}, 0) == Some([1]);
    assert SlotLeft(g, [], "A", {1}, 0) == None;
    assert Serve(g, ["A"], {1}, 0) == None;
    assert (set x | x in [1]) == {1};
    assert Plan(g, ws, 0, 3, {1}) == [];
    assert Plan(g, ws, 0, 2, {1}) == [];
    assert Plan(g, ws, 0, 1, {}) == [Notice(1, [1])];
  }

  lemma HandedBeforeNone(p: seq<Notice>, w: nat)
    requires forall k | 0 <= k < |p| :: w <= p[k].waiter
    ensures HandedBefore(p, w) == {}
  {
  }

  lemma HandedBeforeCons(n: Notice, p: seq<Notice>, w: nat)
    requires forall k | 0 <= k < |p| :: n.waiter < p[k].waiter
    ensures HandedBefore([n] + p, w) == (if n.waiter < w then set x | x in n.tasks else {}) + HandedBefore(p, w)
  {
    var np := [n] + p;
    forall x | x in HandedBefore(np, w)
      ensures x in (if n.waiter < w then set x | x in n.tasks else {}) + HandedBefore(p, w)
    {
      var k :| 0 <= k < |np| && np[k].waiter < w && x in np[k].tasks;
      if k > 0 {
        assert np[k] == p[k - 1];
      }
    }
    forall x | x in HandedBefore(p, w)
      ensures x in HandedBefore(np, w)
    {
      var k :| 0 <= k < |p| && p[k].waiter < w && x in p[k].tasks;
      assert np[k + 1] == p[k];
    }
    if n.waiter < w {
      forall x | x in n.tasks
        ensures x in HandedBefore(np, w)
      {
        assert np[0] == n;
      }
    }
  }

  /** A task Picks takes is in a slot. */
  lemma {:induction false} PicksIn(tasks: map<TaskId, Task>, slots: seq<Option<TaskId>>, qn: QueueName, x: TaskId)
    requires x in Picks(tasks, slots, qn)
    ensures Some(x) in slots
  {
    if |slots| > 0 {
      assert slots == [slots[0]] + slots[1..];
      if x !in (if slots[0].Some? then Own(tasks, slots[0].value, qn) else []) {
        PicksIn(tasks, slots[1..], qn, x);
      }
    }
  }

  /** A task HandedTo lists is in some notice. */
  lemma {:induction false} HandedToIn(tasks: map<TaskId, Task>, sent: seq<Notice>, qn: QueueName, x: TaskId)
    requires x in HandedTo(tasks, sent, qn)
    ensures x in Handed(sent)
  {
    var last := sent[|sent| - 1];
    var init := sent[..|sent| - 1];
    assert sent == init + [last];
    HandedAppend(init, last);
    if x in HandedTo(tasks, init, qn) {
      HandedToIn(tasks, init, qn, x);
    } else {
      PicksIn(tasks, Lift(last.tasks), qn, x);
    }
  }

  /** During the pass, a queue of the broker scans like its GC'd version g without the
      tasks handed out so far. */
  lemma AvailArranged(m: MQ, g: MQ, r: MQ, sent: seq<Notice>, qn: QueueName, now: Time)
    requires Valid(r) && QueuesKnown(g) && Leases(m, r, sent, now)
    requires forall y :: (y in g.tasks && g.tasks[y].CanDispatch(now)) <==> (y in m.tasks && m.tasks[y].CanDispatch(now))
    requires Arranged(g, r, sent) && qn in g.queues
    ensures QueuesKnown(r) && qn in r.queues
    ensures Avail(r, qn, now) == Left(g, qn, Handed(sent), now)
  {
    ValidQueuesKnown(r);
    var K := g.tasks.Keys - Handed(sent);
    var ht := HandedTo(g.tasks, sent, qn);
    forall x | x in g.queues[qn] && x in K
      ensures x in r.tasks && r.tasks[x].CanDispatch(now) == g.tasks[x].CanDispatch(now)
    {
    }
    forall x | x in ht
      ensures x in r.tasks && !r.tasks[x].CanDispatch(now)
    {
      HandedToIn(g.tasks, sent, qn, x);
    }
    ScanArranged(g.queues[qn], K, ht, r.tasks, g.tasks, now);
  }

  /** During the pass every task keeps the q pointer it had after GC. */
  lemma QueuesAgree(m: MQ, r: MQ, sent: seq<Notice>, now: Time)
    requires Valid(m) && Leases(m, r, sent, now) && r.tasks.Keys == GC(m, now).tasks.Keys
    ensures forall x | x in r.tasks :: x in GC(m, now).tasks && r.tasks[x].queue == GC(m, now).tasks[x].queue
  {
    var g := GC(m, now);
    forall x | x in r.tasks
      ensures x in g.tasks && r.tasks[x].queue == g.tasks[x].queue
    {
      GCLease(m, now, x);
      assert r.tasks[x].Dispatch(now).queue == r.tasks[x].queue;
      assert g.tasks[x].Dispatch(now).queue == g.tasks[x].queue;
    }
  }

  /** The tasks of Ready's answer as slots. */
  lemma LiftTasks(ts: seq<TaskId>)
    ensures SlotTasks(Lift(ts)) == set x | x in ts
    ensures NoTasks(Lift(ts)) <==> |ts| == 0
  {
    var slots := Lift(ts);
    forall x | x in ts
      ensures x in SlotTasks(slots)
    {
      var j :| 0 <= j < |ts| && ts[j] == x;
      assert slots[j] == Some(x);
    }
    if |ts| > 0 {
      assert slots[0].Some?;
    }
  }

  /** One more notice: what it hands out joins Handed, and its tasks of qn join HandedTo. */
  lemma HandedNext(tasks: map<TaskId, Task>, sent: seq<Notice>, n: Notice, qn: QueueName)
    ensures Handed(sent + [n]) == Handed(sent) + SlotTasks(Lift(n.tasks))
    ensures HandedTo(tasks, sent + [n], qn) == HandedTo(tasks, sent, qn) + Picks(tasks, Lift(n.tasks), qn)
  {
    HandedAppend(sent, n);
    LiftTasks(n.tasks);
    assert (sent + [n])[..|sent + [n]| - 1] == sent;
  }

  /** Serving a notice keeps the queues arranged: its tasks leave their places and go to
      their queues' tails in slot order. */
  lemma ArrangedStep(g: MQ, r: MQ, sent: seq<Notice>, n: Notice, now: Time)
    requires Valid(r) && Clean(r, now) && Arranged(g, r, sent) && Dispatchable(r, Lift(n.tasks), now)
    requires forall x | x in Handed(sent) :: x in r.tasks && !r.tasks[x].CanDispatch(now)
    requires forall x | x in r.tasks :: x in g.tasks && r.tasks[x].queue == g.tasks[x].queue
    ensures Arranged(g, Consume(r, Lift(n.tasks), now), sent + [n])
  {
    var slots := Lift(n.tasks);
    var r' := Consume(r, slots, now);
    LiftTasks(n.tasks);
    if |n.tasks| == 0 {
      ArrangedNone(g, r, sent, n);
    } else {
      assert r'.tasks.Keys == r.tasks.Keys by {
        ConsumeKeys(r, slots, now);
      }
      assert forall x | x in n.tasks :: x in r.tasks && r.tasks[x].CanDispatch(now) by {
        LiftDispatchable(r, n.tasks, now);
      }
      assert forall qn ::
        && (qn in r'.queues <==> qn in r.queues)
        && (qn in r.queues ==>
              r'.queues[qn] == FilterIn(r.queues[qn], r.tasks.Keys - SlotTasks(slots)) + Picks(r.tasks, slots, qn)) by {
        ConsumeClean(r, slots, now);
      }
      ArrangedNext(g, r, r', sent, n, now);
    }
  }

  /** A notice with no tasks leaves the arrangement as it is. */
  lemma ArrangedNone(g: MQ, r: MQ, sent: seq<Notice>, n: Notice)
    requires Arranged(g, r, sent) && |n.tasks| == 0
    ensures Arranged(g, r, sent + [n])
  {
    LiftTasks(n.tasks);
    HandedAppend(sent, n);
    assert Handed(sent + [n]) == Handed(sent);
    forall qn | qn in g.queues
      ensures HandedTo(g.tasks, sent + [n], qn) == HandedTo(g.tasks, sent, qn)
    {
      HandedNext(g.tasks, sent, n, qn);
      PicksNone(g.tasks, Lift(n.tasks), qn);
    }
  }

  /** ArrangedStep once Consume's effect on the queues is known. */
  lemma ArrangedNext(g: MQ, r: MQ, r': MQ, sent: seq<Notice>, n: Notice, now: Time)
    requires Arranged(g, r, sent) && r'.tasks.Keys == r.tasks.Keys
    requires forall qn ::
      && (qn in r'.queues <==> qn in r.queues)
      && (qn in r.queues ==>
            r'.queues[qn] == FilterIn(r.queues[qn], r.tasks.Keys - SlotTasks(Lift(n.tasks))) + Picks(r.tasks, Lift(n.tasks), qn))
    requires forall x | x in Handed(sent) :: x in r.tasks && !r.tasks[x].CanDispatch(now)
    requires forall x | x in n.tasks :: x in r.tasks && r.tasks[x].CanDispatch(now)
    requires forall x | x in r.tasks :: x in g.tasks && r.tasks[x].queue == g.tasks[x].queue
    ensures Arranged(g, r', sent + [n])
  {
    var slots := Lift(n.tasks);
    LiftTasks(n.tasks);
    assert forall x | x in Handed(sent) :: x in r.tasks && x !in SlotTasks(slots);
    assert forall x | x in SlotTasks(slots) :: x in r.tasks;
    assert r'.queues.Keys == g.queues.Keys by {
      forall qn
        ensures qn in r'.queues <==> qn in g.queues
      {
        ArrangedQueue(g, r, r', sent, slots, qn);
      }
    }
    forall qn | qn in g.queues
      ensures r'.queues[qn] == FilterIn(g.queues[qn], g.tasks.Keys - Handed(sent + [n])) + HandedTo(g.tasks, sent + [n], qn)
    {
      HandedNext(g.tasks, sent, n, qn);
      ArrangedQueue(g, r, r', sent, slots, qn);
    }
  }

  /** The tasks of dispatchable slots can be dispatched. */
  lemma LiftDispatchable(r: MQ, ts: seq<TaskId>, now: Time)
    requires Dispatchable(r, Lift(ts), now)
    ensures forall x | x in ts :: x in r.tasks && r.tasks[x].CanDispatch(now)
  {
    forall x | x in ts
      ensures x in r.tasks && r.tasks[x].CanDispatch(now)
    {
      var k :| 0 <= k < |ts| && ts[k] == x;
      assert Lift(ts)[k] == Some(x);
    }
  }

  /** Consume on a clean broker keeps every task. */
  lemma ConsumeKeys(r: MQ, slots: seq<Option<TaskId>>, now: Time)
    requires Valid(r) && Clean(r, now) && Dispatchable(r, slots, now)
    ensures Consume(r, slots, now).tasks.Keys == r.tasks.Keys
  {
    forall y
      ensures y in Consume(r, slots, now).tasks <==> y in r.tasks
    {
      ConsumeEffect(r, slots, now, y);
    }
  }

  /** Consume on a clean broker with some task in its slots: the same queues, each
      without its slot tasks and then with them at the tail in slot order. */
  lemma ConsumeClean(r: MQ, slots: seq<Option<TaskId>>, now: Time)
    requires Valid(r) && Clean(r, now) && Dispatchable(r, slots, now) && !NoTasks(slots)
    ensures var r' := Consume(r, slots, now);
      forall qn ::
        && (qn in r'.queues <==> qn in r.queues)
        && (qn in r.queues ==>
              r'.queues[qn] == FilterIn(r.queues[qn], r.tasks.Keys - SlotTasks(slots)) + Picks(r.tasks, slots, qn))
  {
    assert GC(r, now) == r by {
      GCIdempotent(r, now);
    }
    assert Live(r, now) == r.tasks.Keys by {
      CleanLive(r, now);
    }
    forall qn
      ensures var r' := Consume(r, slots, now);
        && (qn in r'.queues <==> qn in r.queues)
        && (qn in r.queues ==>
              r'.queues[qn] == FilterIn(r.queues[qn], r.tasks.Keys - SlotTasks(slots)) + Picks(r.tasks, slots, qn))
    {
      ConsumeQueues(r, slots, now, qn);
    }
  }

  /** ArrangedStep for one queue, when the notice carries tasks. */
  lemma ArrangedQueue(g: MQ, r: MQ, r': MQ, sent: seq<Notice>, slots: seq<Option<TaskId>>, qn: QueueName)
    requires Arranged(g, r, sent)
    requires qn in r'.queues <==> qn in r.queues
    requires qn in r.queues ==>
      r'.queues[qn] == FilterIn(r.queues[qn], r.tasks.Keys - SlotTasks(slots)) + Picks(r.tasks, slots, qn)
    requires forall x | x in Handed(sent) :: x in r.tasks && x !in SlotTasks(slots)
    requires forall x | x in SlotTasks(slots) :: x in r.tasks
    requires forall x | x in r.tasks :: x in g.tasks && r.tasks[x].queue == g.tasks[x].queue
    ensures qn in r'.queues <==> qn in g.queues
    ensures qn in g.queues ==>
      r'.queues[qn] == FilterIn(g.queues[qn], g.tasks.Keys - (Handed(sent) + SlotTasks(slots)))
                       + (HandedTo(g.tasks, sent, qn) + Picks(g.tasks, slots, qn))
  {
    if qn in g.queues {
      var K := g.tasks.Keys;
      var H := Handed(sent);
      var S := SlotTasks(slots);
      var ht := HandedTo(g.tasks, sent, qn);
      forall k | 0 <= k < |slots| && slots[k].Some?
        ensures slots[k].value in r.tasks
      {
        assert slots[k].value in SlotTasks(slots);
      }
      PicksSame(r.tasks, g.tasks, slots, qn);
      forall x | x in ht
        ensures x in K && x in H
      {
        HandedToIn(g.tasks, sent, qn, x);
      }
      Rearrange(g.queues[qn], K, H, S, ht, r.queues[qn], Picks(g.tasks, slots, qn), r'.queues[qn]);
    }
  }

  /** During the pass Ready answers as Serve does against the tasks handed out so far. */
  lemma ReadyArranged(m: MQ, g: MQ, r: MQ, sent: seq<Notice>, names: seq<QueueName>, now: Time)
    requires Valid(r) && QueuesKnown(g) && Leases(m, r, sent, now)
    requires forall y :: (y in g.tasks && g.tasks[y].CanDispatch(now)) <==> (y in m.tasks && m.tasks[y].CanDispatch(now))
    requires Arranged(g, r, sent)
    ensures QueuesKnown(r)
    ensures Ready(r, names, now) == Serve(g, names, Handed(sent), now)
  {
    ValidQueuesKnown(r);
    forall qn | qn in g.queues
      ensures Avail(r, qn, now) == Left(g, qn, Handed(sent), now)
    {
      AvailArranged(m, g, r, sent, qn, now);
    }
    ReadyServe(r, g, names, Handed(sent), now);
  }

  /** One waiter of the pass against the reference pass: Ready answers as Serve does. */
  lemma PassPlan(m: MQ, waiters: seq<WaitSpec>, now: Time, i: nat, r: MQ, sent: seq<Notice>)
    requires Valid(m) && Valid(r) && Leases(m, r, sent, now) && i < |waiters|
    requires QueuesKnown(GC(m, now)) && Arranged(GC(m, now), r, sent)
    requires sent + Plan(GC(m, now), waiters, now, i, Handed(sent)) == Plan(GC(m, now), waiters, now, 0, {})
    ensures QueuesKnown(r)
    ensures var g := GC(m, now);
      var ready := Ready(r, waiters[i].queues, now);
      && ready == Serve(g, waiters[i].queues, Handed(sent), now)
      && (ready.None? ==> sent + Plan(g, waiters, now, i + 1, Handed(sent)) == Plan(g, waiters, now, 0, {}))
      && (ready.Some? ==>
            var sent' := sent + [Notice(i, ready.value)];
            sent' + Plan(g, waiters, now, i + 1, Handed(sent')) == Plan(g, waiters, now, 0, {}))
  {
    ValidQueuesKnown(r);
    var g := GC(m, now);
    var names := waiters[i].queues;
    assert Ready(r, names, now) == Serve(g, names, Handed(sent), now) by {
      GCEligibility(m, now);
      ReadyArranged(m, g, r, sent, names, now);
    }
    PlanStep(g, waiters, now, i, sent, Plan(g, waiters, now, 0, {}));
  }

  /** The reference pass at waiter i, one step on. */
  lemma PlanStep(g: MQ, waiters: seq<WaitSpec>, now: Time, i: nat, sent: seq<Notice>, p: seq<Notice>)
    requires QueuesKnown(g) && i < |waiters|
    requires sent + Plan(g, waiters, now, i, Handed(sent)) == p
    ensures var a := Serve(g, waiters[i].queues, Handed(sent), now);
      && (a.None? ==> sent + Plan(g, waiters, now, i + 1, Handed(sent)) == p)
      && (a.Some? ==>
            var sent' := sent + [Notice(i, a.value)];
            sent' + Plan(g, waiters, now, i + 1, Handed(sent')) == p)
  {
    var a := Serve(g, waiters[i].queues, Handed(sent), now);
    if a.Some? {
      var n := Notice(i, a.value);
      HandedAppend(sent, n);
      assert (sent + [n]) + Plan(g, waiters, now, i + 1, Handed(sent + [n]))
          == sent + ([n] + Plan(g, waiters, now, i + 1, Handed(sent) + set x | x in a.value));
    }
  }

  // Wait.

  /** What a Wait request leads to under the lock: a positive timeout parks the request
      at the tail of the waiters list; otherwise it takes what it can right away. */
  datatype WaitOutcome = Parked(list: Waiters.Waiters) | Answered(mq: MQ, tasks: seq<Option<TaskId>>)

  /** The corrected Take always yields slots Consume can serve. */
  lemma TakeDispatchable(m: MQ, names: seq<QueueName>, now: Time)
    requires Valid(m)
    ensures QueuesKnown(m) && Dispatchable(m, Take(m, names, now), now)
  {
    ValidQueuesKnown(m);
    var t := Take(m, names, now);
    forall k | 0 <= k < |t| && t[k].Some?
      ensures t[k].value in m.tasks && m.tasks[t[k].value].CanDispatch(now)
    {
      TakeSlotFacts(m, names, now, k);
    }
    forall i, j | 0 <= i < j < |t| && t[i].Some?
      ensures t[i] != t[j]
    {
      TakeDistinct(m, names, now, i, j);
    }
  }

  /** Wait: register a blocking request, or (Timeout <= 0) Take and Consume at once. */
  function Wait(m: MQ, wss: Waiters.Waiters, wsc: WaitSpecConfig, id: Waiters.WaiterId, now: Time): (r: WaitOutcome)
    requires Valid(m)
    requires wss.head.Some? ==> wss.tail.Some? && wss.tail.value in wss.links
    ensures r.Parked? <==> wsc.timeout > 0
    ensures r.Parked? ==> id in r.list.links && r.list.tail == Some(id)
    ensures r.Answered? ==> Valid(r.mq) && |r.tasks| == |wsc.queues|
  {
    var ws := ToWaitSpec(wsc);
    if ws.timeout > 0 then Parked(Waiters.Append(wss, id))
    else
      TakeDispatchable(m, ws.queues, now);
      var slots := Take(m, ws.queues, now);
      Answered(Consume(m, slots, now), slots)
  }

  /** A request that does not block is answered at once, never touching the waiters: slot
      k holds the next task of its queue not given to an earlier slot, and every task in
      the answer is distinct and now leased. */
  lemma WaitAnswers(m: MQ, wss: Waiters.Waiters, wsc: WaitSpecConfig, id: Waiters.WaiterId, now: Time)
    requires Valid(m) && wsc.timeout <= 0
    requires wss.head.Some? ==> wss.tail.Some? && wss.tail.value in wss.links
    ensures QueuesKnown(m)
    ensures var r := Wait(m, wss, wsc, id, now);
      && r.Answered?
      && (forall k | 0 <= k < |wsc.queues| :: r.tasks[k] == Slot(m, wsc.queues[..k], wsc.queues[k], now))
      && (forall i, j | 0 <= i < j < |r.tasks| && r.tasks[i].Some? :: r.tasks[i] != r.tasks[j])
      && (forall x | Some(x) in r.tasks :: x in m.tasks && x in r.mq.tasks && r.mq.tasks[x] == m.tasks[x].Dispatch(now))
  {
    TakeDispatchable(m, wsc.queues, now);
    TakeSlots(m, wsc.queues, now);
    var slots := Take(m, wsc.queues, now);
    forall x | Some(x) in slots
      ensures x in m.tasks && x in Consume(m, slots, now).tasks && Consume(m, slots, now).tasks[x] == m.tasks[x].Dispatch(now)
    {
      ConsumeRecord(m, slots, now, x);
    }
  }

  /** A blocking request joins the tail of the waiters list. */
  lemma WaitParks(m: MQ, wss: Waiters.Waiters, s: seq<Waiters.WaiterId>, wsc: WaitSpecConfig, id: Waiters.WaiterId, now: Time)
    requires Valid(m) && wsc.timeout > 0
    requires Abstracts(wss, s) && id !in wss.links
    ensures wss.head.Some? ==> wss.tail.Some? && wss.tail.value in wss.links
    ensures Wait(m, wss, wsc, id, now).Parked?
    ensures Abstracts(Wait(m, wss, wsc, id, now).list, s + [id])
  {
    Waiters.AppendRefines(wss, s, id);
  }

  // Acknowledging and releasing leases.

  /** The tasks listed in ids that are leased out with the lease still running. */
  function Leased(m: MQ, ids: seq<TaskId>, now: Time): set<TaskId> {
    set x | x in ids && x in m.tasks && m.tasks[x].InDispatch(now)
  }

  /** The reference outcome of /ack/ (DeleteTask) and /nak/ (Failed) on the broker as
      GC left it: exactly the listed leased tasks are deleted, or lose their lease. */
  function Settled(g: MQ, A: set<TaskId>, ack: bool): MQ {
    if ack then Restrict(g, g.tasks.Keys - A) else Relax(g, A)
  }

  /** The loop of UpdateDispatchedTasksHTTP: for each id, Find (which runs GC) and, if
      the task is leased out and the lease still runs, hand it to the action. */
  method Settle(m: MQ, ids: seq<TaskId>, ack: bool, now: Time) returns (r: MQ)
    requires Valid(m)
    ensures Valid(r)
    ensures |ids| == 0 ==> r == m
    ensures |ids| > 0 ==> r == Settled(GC(m, now), Leased(m, ids, now), ack)
  {
    r := m;
    var i := 0;
    while i < |ids|
      invariant SettleInv(m, ids, ack, now, i, r)
      decreases |ids| - i
    {
      SettleStep(m, ids, ack, now, i, r);
      r := SettleOne(r, ids[i], ack, now);
      i := i + 1;
    }
    assert ids[..i] == ids;
  }

  /** What holds after the first i ids are settled. */
  ghost predicate SettleInv(m: MQ, ids: seq<TaskId>, ack: bool, now: Time, i: nat, r: MQ) {
    && Valid(m) && Valid(r) && i <= |ids|
    && (i == 0 ==> r == m)
    && (i > 0 ==> r == Settled(GC(m, now), Leased(m, ids[..i], now), ack))
  }

  /** One id of the loop: Find, and the action only when the lease is still running. */
  function SettleOne(r: MQ, x: TaskId, ack: bool, now: Time): (r': MQ)
    requires Valid(r)
    ensures Valid(r')
  {
    var found := Find(r, x, now);
    if found.1.Some? && found.1.value.InDispatch(now) then
      if ack then DeleteTask(found.0, x) else Failed(found.0, x)
    else found.0
  }

  lemma SettleStep(m: MQ, ids: seq<TaskId>, ack: bool, now: Time, i: nat, r: MQ)
    requires SettleInv(m, ids, ack, now, i, r) && i < |ids|
    ensures SettleInv(m, ids, ack, now, i + 1, SettleOne(r, ids[i], ack, now))
  {
    var x := ids[i];
    var g := GC(r, now);
    SettleFind(m, ids, i, r, ack, now);
    SettleOneIs(r, x, ack, now);
    if x in g.tasks && g.tasks[x].InDispatch(now) {
      SettleHit(m, ids, i, g, ack, now);
    } else {
      SettleMiss(m, ids, i, g, ack, now);
    }
  }

  /** One id's step acts on the broker its Find left behind. */
  lemma SettleOneIs(r: MQ, x: TaskId, ack: bool, now: Time)
    requires Valid(r)
    ensures var g := GC(r, now);
      && Valid(g)
      && (x in g.tasks && g.tasks[x].InDispatch(now) ==>
            SettleOne(r, x, ack, now) == if ack then DeleteTask(g, x) else Failed(g, x))
      && (!(x in g.tasks && g.tasks[x].InDispatch(now)) ==> SettleOne(r, x, ack, now) == g)
  {
  }

  lemma SettledValid(g: MQ, A: set<TaskId>, ack: bool, now: Time)
    requires Valid(g) && Clean(g, now)
    ensures Valid(Settled(g, A, ack)) && Clean(Settled(g, A, ack), now)
  {
    if ack {
      ValidRestrict(g, g.tasks.Keys - A);
    } else {
      ValidRelax(g, A);
    }
  }

  /** The GC that each Find runs leaves the settled broker as it is. */
  lemma SettleFind(m: MQ, ids: seq<TaskId>, i: nat, r: MQ, ack: bool, now: Time)
    requires Valid(m) && Valid(r) && i < |ids|
    requires i == 0 ==> r == m
    requires i > 0 ==> r == Settled(GC(m, now), Leased(m, ids[..i], now), ack)
    ensures GC(r, now) == Settled(GC(m, now), Leased(m, ids[..i], now), ack)
  {
    var g0 := GC(m, now);
    var A := Leased(m, ids[..i], now);
    if i == 0 {
      assert A == {};
      if ack {
        RestrictAll(g0, g0.tasks.Keys - A);
      } else {
        RelaxNone(g0);
      }
    } else {
      SettledValid(g0, A, ack, now);
      GCIdempotent(r, now);
    }
  }

  /** Whether the listed task is leased, read on the broker GC left. */
  lemma LeasedAfterGC(m: MQ, x: TaskId, now: Time)
    requires Valid(m)
    ensures var g0 := GC(m, now);
      (x in g0.tasks && g0.tasks[x].InDispatch(now)) <==> (x in m.tasks && m.tasks[x].InDispatch(now))
  {
    GCEffect(m, now, x);
  }

  lemma LeasedStep(m: MQ, ids: seq<TaskId>, i: nat, now: Time)
    requires i < |ids|
    ensures Leased(m, ids[..i + 1], now) ==
      Leased(m, ids[..i], now) + (if ids[i] in m.tasks && m.tasks[ids[i]].InDispatch(now) then {ids[i]} else {})
  {
    assert ids[..i + 1] == ids[..i] + [ids[i]];
  }

  /** A listed task found leased: deleting or releasing it settles one more task. */
  lemma SettleHit(m: MQ, ids: seq<TaskId>, i: nat, g: MQ, ack: bool, now: Time)
    requires Valid(m) && i < |ids|
    requires g == Settled(GC(m, now), Leased(m, ids[..i], now), ack)
    requires ids[i] in g.tasks && g.tasks[ids[i]].InDispatch(now)
    ensures Valid(g)
    ensures var x := ids[i];
      Settled(GC(m, now), Leased(m, ids[..i + 1], now), ack) == (if ack then DeleteTask(g, x) else Failed(g, x))
  {
    var g0 := GC(m, now);
    var A := Leased(m, ids[..i], now);
    var x := ids[i];
    SettledValid(g0, A, ack, now);
    LeasedStep(m, ids, i, now);
    LeasedAfterGC(m, x, now);
    if ack {
      RestrictEffect(g0, g0.tasks.Keys - A, x);
      assert Leased(m, ids[..i + 1], now) == A + {x};
      SettledAddAck(g0, A, x);
    } else {
      RelaxEffect(g0, A, x);
      assert Leased(m, ids[..i + 1], now) == A + {x};
      SettledAddNak(g0, A, x);
    }
  }

  lemma SettledAddAck(g0: MQ, A: set<TaskId>, x: TaskId)
    requires Valid(Settled(g0, A, true)) && x in Settled(g0, A, true).tasks
    ensures Settled(g0, A + {x}, true) == DeleteTask(Settled(g0, A, true), x)
  {
    var K := g0.tasks.Keys - A;
    RestrictKeys(g0, K);
    RestrictTwice(g0, K, K - {x});
    MinusStep(g0.tasks.Keys, A, x);
  }

  lemma MinusStep<T>(S: set<T>, A: set<T>, x: T)
    ensures (S - A) * ((S - A) - {x}) == S - (A + {x})
  {
  }

  lemma RestrictKeys(g0: MQ, K: set<TaskId>)
    requires K <= g0.tasks.Keys
    ensures Restrict(g0, K).tasks.Keys == K
  {
    forall y | y in K
      ensures y in Restrict(g0, K).tasks
    {
      RestrictEffect(g0, K, y);
    }
  }

  lemma SettledAddNak(g0: MQ, A: set<TaskId>, x: TaskId)
    requires Valid(Settled(g0, A, false)) && x in Settled(g0, A, false).tasks
    ensures Settled(g0, A + {x}, false) == Failed(Settled(g0, A, false), x)
  {
    RelaxTwice(g0, A, {x});
  }

  /** A listed task not found leased: nothing to do, and nothing more to settle. */
  lemma SettleMiss(m: MQ, ids: seq<TaskId>, i: nat, g: MQ, ack: bool, now: Time)
    requires Valid(m) && i < |ids|
    requires g == Settled(GC(m, now), Leased(m, ids[..i], now), ack)
    requires !(ids[i] in g.tasks && g.tasks[ids[i]].InDispatch(now))
    ensures Valid(g)
    ensures Settled(GC(m, now), Leased(m, ids[..i + 1], now), ack) == g
  {
    var A := Leased(m, ids[..i], now);
    var x := ids[i];
    SettledValid(GC(m, now), A, ack, now);
    if x !in A {
      SettledKeepsLease(m, A, ack, x, now);
    }
    LeasedSame(m, ids, i, now);
  }

  /** A listed task that adds nothing new leaves the leased set as it was. */
  lemma LeasedSame(m: MQ, ids: seq<TaskId>, i: nat, now: Time)
    requires i < |ids|
    requires ids[i] in Leased(m, ids[..i], now) || !(ids[i] in m.tasks && m.tasks[ids[i]].InDispatch(now))
    ensures Leased(m, ids[..i + 1], now) == Leased(m, ids[..i], now)
  {
    LeasedStep(m, ids, i, now);
  }

  /** A task outside A is leased after the settle exactly when it was before GC. */
  lemma SettledKeepsLease(m: MQ, A: set<TaskId>, ack: bool, x: TaskId, now: Time)
    requires Valid(m) && x !in A
    ensures var g := Settled(GC(m, now), A, ack);
      (x in g.tasks && g.tasks[x].InDispatch(now)) <==> (x in m.tasks && m.tasks[x].InDispatch(now))
  {
    var g0 := GC(m, now);
    LeasedAfterGC(m, x, now);
    if ack {
      RestrictEffect(g0, g0.tasks.Keys - A, x);
    } else {
      RelaxEffect(g0, A, x);
    }
  }

  /** What a settle does task by task: on ack the listed leased tasks are gone and every
      other live task stays; on nak they lose their lease and nothing is deleted. */
  lemma SettledEffect(m: MQ, ids: seq<TaskId>, ack: bool, now: Time, y: TaskId)
    requires Valid(m)
    ensures var g0 := GC(m, now);
      var r := Settled(g0, Leased(m, ids, now), ack);
      && (ack ==> (y in r.tasks <==> y in g0.tasks && y !in Leased(m, ids, now)))
      && (!ack ==> (y in r.tasks <==> y in g0.tasks))
      && (!ack && y in Leased(m, ids, now) ==> !r.tasks[y].dispatched)
      && (y in r.tasks && y !in Leased(m, ids, now) ==> r.tasks[y] == g0.tasks[y])
  {
    var g0 := GC(m, now);
    var A := Leased(m, ids, now);
    LeasedAfterGC(m, y, now);
    if ack {
      RestrictEffect(g0, g0.tasks.Keys - A, y);
    } else {
      RelaxEffect(g0, A, y);
    }
  }
}
