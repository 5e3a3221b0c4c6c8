/** task.go: the task record, its creation from a TaskConfig and the clock-driven lease
    predicates, plus the queue scan that NextUndispatched performs (stated here over a
    queue abstracted to its sequence of task ids, head first). */
module Tasks {

  import opened Options
  import opened Seqs

  /** time.Time and time.Duration, in nanoseconds. */
  type Time = int
  type Duration = int

  const Millisecond: Duration := 1_000_000
  const Second: Duration := 1000 * Millisecond
  const Minute: Duration := 60 * Second
  const Hour: Duration := 60 * Minute

  /** The largest and the smallest time.Duration (an int64). */
  const MaxDuration: Duration := 0x7fff_ffff_ffff_ffff
  const MinDuration: Duration := -0x8000_0000_0000_0000

  /** The zero time.Time that a fresh task's retryTime holds; it is never consulted
      while the task is not dispatched. */
  const ZeroTime: Time := 0

  newtype uint32 = x: int | 0 <= x < 0x1_0000_0000

  /** A task id: the 16 bytes of a uuid.UUID (mq.go) or uid.UID (server.go) read as a
      number; only equality is used. */
  type TaskId = nat
  type QueueName = string
  /** The task's JSON content, carried and never inspected. */
  type Content = string

  /** The JSON blob a producer sends; absent fields are None. */
  datatype TaskConfig = TaskConfig(retry: Option<uint32>, expiry: Option<uint32>, content: Content)

  /** A task. `queue` stands for the t.q pointer (the name of the queue holding it); the
      next/prev pointers are modelled by the queue models. */
  datatype Task = Task(
    id: TaskId,
    content: Content,
    expiry: Time,
    retry: Duration,
    retryTime: Time,
    dispatched: bool,
    queue: Option<QueueName>)
  {
    /** Strictly after the expiry instant (time.Time.After). */
    predicate Expired(now: Time) {
      now > expiry
    }

    /** Leased out and the lease still runs: now is strictly before retryTime. */
    predicate InDispatch(now: Time) {
      !Expired(now) && dispatched && now < retryTime
    }

    /** Free to hand out: not expired, and either not leased or the lease strictly over. */
    predicate CanDispatch(now: Time) {
      !Expired(now) && (!dispatched || retryTime < now)
    }

    /** A lease that ran out on a live task; GC's second sweep looks for these. */
    predicate NeedRetry(now: Time) {
      dispatched && now > retryTime && !Expired(now)
    }

    /** Task.Dispatch: lease the task until now + retry. */
    function Dispatch(now: Time): (r: Task)
      ensures r.dispatched && r.retryTime == now + retry
      ensures r.(dispatched := dispatched, retryTime := retryTime) == this
      ensures retry >= 0 ==> !r.CanDispatch(now) && !r.NeedRetry(now)
      ensures retry > 0 && !Expired(now) ==> r.InDispatch(now)
    {
      this.(dispatched := true, retryTime := now + retry)
    }

    /** Task.Undispatch: only the dispatched flag changes. */
    function Undispatch(): (r: Task)
      ensures !r.dispatched && r.(dispatched := dispatched) == this
      ensures forall now :: r.CanDispatch(now) <==> !Expired(now)
      ensures forall now :: !r.InDispatch(now) && !r.NeedRetry(now)
    {
      this.(dispatched := false)
    }
  }

  /** TaskConfig.ToTask: a fresh, unqueued, undispatched task. Retry defaults to five
      minutes and expiry to a day after now; given fields are whole seconds. */
  function ToTask(tc: TaskConfig, id: TaskId, now: Time): (t: Task)
    ensures t.id == id && t.content == tc.content
    ensures !t.dispatched && t.queue.None?
    ensures t.retry == (if tc.retry.Some? then tc.retry.value as int * Second else 5 * Minute)
    ensures t.expiry == now + (if tc.expiry.Some? then tc.expiry.value as int * Second else 24 * Hour)
    ensures 0 <= t.retry <= MaxDuration && now <= t.expiry <= now + MaxDuration
    ensures !t.Expired(now) && t.CanDispatch(now) && !t.InDispatch(now)
  {
    var t := Task(id, tc.content, now + 24 * Hour, 5 * Minute, ZeroTime, false, None);
    var t := if tc.retry.Some? then t.(retry := Second * tc.retry.value as int) else t;
    if tc.expiry.Some? then t.(expiry := now + Second * tc.expiry.value as int) else t
  }

  /** Every task of the queue sequence has a record. */
  ghost predicate Known(s: seq<TaskId>, tasks: map<TaskId, Task>) {
    forall x | x in s :: x in tasks
  }

  /** NextUndispatched over the abstract queue: the first position at or after `from`
      whose task CanDispatch(now), or None. */
  function NextEligible(s: seq<TaskId>, from: nat, tasks: map<TaskId, Task>, now: Time): (r: Option<nat>)
    requires Known(s, tasks)
    ensures r.Some? ==> from <= r.value < |s| && tasks[s[r.value]].CanDispatch(now)
    ensures r.Some? ==> forall k | from <= k < r.value :: !tasks[s[k]].CanDispatch(now)
    ensures r.None? ==> forall k | from <= k < |s| :: !tasks[s[k]].CanDispatch(now)
    decreases |s| - from
  {
    if from >= |s| then None
    else if tasks[s[from]].CanDispatch(now) then Some(from)
    else NextEligible(s, from + 1, tasks, now)
  }

  /** The tasks of s that CanDispatch(now), in queue order: the reference for scans. */
  function Eligible(s: seq<TaskId>, tasks: map<TaskId, Task>, now: Time): (r: seq<TaskId>)
    requires Known(s, tasks)
    ensures |r| <= |s|
  {
    if |s| == 0 then []
    else
      assert s == [s[0]] + s[1..];
      var rest := Eligible(s[1..], tasks, now);
      (if tasks[s[0]].CanDispatch(now) then [s[0]] else []) + rest
  }

  /** Eligible holds exactly the tasks of s that CanDispatch(now). */
  lemma {:induction false} EligibleMembers(s: seq<TaskId>, tasks: map<TaskId, Task>, now: Time, e: TaskId)
    requires Known(s, tasks)
    ensures e in Eligible(s, tasks, now) <==> e in s && tasks[e].CanDispatch(now)
  {
    if |s| > 0 {
      assert s == [s[0]] + s[1..];
      EligibleMembers(s[1..], tasks, now, e);
    }
  }

  /** A scan of a duplicate-free queue finds each task at most once. */
  lemma {:induction false} EligibleNoDup(s: seq<TaskId>, tasks: map<TaskId, Task>, now: Time)
    requires Known(s, tasks) && NoDup(s)
    ensures NoDup(Eligible(s, tasks, now))
  {
    if |s| > 0 {
      NoDupTail(s);
      EligibleNoDup(s[1..], tasks, now);
      var rest := Eligible(s[1..], tasks, now);
      if tasks[s[0]].CanDispatch(now) {
        EligibleMembers(s[1..], tasks, now, s[0]);
        var r := [s[0]] + rest;
        forall i, j | 0 <= i < j < |r| ensures r[i] != r[j] {
          assert r[j] == rest[j - 1];
          if i > 0 {
            assert r[i] == rest[i - 1];
          }
        }
      }
    }
  }

  /** Eligible keeps queue order: an earlier eligible task sits earlier in the queue. */
  lemma {:induction false} EligibleOrder(s: seq<TaskId>, tasks: map<TaskId, Task>, now: Time, i: nat, j: nat)
    requires Known(s, tasks) && NoDup(s) && i < j < |Eligible(s, tasks, now)|
    ensures var e := Eligible(s, tasks, now);
      e[i] in s && e[j] in s && IndexOf(s, e[i]) < IndexOf(s, e[j])
    decreases |s|, 1
  {
    NoDupTail(s);
    assert s == [s[0]] + s[1..];
    if tasks[s[0]].CanDispatch(now) && i == 0 {
      EligibleOrderFirst(s, tasks, now, j);
    } else if tasks[s[0]].CanDispatch(now) {
      EligibleOrderHead(s, tasks, now, i, j);
    } else {
      EligibleOrderSkip(s, tasks, now, i, j);
    }
  }

  lemma {:induction false} EligibleOrderHead(s: seq<TaskId>, tasks: map<TaskId, Task>, now: Time, i: nat, j: nat)
    requires Known(s, tasks) && NoDup(s) && |s| > 0 && tasks[s[0]].CanDispatch(now)
    requires 0 < i < j < |Eligible(s, tasks, now)|
    ensures var e := Eligible(s, tasks, now);
      e[i] in s && e[j] in s && IndexOf(s, e[i]) < IndexOf(s, e[j])
    decreases |s|, 0
  {
    var e := Eligible(s, tasks, now);
    var t := s[1..];
    var et := Eligible(t, tasks, now);
    NoDupTail(s);
    assert e == [s[0]] + et;
    assert e[i] == et[i - 1] && e[j] == et[j - 1];
    EligibleMembers(t, tasks, now, e[i]);
    EligibleMembers(t, tasks, now, e[j]);
    EligibleOrder(t, tasks, now, i - 1, j - 1);
    IndexOfCons(s, e[i]);
    IndexOfCons(s, e[j]);
  }

  /** The head of s, when eligible, comes first. */
  lemma EligibleOrderFirst(s: seq<TaskId>, tasks: map<TaskId, Task>, now: Time, j: nat)
    requires Known(s, tasks) && NoDup(s) && |s| > 0 && tasks[s[0]].CanDispatch(now)
    requires 0 < j < |Eligible(s, tasks, now)|
    ensures var e := Eligible(s, tasks, now);
      e[0] in s && e[j] in s && IndexOf(s, e[0]) < IndexOf(s, e[j])
  {
    var e := Eligible(s, tasks, now);
    var t := s[1..];
    var et := Eligible(t, tasks, now);
    NoDupTail(s);
    assert e == [s[0]] + et;
    assert e[j] == et[j - 1];
    EligibleMembers(t, tasks, now, e[j]);
    IndexOfCons(s, e[j]);
    assert e[0] == s[0] && IndexOf(s, e[0]) == 0;
  }

  lemma {:induction false} EligibleOrderSkip(s: seq<TaskId>, tasks: map<TaskId, Task>, now: Time, i: nat, j: nat)
    requires Known(s, tasks) && NoDup(s) && |s| > 0 && !tasks[s[0]].CanDispatch(now)
    requires i < j < |Eligible(s, tasks, now)|
    ensures var e := Eligible(s, tasks, now);
      e[i] in s && e[j] in s && IndexOf(s, e[i]) < IndexOf(s, e[j])
    decreases |s|, 0
  {
    var e := Eligible(s, tasks, now);
    var t := s[1..];
    NoDupTail(s);
    assert e == Eligible(t, tasks, now);
    EligibleMembers(t, tasks, now, e[i]);
    EligibleMembers(t, tasks, now, e[j]);
    EligibleOrder(t, tasks, now, i, j);
    IndexOfCons(s, e[i]);
    IndexOfCons(s, e[j]);
    assert IndexOf(s, e[i]) < IndexOf(s, e[j]);
  }

  /** One step of a scan: the eligible tasks from `from` on are the one NextEligible finds
      followed by those after it, or none at all when it finds nothing. */
  lemma {:induction false} NextEligibleSplits(s: seq<TaskId>, from: nat, tasks: map<TaskId, Task>, now: Time)
    requires Known(s, tasks) && from <= |s|
    ensures NextEligible(s, from, tasks, now).None? ==> Eligible(s[from..], tasks, now) == []
    ensures NextEligible(s, from, tasks, now).Some? ==>
      var j := NextEligible(s, from, tasks, now).value;
      Eligible(s[from..], tasks, now) == [s[j]] + Eligible(s[j + 1..], tasks, now)
    decreases |s| - from
  {
    if from == |s| {
      assert s[from..] == [];
    } else if tasks[s[from]].CanDispatch(now) {
      assert NextEligible(s, from, tasks, now) == Some(from);
      EligibleStep(s, from, tasks, now);
    } else {
      EligibleSkip(s, from, tasks, now);
      NextEligibleSplits(s, from + 1, tasks, now);
    }
  }

  /** A scan from a cursor that has passed c eligible tasks finds the next one, if any. */
  lemma ScanAdvance(s: seq<TaskId>, f: nat, tasks: map<TaskId, Task>, now: Time, e: seq<TaskId>, c: nat)
    requires Known(s, tasks) && f <= |s|
    requires Eligible(s[f..], tasks, now) == e[if c < |e| then c else |e|..]
    ensures NextEligible(s, f, tasks, now).None? ==> c >= |e|
    ensures NextEligible(s, f, tasks, now).Some? ==>
      var j := NextEligible(s, f, tasks, now).value;
      && c < |e| && e[c] == s[j] && j + 1 <= |s|
      && Eligible(s[j + 1..], tasks, now) == e[c + 1..]
  {
    var c0 := if c < |e| then c else |e|;
    NextEligibleSplits(s, f, tasks, now);
    match NextEligible(s, f, tasks, now)
    case None =>
      assert e[c0..] == [];
    case Some(j) =>
      assert e[c0..] == [s[j]] + Eligible(s[j + 1..], tasks, now);
      assert c < |e|;
      assert e[c] == e[c0..][0] == s[j];
      assert e[c + 1..] == e[c0..][1..];
  }

  lemma EligibleSkip(s: seq<TaskId>, from: nat, tasks: map<TaskId, Task>, now: Time)
    requires Known(s, tasks) && from < |s| && !tasks[s[from]].CanDispatch(now)
    ensures Eligible(s[from..], tasks, now) == Eligible(s[from + 1..], tasks, now)
    ensures NextEligible(s, from, tasks, now) == NextEligible(s, from + 1, tasks, now)
  {
    EligibleStep(s, from, tasks, now);
    assert [] + Eligible(s[from + 1..], tasks, now) == Eligible(s[from + 1..], tasks, now);
  }

  lemma EligibleStep(s: seq<TaskId>, from: nat, tasks: map<TaskId, Task>, now: Time)
    requires Known(s, tasks) && from < |s|
    ensures Eligible(s[from..], tasks, now) ==
      (if tasks[s[from]].CanDispatch(now) then [s[from]] else []) + Eligible(s[from + 1..], tasks, now)
  {
    var t := s[from..];
    assert t[0] == s[from] && t[1..] == s[from + 1..];
  }

  /** A task appended at the tail is scanned last. */
  lemma {:induction false} EligibleAppend(s: seq<TaskId>, x: TaskId, tasks: map<TaskId, Task>, now: Time)
    requires Known(s, tasks) && x in tasks
    ensures Known(s + [x], tasks)
    ensures Eligible(s + [x], tasks, now) ==
      Eligible(s, tasks, now) + (if tasks[x].CanDispatch(now) then [x] else [])
  {
    if |s| == 0 {
      assert s + [x] == [x];
      assert [x][1..] == [];
    } else {
      assert (s + [x])[1..] == s[1..] + [x];
      EligibleAppend(s[1..], x, tasks, now);
    }
  }

  /** The scan depends only on which tasks of s can be dispatched. */
  lemma {:induction false} EligibleFrame(s: seq<TaskId>, t1: map<TaskId, Task>, t2: map<TaskId, Task>, now: Time)
    requires Known(s, t1) && Known(s, t2)
    requires forall x | x in s :: t1[x].CanDispatch(now) == t2[x].CanDispatch(now)
    ensures Eligible(s, t1, now) == Eligible(s, t2, now)
  {
    if |s| > 0 {
      assert s == [s[0]] + s[1..];
      EligibleFrame(s[1..], t1, t2, now);
    }
  }

  /** The scan of two queue pieces one after the other. */
  lemma {:induction false} EligibleConcat(s: seq<TaskId>, t: seq<TaskId>, tasks: map<TaskId, Task>, now: Time)
    requires Known(s, tasks) && Known(t, tasks)
    ensures Known(s + t, tasks)
    ensures Eligible(s + t, tasks, now) == Eligible(s, tasks, now) + Eligible(t, tasks, now)
  {
    if |s| == 0 {
      assert s + t == t;
    } else {
      assert (s + t)[1..] == s[1..] + t;
      EligibleConcat(s[1..], t, tasks, now);
    }
  }

  /** A queue piece with nothing dispatchable scans to nothing. */
  lemma {:induction false} EligibleNone(s: seq<TaskId>, tasks: map<TaskId, Task>, now: Time)
    requires Known(s, tasks) && forall x | x in s :: !tasks[x].CanDispatch(now)
    ensures Eligible(s, tasks, now) == []
  {
    if |s| > 0 {
      assert s == [s[0]] + s[1..];
      EligibleNone(s[1..], tasks, now);
    }
  }

  /** Scanning the tasks of s kept by K, under records t1 that agree with t2 on them,
      is the scan of s under t2 with the same tasks kept. */
  lemma {:induction false} EligibleFilter(s: seq<TaskId>, K: set<TaskId>, t1: map<TaskId, Task>, t2: map<TaskId, Task>, now: Time)
    requires Known(s, t2)
    requires forall x | x in s && x in K :: x in t1 && t1[x].CanDispatch(now) == t2[x].CanDispatch(now)
    ensures Known(FilterIn(s, K), t1)
    ensures Eligible(FilterIn(s, K), t1, now) == FilterIn(Eligible(s, t2, now), K)
  {
    if |s| > 0 {
      assert s == [s[0]] + s[1..];
      EligibleFilter(s[1..], K, t1, t2, now);
      var rest := FilterIn(s[1..], K);
      var e := Eligible(s[1..], t2, now);
      if s[0] in K {
        assert FilterIn(s, K) == [s[0]] + rest;
        assert ([s[0]] + rest)[1..] == rest;
      } else {
        assert FilterIn(s, K) == rest;
      }
      if t2[s[0]].CanDispatch(now) {
        assert Eligible(s, t2, now) == [s[0]] + e;
        assert ([s[0]] + e)[1..] == e;
      } else {
        assert Eligible(s, t2, now) == e;
      }
    }
  }

  /** A queue that keeps the tasks of gq in K, under records that agree on them with gt,
      followed by tasks none of which can be dispatched, scans as gq does under gt with
      the same tasks kept. */
  lemma ScanArranged(gq: seq<TaskId>, K: set<TaskId>, ht: seq<TaskId>, rt: map<TaskId, Task>, gt: map<TaskId, Task>, now: Time)
    requires Known(gq, gt)
    requires forall x | x in gq && x in K :: x in rt && rt[x].CanDispatch(now) == gt[x].CanDispatch(now)
    requires forall x | x in ht :: x in rt && !rt[x].CanDispatch(now)
    ensures Known(FilterIn(gq, K) + ht, rt)
    ensures Eligible(FilterIn(gq, K) + ht, rt, now) == FilterIn(Eligible(gq, gt, now), K)
  {
    EligibleFilter(gq, K, rt, gt, now);
    EligibleNone(ht, rt, now);
    EligibleConcat(FilterIn(gq, K), ht, rt, now);
  }

  // The lease state machine, as the predicates above define it.

  /** A task is never both leased-and-running and dispatchable; at the exact instant
      retryTime of a live lease it is neither. */
  lemma LeaseStatesExclusive(t: Task, now: Time)
    ensures !(t.InDispatch(now) && t.CanDispatch(now))
    ensures t.dispatched && now == t.retryTime ==> !t.InDispatch(now) && !t.CanDispatch(now)
    ensures t.Expired(now) ==> !t.InDispatch(now) && !t.CanDispatch(now) && !t.NeedRetry(now)
    ensures !t.Expired(now) ==> (t.InDispatch(now) || t.CanDispatch(now) <==> !(t.dispatched && now == t.retryTime))
  {
  }

  /** A task is not expired at its expiry instant, only strictly after it. */
  lemma ExpiryIsStrict(t: Task)
    ensures !t.Expired(t.expiry) && t.Expired(t.expiry + 1)
  {
  }

  /** A lease that needs a retry leaves the task dispatchable. */
  lemma NeedRetryCanDispatch(t: Task, now: Time)
    ensures t.NeedRetry(now) ==> t.CanDispatch(now)
    ensures t.NeedRetry(now) <==> t.dispatched && t.CanDispatch(now)
  {
  }

  /** A lease taken after giving one up is the same lease, and taking the same lease
      twice at one instant is taking it once. */
  lemma RedispatchAfterUndispatch(t: Task, now: Time)
    ensures t.Undispatch().Dispatch(now) == t.Dispatch(now)
    ensures t.Dispatch(now).Dispatch(now) == t.Dispatch(now)
  {
  }
}
