/** tctx2/sched.go: the deadline scheduler behind the broker's timers.

    Requests are (object, deadline) pairs kept in a min-heap on the deadline (pairHeap,
    modelled by MinHeap). The scheduler's goroutine alternates two steps: a new request
    is pushed and the timer reset to fire at once; when the timer fires at t, every pair
    whose deadline has come is sent on C, least deadline first, and the timer is reset to
    the wait until the next deadline. Each step here is a pure function from the pending
    pairs to the pairs left, the pairs sent and the timer reset it asks for (None: the
    timer is left alone). */
module Scheduler {

  import opened Options
  import opened Tasks
  import opened MinHeap

  datatype Pair<T> = Pair(obj: T, time: Time)

  function Deadline<T>(p: Pair<T>): int {
    p.time
  }

  /** What a step does: the heap afterwards, the pairs whose objects it sent on C (in
      order), and the duration it reset the timer to, if it did. */
  datatype Step<T> = Step(pending: seq<Pair<T>>, fired: seq<Pair<T>>, reset: Option<Duration>)

  /** time.Time.Sub: the difference, saturated to the time.Duration range. */
  function Sub(a: Time, b: Time): (d: Duration)
    ensures d <= 0 <==> a <= b
    ensures MinDuration <= d <= MaxDuration
    ensures MinDuration <= a - b <= MaxDuration ==> d == a - b
  {
    var v := a - b;
    if v > MaxDuration then MaxDuration else if v < MinDuration then MinDuration else v
  }

  /** handleRequest: push the pair and reset the timer to zero. */
  function HandleRequest<T>(pending: seq<Pair<T>>, p: Pair<T>): (r: Step<T>)
    ensures multiset(r.pending) == multiset(pending) + multiset{p}
    ensures r.fired == [] && r.reset == Some(0)
  {
    Step(pending + [p], [], Some(0))
  }

  /** handleTimeout(t): while the heap is not empty, look at its least pair; if its
      deadline is not after t, send it and pop it; otherwise reset the timer to the wait
      until that deadline and stop. An empty heap leaves the timer alone. */
  function HandleTimeout<T>(pending: seq<Pair<T>>, t: Time): (r: Step<T>)
    ensures multiset(r.pending) + multiset(r.fired) == multiset(pending)
    decreases |pending|
  {
    if |pending| == 0 then Step([], [], None)
    else
      var (p, rest) := Pop(pending, Deadline);
      var wait := Sub(p.time, t);
      if wait <= 0 then
        var r := HandleTimeout(rest, t);
        Step(r.pending, [p] + r.fired, r.reset)
      else
        Step(pending, [], Some(wait))
  }

  /** Every pair sent is due at t; every pair left is not. */
  lemma {:induction false} TimeoutSplits<T>(pending: seq<Pair<T>>, t: Time)
    ensures forall q | q in HandleTimeout(pending, t).fired :: q.time <= t
    ensures forall q | q in HandleTimeout(pending, t).pending :: q.time > t
    decreases |pending|
  {
    if |pending| > 0 {
      var (p, rest) := Pop(pending, Deadline);
      if Sub(p.time, t) <= 0 {
        TimeoutSplits(rest, t);
      } else {
        forall q | q in pending
          ensures q.time > t
        {
          var k :| 0 <= k < |pending| && pending[k] == q;
        }
      }
    }
  }

  /** Deadlines never decrease along f. */
  ghost predicate InDeadlineOrder<T>(f: seq<Pair<T>>) {
    forall k | 0 <= k < |f| - 1 :: f[k].time <= f[k + 1].time
  }

  lemma OrderCons<T>(p: Pair<T>, f: seq<Pair<T>>)
    requires InDeadlineOrder(f)
    requires forall k | 0 <= k < |f| :: p.time <= f[k].time
    ensures InDeadlineOrder([p] + f)
  {
    var g := [p] + f;
    forall k | 0 <= k < |g| - 1
      ensures g[k].time <= g[k + 1].time
    {
      assert g[k + 1] == f[k];
      if k > 0 {
        assert g[k] == f[k - 1];
      }
    }
  }

  /** The pairs are sent least deadline first. */
  lemma {:induction false} TimeoutSorted<T>(pending: seq<Pair<T>>, t: Time)
    ensures InDeadlineOrder(HandleTimeout(pending, t).fired)
    decreases |pending|
  {
    if |pending| > 0 {
      var (p, rest) := Pop(pending, Deadline);
      if Sub(p.time, t) <= 0 {
        TimeoutSorted(rest, t);
        DrainStep(pending, t);
        OrderCons(p, HandleTimeout(rest, t).fired);
      }
    }
  }

  /** A pair popped and sent comes before everything the rest of the drain sends. */
  lemma DrainStep<T>(pending: seq<Pair<T>>, t: Time)
    requires |pending| > 0 && Sub(Pop(pending, Deadline).0.time, t) <= 0
    ensures var (p, rest) := Pop(pending, Deadline);
      && HandleTimeout(pending, t).fired == [p] + HandleTimeout(rest, t).fired
      && forall k | 0 <= k < |HandleTimeout(rest, t).fired| :: p.time <= HandleTimeout(rest, t).fired[k].time
  {
    var (p, rest) := Pop(pending, Deadline);
    var r := HandleTimeout(rest, t);
    PopLeast(pending);
    assert multiset(r.fired) <= multiset(rest);
    FiredAfter(rest, r.fired, p);
  }

  /** What heap.Pop leaves has no deadline before the pair it returned. */
  lemma PopLeast<T>(pending: seq<Pair<T>>)
    requires |pending| > 0
    ensures var (p, rest) := Pop(pending, Deadline);
      forall q | q in rest :: p.time <= q.time
  {
    var (p, rest) := Pop(pending, Deadline);
    forall q | q in rest
      ensures p.time <= q.time
    {
      assert q in multiset(rest);
      assert q in multiset(pending);
      var k :| 0 <= k < |pending| && pending[k] == q;
      assert Deadline(p) <= Deadline(pending[k]);
    }
  }

  /** Every pair the rest of the drain sends comes from the heap, so none of them has a
      deadline before the least one just popped. */
  lemma FiredAfter<T>(rest: seq<Pair<T>>, fired: seq<Pair<T>>, p: Pair<T>)
    requires multiset(fired) <= multiset(rest)
    requires forall q | q in rest :: p.time <= q.time
    ensures forall k | 0 <= k < |fired| :: p.time <= fired[k].time
  {
    forall k | 0 <= k < |fired|
      ensures p.time <= fired[k].time
    {
      assert fired[k] in multiset(fired);
      assert fired[k] in multiset(rest);
      assert fired[k] in rest;
    }
  }

  /** The timer after a timeout: reset iff pairs remain, to the positive wait until the
      least remaining deadline. */
  lemma {:induction false} TimeoutReset<T>(pending: seq<Pair<T>>, t: Time)
    ensures var r := HandleTimeout(pending, t);
      && (r.reset.Some? <==> |r.pending| > 0)
      && (|r.pending| > 0 ==> r.reset == Some(Sub(Pop(r.pending, Deadline).0.time, t)) && r.reset.value > 0)
    decreases |pending|
  {
    if |pending| > 0 {
      var (p, rest) := Pop(pending, Deadline);
      if Sub(p.time, t) <= 0 {
        TimeoutReset(rest, t);
      }
    }
  }

  /** handleTimeout sends exactly the pairs due at t, each as often as it is pending. */
  lemma TimeoutExact<T>(pending: seq<Pair<T>>, t: Time, p: Pair<T>)
    ensures var r := HandleTimeout(pending, t);
      multiset(r.fired)[p] == if p.time <= t then multiset(pending)[p] else 0
  {
    TimeoutSplits(pending, t);
  }

  /** A timeout is idempotent: the heap it leaves has nothing more due at t. */
  lemma TimeoutIdempotent<T>(pending: seq<Pair<T>>, t: Time)
    ensures var r := HandleTimeout(pending, t);
      HandleTimeout(r.pending, t).fired == [] && HandleTimeout(r.pending, t).pending == r.pending
  {
    var r := HandleTimeout(pending, t);
    TimeoutSplits(pending, t);
    if |r.pending| > 0 {
      var (p, rest) := Pop(r.pending, Deadline);
      assert p in multiset(r.pending);
    }
  }

  /** AddExact: the request the scheduler receives. */
  function AddExact<T>(obj: T, deadline: Time): (p: Pair<T>)
    ensures p.obj == obj && p.time == deadline
  {
    Pair(obj, deadline)
  }

  /** Add: schedule obj ext after now (time.Now is the parameter now). */
  function Add<T>(obj: T, ext: Duration, now: Time): (p: Pair<T>)
    ensures p == AddExact(obj, now + ext)
  {
    AddExact(obj, now + ext)
  }

  /** A scheduled object is sent by the first timeout at or after its deadline. */
  lemma AddThenFire<T>(pending: seq<Pair<T>>, obj: T, ext: Duration, now: Time, t: Time)
    requires now + ext <= t
    ensures var p := Add(obj, ext, now);
      p in HandleTimeout(HandleRequest(pending, p).pending, t).fired
  {
    var p := Add(obj, ext, now);
    var q := HandleRequest(pending, p).pending;
    TimeoutExact(q, t, p);
    assert multiset(q)[p] > 0;
  }
}
