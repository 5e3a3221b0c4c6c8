/** wait.go: a consumer's wait request and how it is matched against the broker.

    Take and Ready walk the requested queue names in order and fill one slot per name.
    A per-queue cursor (the heads map) remembers where the last scan of a queue stopped,
    so a name requested twice gets the next eligible task rather than the same one. The
    cursor here is the position in the queue at which the next scan starts; a queue with
    no cursor is scanned from its head. */
module Matching {

  import opened Options
  import opened Seqs
  import opened Tasks
  import opened Broker

  const TwoTo64: int := 0x1_0000_0000_0000_0000

  newtype int64 = x: int | -0x8000_0000_0000_0000 <= x < 0x8000_0000_0000_0000

  /** The JSON body of a wait request; Timeout is in milliseconds. */
  datatype WaitSpecConfig = WaitSpecConfig(queues: seq<QueueName>, timeout: int64)

  /** A wait request: queue names and a timeout in nanoseconds. Its ready channel and its
      links in the Waiters list are modelled elsewhere or left out. */
  datatype WaitSpec = WaitSpec(queues: seq<QueueName>, timeout: Duration)

  // ToWaitSpec and the int64 product it computes.

  /** The two's-complement result of an int64 operation whose exact value is v. */
  function Wrap64(v: int): (r: int)
    ensures MinDuration <= r <= MaxDuration
    ensures (r - v) % TwoTo64 == 0
    ensures MinDuration <= v <= MaxDuration ==> r == v
  {
    (v - MinDuration) % TwoTo64 + MinDuration
  }

  /** ToWaitSpec as written: time.Duration(Timeout) * time.Millisecond, an int64 product
      that wraps around when it leaves the int64 range. */
  function ToWaitSpecAsWritten(wsc: WaitSpecConfig): (ws: WaitSpec)
    ensures ws.queues == wsc.queues
    ensures MinDuration <= ws.timeout <= MaxDuration
    ensures (ws.timeout - wsc.timeout as int * Millisecond) % TwoTo64 == 0
  {
    WaitSpec(wsc.queues, Wrap64(wsc.timeout as int * Millisecond))
  }

  /** ToWaitSpec with the conversion saturating at the ends of the Duration range, so
      that the sign of the timeout (which decides whether Wait blocks) is kept. */
  function ToWaitSpec(wsc: WaitSpecConfig): (ws: WaitSpec)
    ensures ws.queues == wsc.queues
    ensures MinDuration <= ws.timeout <= MaxDuration
    ensures ws.timeout > 0 <==> wsc.timeout > 0
    ensures ws.timeout < 0 <==> wsc.timeout < 0
    ensures MinDuration <= wsc.timeout as int * Millisecond <= MaxDuration ==>
      ws.timeout == wsc.timeout as int * Millisecond
  {
    var v := wsc.timeout as int * Millisecond;
    WaitSpec(wsc.queues, if v > MaxDuration then MaxDuration else if v < MinDuration then MinDuration else v)
  }

  /** Both conversions agree, and are exact, on every timeout whose product fits. */
  lemma ToWaitSpecAgrees(wsc: WaitSpecConfig)
    requires -9_223_372_036_854 <= wsc.timeout as int <= 9_223_372_036_854
    ensures ToWaitSpecAsWritten(wsc) == ToWaitSpec(wsc)
    ensures ToWaitSpec(wsc).timeout == wsc.timeout as int * Millisecond
  {
  }

  /** A positive timeout just past the range wraps to a negative Duration as written, so
      the request would not block; the saturating conversion keeps it positive. */
  lemma TimeoutWraps()
    ensures var wsc := WaitSpecConfig(["jobs"], 9_223_372_036_855);
      && wsc.timeout > 0
      && ToWaitSpecAsWritten(wsc).timeout == -9_223_372_036_854_551_616
      && ToWaitSpec(wsc).timeout == MaxDuration
  {
    var wsc := WaitSpecConfig(["jobs"], 9_223_372_036_855);
    assert wsc.timeout as int * Millisecond == 9_223_372_036_855_000_000;
    assert (9_223_372_036_855_000_000 - MinDuration) % TwoTo64 == 224_192;
  }

  /** The mirror case: a negative timeout just past the range wraps to a positive
      Duration of about 292 years as written, so a request meant not to block would
      block; the saturating conversion keeps it negative. */
  lemma TimeoutWrapsNegative()
    ensures var wsc := WaitSpecConfig(["jobs"], -9_223_372_036_855);
      && wsc.timeout < 0
      && ToWaitSpecAsWritten(wsc).timeout == 9_223_372_036_854_551_616
      && ToWaitSpec(wsc).timeout == MinDuration
  {
    var wsc := WaitSpecConfig(["jobs"], -9_223_372_036_855);
    assert wsc.timeout as int * Millisecond == -9_223_372_036_855_000_000;
    assert (-9_223_372_036_855_000_000 - MinDuration) % TwoTo64 == 18_446_744_073_709_327_424;
  }

  // The scan state.

  /** Where the next scan of each queue starts. */
  type Cursors = map<QueueName, nat>

  function From(cur: Cursors, qn: QueueName): nat {
    if qn in cur then cur[qn] else 0
  }

  /** Every queue's tasks have records (part of the broker invariant). */
  ghost predicate QueuesKnown(m: MQ) {
    forall qn | qn in m.queues :: Known(m.queues[qn], m.tasks)
  }

  lemma ValidQueuesKnown(m: MQ)
    requires Valid(m)
    ensures QueuesKnown(m)
  {
  }

  /** The tasks of queue qn that can be dispatched at now, in queue order. */
  function Avail(m: MQ, qn: QueueName, now: Time): seq<TaskId>
    requires QueuesKnown(m) && qn in m.queues
  {
    Eligible(m.queues[qn], m.tasks, now)
  }

  /** What a request for qn should receive when the names in `before` were requested
      ahead of it: the c-th eligible task of qn, where c counts the earlier requests for
      qn, and nothing for a queue that does not exist or has run out. */
  function Slot(m: MQ, before: seq<QueueName>, qn: QueueName, now: Time): Option<TaskId>
    requires QueuesKnown(m)
  {
    if qn !in m.queues then None
    else
      var c := multiset(before)[qn];
      var e := Avail(m, qn, now);
      if c < |e| then Some(e[c]) else None
  }

  // Take.

  /** One slot of Take as written: NextUndispatched from the cursor; the cursor moves
      past a hit, and a miss sets heads[q] to nil, which sends the next scan of the
      same queue back to its head. */
  function TakeStepAsWritten(m: MQ, cur: Cursors, qn: QueueName, now: Time): (Option<TaskId>, Cursors)
    requires QueuesKnown(m)
  {
    if qn !in m.queues then (None, cur)
    else match NextEligible(m.queues[qn], From(cur, qn), m.tasks, now)
      case None => (None, cur - {qn})
      case Some(j) => (Some(m.queues[qn][j]), cur[qn := j + 1])
  }

  /** One slot of Take with the miss leaving the cursor where it was. */
  function TakeStep(m: MQ, cur: Cursors, qn: QueueName, now: Time): (Option<TaskId>, Cursors)
    requires QueuesKnown(m)
  {
    if qn !in m.queues then (None, cur)
    else match NextEligible(m.queues[qn], From(cur, qn), m.tasks, now)
      case None => (None, cur)
      case Some(j) => (Some(m.queues[qn][j]), cur[qn := j + 1])
  }

  function TakeFromAsWritten(m: MQ, names: seq<QueueName>, cur: Cursors, now: Time): (r: seq<Option<TaskId>>)
    requires QueuesKnown(m)
    ensures |r| == |names|
  {
    if |names| == 0 then []
    else
      var (slot, cur') := TakeStepAsWritten(m, cur, names[0], now);
      [slot] + TakeFromAsWritten(m, names[1..], cur', now)
  }

  function TakeFrom(m: MQ, names: seq<QueueName>, cur: Cursors, now: Time): (r: seq<Option<TaskId>>)
    requires QueuesKnown(m)
    ensures |r| == |names|
  {
    if |names| == 0 then []
    else
      var (slot, cur') := TakeStep(m, cur, names[0], now);
      [slot] + TakeFrom(m, names[1..], cur', now)
  }

  /** WaitSpec.Take as written: one slot per name, starting with no cursor. */
  function TakeAsWritten(m: MQ, names: seq<QueueName>, now: Time): (r: seq<Option<TaskId>>)
    requires QueuesKnown(m)
    ensures |r| == |names|
  {
    TakeFromAsWritten(m, names, map[], now)
  }

  /** WaitSpec.Take, corrected so that a miss does not reset the queue's cursor. */
  function Take(m: MQ, names: seq<QueueName>, now: Time): (r: seq<Option<TaskId>>)
    requires QueuesKnown(m)
    ensures |r| == |names|
  {
    TakeFrom(m, names, map[], now)
  }

  /** The cursor of qn is where the scans of `done` left it: what remains eligible from
      it on is what the earlier requests for qn have not received. */
  ghost predicate CursorOk(m: MQ, cur: Cursors, done: seq<QueueName>, qn: QueueName, now: Time)
    requires QueuesKnown(m) && qn in m.queues
  {
    var e := Avail(m, qn, now);
    var c := multiset(done)[qn];
    && From(cur, qn) <= |m.queues[qn]|
    && Eligible(m.queues[qn][From(cur, qn)..], m.tasks, now) == e[if c < |e| then c else |e|..]
  }

  ghost predicate CursorsOk(m: MQ, cur: Cursors, done: seq<QueueName>, now: Time)
    requires QueuesKnown(m)
  {
    forall qn | qn in m.queues :: CursorOk(m, cur, done, qn, now)
  }

  lemma CursorsStart(m: MQ, now: Time)
    requires QueuesKnown(m)
    ensures CursorsOk(m, map[], [], now)
  {
    forall qn | qn in m.queues
      ensures CursorOk(m, map[], [], qn, now)
    {
      assert m.queues[qn][From(map[], qn)..] == m.queues[qn];
    }
  }

  /** One corrected step fills its slot as Slot says and keeps the cursors right. */
  lemma TakeStepOk(m: MQ, cur: Cursors, done: seq<QueueName>, qn: QueueName, now: Time)
    requires QueuesKnown(m) && CursorsOk(m, cur, done, now)
    ensures TakeStep(m, cur, qn, now).0 == Slot(m, done, qn, now)
    ensures CursorsOk(m, TakeStep(m, cur, qn, now).1, done + [qn], now)
  {
    if qn in m.queues {
      TakeStepHit(m, cur, done, qn, now);
    }
    var cur' := TakeStep(m, cur, qn, now).1;
    forall q | q in m.queues
      ensures CursorOk(m, cur', done + [qn], q, now)
    {
      if q == qn {
        TakeStepHit(m, cur, done, qn, now);
      } else {
        TakeStepOther(m, cur, done, qn, q, now);
      }
    }
  }

  /** The requested queue: its slot and its new cursor. */
  lemma TakeStepHit(m: MQ, cur: Cursors, done: seq<QueueName>, qn: QueueName, now: Time)
    requires QueuesKnown(m) && qn in m.queues && CursorOk(m, cur, done, qn, now)
    ensures TakeStep(m, cur, qn, now).0 == Slot(m, done, qn, now)
    ensures CursorOk(m, TakeStep(m, cur, qn, now).1, done + [qn], qn, now)
  {
    TakeStepSlot(m, cur, done, qn, now);
    TakeStepCursor(m, cur, done, qn, now);
  }

  lemma TakeStepSlot(m: MQ, cur: Cursors, done: seq<QueueName>, qn: QueueName, now: Time)
    requires QueuesKnown(m) && qn in m.queues && CursorOk(m, cur, done, qn, now)
    ensures TakeStep(m, cur, qn, now).0 == Slot(m, done, qn, now)
  {
    var s := m.queues[qn];
    var e := Avail(m, qn, now);
    var c := multiset(done)[qn];
    ScanAdvance(s, From(cur, qn), m.tasks, now, e, c);
  }

  lemma TakeStepCursor(m: MQ, cur: Cursors, done: seq<QueueName>, qn: QueueName, now: Time)
    requires QueuesKnown(m) && qn in m.queues && CursorOk(m, cur, done, qn, now)
    ensures CursorOk(m, TakeStep(m, cur, qn, now).1, done + [qn], qn, now)
  {
    CursorNext(m.queues[qn], From(cur, qn), m.tasks, now, Avail(m, qn, now), multiset(done)[qn]);
    CursorCount(done, qn);
    CursorMoves(m, cur, qn, now);
  }

  lemma CursorCount(done: seq<QueueName>, qn: QueueName)
    ensures multiset(done + [qn])[qn] == multiset(done)[qn] + 1
  {
  }

  /** The cursor TakeStep leaves on the requested queue. */
  lemma CursorMoves(m: MQ, cur: Cursors, qn: QueueName, now: Time)
    requires QueuesKnown(m) && qn in m.queues && From(cur, qn) <= |m.queues[qn]|
    ensures var u := NextEligible(m.queues[qn], From(cur, qn), m.tasks, now);
      From(TakeStep(m, cur, qn, now).1, qn) == if u.None? then From(cur, qn) else u.value + 1
  {
  }

  /** Where the cursor goes after a scan that had passed c eligible tasks: past the task
      found, or nowhere on a miss; either way it has passed c + 1 of them, or all. */
  lemma CursorNext(s: seq<TaskId>, f: nat, tasks: map<TaskId, Task>, now: Time, e: seq<TaskId>, c: nat)
    requires Known(s, tasks) && f <= |s|
    requires Eligible(s[f..], tasks, now) == e[if c < |e| then c else |e|..]
    ensures NextEligible(s, f, tasks, now).None? ==>
      Eligible(s[f..], tasks, now) == e[if c + 1 < |e| then c + 1 else |e|..]
    ensures NextEligible(s, f, tasks, now).Some? ==>
      var j := NextEligible(s, f, tasks, now).value;
      j + 1 <= |s| && Eligible(s[j + 1..], tasks, now) == e[if c + 1 < |e| then c + 1 else |e|..]
  {
    ScanAdvance(s, f, tasks, now, e, c);
  }

  /** Another queue: its cursor and its count are untouched. */
  lemma TakeStepOther(m: MQ, cur: Cursors, done: seq<QueueName>, qn: QueueName, q: QueueName, now: Time)
    requires QueuesKnown(m) && q in m.queues && q != qn && CursorOk(m, cur, done, q, now)
    ensures CursorOk(m, TakeStep(m, cur, qn, now).1, done + [qn], q, now)
  {
    assert multiset(done + [qn])[q] == multiset(done)[q];
    assert From(TakeStep(m, cur, qn, now).1, q) == From(cur, q);
  }

  lemma {:induction false} TakeFromSlots(m: MQ, names: seq<QueueName>, cur: Cursors, done: seq<QueueName>, now: Time)
    requires QueuesKnown(m) && CursorsOk(m, cur, done, now)
    ensures var r := TakeFrom(m, names, cur, now);
      forall k | 0 <= k < |names| :: r[k] == Slot(m, done + names[..k], names[k], now)
  {
    if |names| > 0 {
      var qn := names[0];
      var (slot, cur') := TakeStep(m, cur, qn, now);
      TakeStepOk(m, cur, done, qn, now);
      TakeFromSlots(m, names[1..], cur', done + [qn], now);
      var r := TakeFrom(m, names, cur, now);
      assert r == [slot] + TakeFrom(m, names[1..], cur', now);
      forall k | 0 <= k < |names|
        ensures r[k] == Slot(m, done + names[..k], names[k], now)
      {
        if k == 0 {
          assert done + names[..0] == done;
        } else {
          PrefixShift(done, names, k);
        }
      }
    }
  }

  lemma PrefixShift<T>(done: seq<T>, names: seq<T>, k: nat)
    requires 0 < k < |names|
    ensures (done + [names[0]]) + names[1..][..k - 1] == done + names[..k]
    ensures names[1..][k - 1] == names[k]
  {
    assert names[..k] == [names[0]] + names[1..][..k - 1];
  }

  /** Take fills slot k with the next eligible task of names[k] not already handed to an
      earlier request for the same queue, and leaves it empty for a missing queue or
      one that has run out. */
  lemma TakeSlots(m: MQ, names: seq<QueueName>, now: Time)
    requires QueuesKnown(m)
    ensures forall k | 0 <= k < |names| :: Take(m, names, now)[k] == Slot(m, names[..k], names[k], now)
  {
    CursorsStart(m, now);
    TakeFromSlots(m, names, map[], [], now);
    forall k | 0 <= k < |names|
      ensures [] + names[..k] == names[..k]
    {
    }
  }

  /** A filled slot holds a dispatchable task of the queue named for it; an empty slot
      means the queue is missing or every eligible task of it went to earlier requests. */
  lemma TakeSlotFacts(m: MQ, names: seq<QueueName>, now: Time, k: nat)
    requires QueuesKnown(m) && k < |names|
    ensures var r := Take(m, names, now);
      && (r[k].Some? ==> names[k] in m.queues && r[k].value in m.queues[names[k]]
                         && r[k].value in m.tasks && m.tasks[r[k].value].CanDispatch(now))
      && (r[k].None? <==> names[k] !in m.queues || multiset(names[..k])[names[k]] >= |Avail(m, names[k], now)|)
  {
    TakeSlots(m, names, now);
    var qn := names[k];
    if qn in m.queues {
      var e := Avail(m, qn, now);
      var c := multiset(names[..k])[qn];
      if c < |e| {
        EligibleMembers(m.queues[qn], m.tasks, now, e[c]);
      }
    }
  }

  /** Two requests for one queue: the later request's count is larger. */
  lemma CountGrows(names: seq<QueueName>, i: nat, j: nat)
    requires i < j <= |names|
    ensures multiset(names[..j])[names[i]] > multiset(names[..i])[names[i]]
  {
    assert names[..j] == names[..i] + [names[i]] + names[i + 1..j];
  }

  /** The corrected Take never hands one task to two slots. */
  lemma TakeDistinct(m: MQ, names: seq<QueueName>, now: Time, i: nat, j: nat)
    requires Valid(m) && i < j < |names|
    ensures QueuesKnown(m)
    ensures var r := Take(m, names, now);
      r[i].Some? && r[j].Some? ==> r[i].value != r[j].value
  {
    ValidQueuesKnown(m);
    var r := Take(m, names, now);
    TakeSlots(m, names, now);
    TakeSlotFacts(m, names, now, i);
    TakeSlotFacts(m, names, now, j);
    if r[i].Some? && r[j].Some? {
      var qi := names[i];
      var qj := names[j];
      if qi == qj {
        var s := m.queues[qi];
        CountGrows(names, i, j);
        EligibleNoDup(s, m.tasks, now);
      } else {
        assert m.tasks[r[i].value].queue == Some(qi);
        assert m.tasks[r[j].value].queue == Some(qj);
      }
    }
  }

  /** Successive picks from one queue follow queue order. */
  lemma TakeOrder(m: MQ, names: seq<QueueName>, now: Time, i: nat, j: nat)
    requires Valid(m) && i < j < |names| && names[i] == names[j]
    ensures QueuesKnown(m)
    ensures var r := Take(m, names, now);
      r[j].Some? ==>
        && names[i] in m.queues && r[i].Some?
        && r[i].value in m.queues[names[i]] && r[j].value in m.queues[names[i]]
        && IndexOf(m.queues[names[i]], r[i].value) < IndexOf(m.queues[names[i]], r[j].value)
  {
    ValidQueuesKnown(m);
    var r := Take(m, names, now);
    TakeSlots(m, names, now);
    var qn := names[i];
    if r[j].Some? {
      var ci := multiset(names[..i])[qn];
      var cj := multiset(names[..j])[qn];
      CountGrows(names, i, j);
      var e := Avail(m, qn, now);
      EligibleOrder(m.queues[qn], m.tasks, now, ci, cj);
    }
  }

  // Ready.

  /** WaitSpec.Ready from given cursors: fails as soon as a queue is missing or has no
      eligible task left; a hit moves the queue's cursor past the task taken. */
  function ReadyFrom(m: MQ, names: seq<QueueName>, cur: Cursors, now: Time): (r: Option<seq<TaskId>>)
    requires QueuesKnown(m)
  {
    if |names| == 0 then Some([])
    else
      var qn := names[0];
      if qn !in m.queues then None
      else match NextEligible(m.queues[qn], From(cur, qn), m.tasks, now)
        case None => None
        case Some(j) =>
          match ReadyFrom(m, names[1..], cur[qn := j + 1], now)
          case None => None
          case Some(rest) => Some([m.queues[qn][j]] + rest)
  }

  /** WaitSpec.Ready: the tasks and true, or nil and false (None). */
  function Ready(m: MQ, names: seq<QueueName>, now: Time): Option<seq<TaskId>>
    requires QueuesKnown(m)
  {
    ReadyFrom(m, names, map[], now)
  }

  /** The values of the slots if every slot is filled. */
  function AllSome<T>(slots: seq<Option<T>>): (r: Option<seq<T>>)
    ensures r.Some? <==> forall k | 0 <= k < |slots| :: slots[k].Some?
    ensures r.Some? ==> |r.value| == |slots| && forall k | 0 <= k < |slots| :: r.value[k] == slots[k].value
  {
    if |slots| == 0 then Some([])
    else if slots[0].None? then None
    else match AllSome(slots[1..])
      case None => None
      case Some(rest) => Some([slots[0].value] + rest)
  }

  /** Ready succeeds exactly when the corrected Take fills every slot, and then returns
      Take's tasks. */
  lemma {:induction false} ReadyIsTakeFrom(m: MQ, names: seq<QueueName>, cur: Cursors, now: Time)
    requires QueuesKnown(m)
    ensures ReadyFrom(m, names, cur, now) == AllSome(TakeFrom(m, names, cur, now))
  {
    if |names| > 0 {
      var qn := names[0];
      var (slot, cur') := TakeStep(m, cur, qn, now);
      var t := TakeFrom(m, names, cur, now);
      assert t == [slot] + TakeFrom(m, names[1..], cur', now);
      assert t[0] == slot && t[1..] == TakeFrom(m, names[1..], cur', now);
      if slot.Some? {
        ReadyIsTakeFrom(m, names[1..], cur', now);
      }
    }
  }

  /** Take as written and corrected agree up to their first empty slot, so Ready is
      also exactly "Take as written filled every slot". */
  lemma {:induction false} AllSomeAsWritten(m: MQ, names: seq<QueueName>, cur: Cursors, now: Time)
    requires QueuesKnown(m)
    ensures AllSome(TakeFromAsWritten(m, names, cur, now)) == AllSome(TakeFrom(m, names, cur, now))
  {
    if |names| > 0 {
      var qn := names[0];
      var (slot, cur') := TakeStep(m, cur, qn, now);
      var (slot', cur'') := TakeStepAsWritten(m, cur, qn, now);
      var t := TakeFrom(m, names, cur, now);
      var w := TakeFromAsWritten(m, names, cur, now);
      assert t[0] == slot && t[1..] == TakeFrom(m, names[1..], cur', now);
      assert w[0] == slot' && w[1..] == TakeFromAsWritten(m, names[1..], cur'', now);
      assert slot == slot';
      if slot.Some? {
        assert cur' == cur'';
        AllSomeAsWritten(m, names[1..], cur', now);
      }
    }
  }

  /** Ready against Take: the same tasks when it succeeds, and it fails exactly when
      Take (either version) leaves a slot empty. */
  lemma ReadyIsTake(m: MQ, names: seq<QueueName>, now: Time)
    requires QueuesKnown(m)
    ensures Ready(m, names, now) == AllSome(Take(m, names, now))
    ensures Ready(m, names, now) == AllSome(TakeAsWritten(m, names, now))
  {
    ReadyIsTakeFrom(m, names, map[], now);
    AllSomeAsWritten(m, names, map[], now);
  }

  /** When Ready reports true, every slot holds a dispatchable task of its own queue and
      no task is handed out twice; it reports false exactly when some queue is missing
      or cannot serve all the requests made of it. */
  lemma ReadySpec(m: MQ, names: seq<QueueName>, now: Time)
    requires Valid(m)
    ensures QueuesKnown(m)
    ensures var r := Ready(m, names, now);
      && (r.Some? ==> |r.value| == |names| && NoDup(r.value))
      && (r.Some? ==> forall k | 0 <= k < |names| ::
            names[k] in m.queues && r.value[k] in m.queues[names[k]]
            && r.value[k] in m.tasks && m.tasks[r.value[k]].CanDispatch(now))
      && (r.None? <==> exists k | 0 <= k < |names| ::
            names[k] !in m.queues || multiset(names[..k])[names[k]] >= |Avail(m, names[k], now)|)
  {
    ValidQueuesKnown(m);
    ReadyIsTake(m, names, now);
    var t := Take(m, names, now);
    var r := Ready(m, names, now);
    forall k | 0 <= k < |names|
      ensures t[k].Some? ==> names[k] in m.queues && t[k].value in m.queues[names[k]]
                             && t[k].value in m.tasks && m.tasks[t[k].value].CanDispatch(now)
      ensures t[k].None? <==> names[k] !in m.queues || multiset(names[..k])[names[k]] >= |Avail(m, names[k], now)|
    {
      TakeSlotFacts(m, names, now, k);
    }
    if r.Some? {
      forall i, j | 0 <= i < j < |r.value|
        ensures r.value[i] != r.value[j]
      {
        TakeDistinct(m, names, now, i, j);
      }
    }
  }

  /** The tasks of queue qn that can be dispatched at now, as a set. */
  ghost function Waiting(m: MQ, qn: QueueName, now: Time): set<TaskId> {
    set x | x in m.tasks && m.tasks[x].queue == Some(qn) && m.tasks[x].CanDispatch(now)
  }

  /** The scan of a queue finds each of its waiting tasks once; a missing queue has none. */
  lemma AvailCount(m: MQ, qn: QueueName, now: Time)
    requires Valid(m)
    ensures QueuesKnown(m)
    ensures qn in m.queues ==> |Avail(m, qn, now)| == |Waiting(m, qn, now)|
    ensures qn !in m.queues ==> Waiting(m, qn, now) == {}
  {
    ValidQueuesKnown(m);
    if qn in m.queues {
      var e := Avail(m, qn, now);
      EligibleNoDup(m.queues[qn], m.tasks, now);
      forall x
        ensures x in e <==> x in Waiting(m, qn, now)
      {
        EligibleMembers(m.queues[qn], m.tasks, now, x);
      }
      NoDupCard(e, Waiting(m, qn, now));
    }
  }

  /** Ready fails exactly when some request asks a queue for more tasks than it has
      waiting: the k-th name is requested for the (c+1)-th time, with c at least the
      number of its waiting tasks. */
  lemma ReadyCounts(m: MQ, names: seq<QueueName>, now: Time)
    requires Valid(m)
    ensures QueuesKnown(m)
    ensures Ready(m, names, now).None? <==>
      exists k | 0 <= k < |names| :: multiset(names[..k])[names[k]] >= |Waiting(m, names[k], now)|
  {
    ReadySpec(m, names, now);
    if Ready(m, names, now).None? {
      var k :| 0 <= k < |names| &&
        (names[k] !in m.queues || multiset(names[..k])[names[k]] >= |Avail(m, names[k], now)|);
      AvailCount(m, names[k], now);
    } else {
      forall k | 0 <= k < |names|
        ensures multiset(names[..k])[names[k]] < |Waiting(m, names[k], now)|
      {
        AvailCount(m, names[k], now);
      }
    }
  }

  // Ready once some tasks are handed out.

  /** The scan of qn in g without the tasks in H, in queue order. */
  function Left(g: MQ, qn: QueueName, H: set<TaskId>, now: Time): seq<TaskId>
    requires QueuesKnown(g) && qn in g.queues
  {
    FilterIn(Avail(g, qn, now), g.tasks.Keys - H)
  }

  /** Slot once the tasks in H are handed out: the c-th task of qn's scan outside H,
      where c counts the earlier requests for qn. */
  function SlotLeft(g: MQ, before: seq<QueueName>, qn: QueueName, H: set<TaskId>, now: Time): Option<TaskId>
    requires QueuesKnown(g)
  {
    if qn !in g.queues then None
    else
      var c := multiset(before)[qn];
      var e := Left(g, qn, H, now);
      if c < |e| then Some(e[c]) else None
  }

  /** The reference answer to `names` once the tasks in H are handed out: every slot
      filled from the queues of g in their order, or nothing. */
  function Serve(g: MQ, names: seq<QueueName>, H: set<TaskId>, now: Time): Option<seq<TaskId>>
    requires QueuesKnown(g)
  {
    AllSome(seq(|names|, j requires 0 <= j < |names| => SlotLeft(g, names[..j], names[j], H, now)))
  }

  /** A broker r whose queues scan like those of g without H answers like Serve. */
  lemma ReadyServe(r: MQ, g: MQ, names: seq<QueueName>, H: set<TaskId>, now: Time)
    requires QueuesKnown(r) && QueuesKnown(g)
    requires forall qn :: qn in r.queues <==> qn in g.queues
    requires forall qn | qn in g.queues :: Avail(r, qn, now) == Left(g, qn, H, now)
    ensures Ready(r, names, now) == Serve(g, names, H, now)
  {
    ReadyIsTake(r, names, now);
    TakeSlots(r, names, now);
    var t := Take(r, names, now);
    var u := seq(|names|, j requires 0 <= j < |names| => SlotLeft(g, names[..j], names[j], H, now));
    forall j | 0 <= j < |names|
      ensures t[j] == u[j]
    {
      assert t[j] == Slot(r, names[..j], names[j], now);
    }
    assert t == u;
  }

  /** With nothing handed out, Serve is Ready. */
  lemma ServeNothingHanded(g: MQ, names: seq<QueueName>, now: Time)
    requires Valid(g)
    ensures QueuesKnown(g)
    ensures Serve(g, names, {}, now) == Ready(g, names, now)
  {
    ValidQueuesKnown(g);
    forall qn | qn in g.queues
      ensures Avail(g, qn, now) == Left(g, qn, {}, now)
    {
      forall x | x in Avail(g, qn, now)
        ensures x in g.tasks.Keys - {}
      {
        EligibleMembers(g.queues[qn], g.tasks, now, x);
      }
      FilterAll(Avail(g, qn, now), g.tasks.Keys - {});
    }
    ReadyServe(g, g, names, {}, now);
  }

  // The defect of Take as written.

  /** One eligible task in queue "A" and a request for "A" three times: the second scan
      misses and drops the cursor, so the third scan starts over and hands out the task
      already in the first slot. The corrected Take leaves the third slot empty. */
  lemma TakeAsWrittenRepeats()
    ensures var m := OneTaskBroker();
      && Valid(m)
      && TakeAsWritten(m, ["A", "A", "A"], 0) == [Some(1), None, Some(1)]
      && Take(m, ["A", "A", "A"], 0) == [Some(1), None, None]
  {
    OneTaskValid();
    OneTaskScans();
    OneTaskAsWritten();
    OneTaskCorrected();
  }

  /** The broker of the counterexample: task 1, live until 100 and never leased, alone in
      queue "A". */
  function OneTaskBroker(): MQ {
    MQ(map[1 := Task(1, "", 100, 0, 0, false, Some("A"))], map["A" := [1]], [1], [], false)
  }

  lemma OneTaskValid()
    ensures Valid(OneTaskBroker()) && QueuesKnown(OneTaskBroker())
  {
  }

  lemma OneTaskScans()
    ensures QueuesKnown(OneTaskBroker())
    ensures TakeStepAsWritten(OneTaskBroker(), map[], "A", 0) == (Some(1), map["A" := 1])
    ensures TakeStepAsWritten(OneTaskBroker(), map["A" := 1], "A", 0) == (None, map[])
    ensures TakeStep(OneTaskBroker(), map["A" := 1], "A", 0) == (None, map["A" := 1])
  {
    var m := OneTaskBroker();
    assert m.tasks[1].CanDispatch(0);
    assert NextEligible([1], 0, m.tasks, 0) == Some(0);
    assert NextEligible([1], 1, m.tasks, 0) == None;
  }

  lemma OneTaskAsWritten()
    requires QueuesKnown(OneTaskBroker())
    ensures TakeAsWritten(OneTaskBroker(), ["A", "A", "A"], 0) == [Some(1), None, Some(1)]
  {
    var m := OneTaskBroker();
    OneTaskScans();
    var names: seq<QueueName> := ["A", "A", "A"];
    assert names[1..] == ["A", "A"] && names[1..][1..] == ["A"] && names[1..][1..][1..] == [];
    assert TakeFromAsWritten(m, ["A"], map[], 0) == [Some(1)];
    assert TakeFromAsWritten(m, ["A", "A"], map["A" := 1], 0) == [None, Some(1)];
  }

  lemma OneTaskCorrected()
    requires QueuesKnown(OneTaskBroker())
    ensures Take(OneTaskBroker(), ["A", "A", "A"], 0) == [Some(1), None, None]
  {
    var m := OneTaskBroker();
    OneTaskScans();
    var names: seq<QueueName> := ["A", "A", "A"];
    assert names[1..] == ["A", "A"] && names[1..][1..] == ["A"] && names[1..][1..][1..] == [];
    assert TakeStep(m, map[], "A", 0) == (Some(1), map["A" := 1]);
    assert TakeFrom(m, ["A"], map["A" := 1], 0) == [None];
    assert TakeFrom(m, ["A", "A"], map["A" := 1], 0) == [None, None];
  }
}
