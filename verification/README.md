# emq broker core in Dafny

A model of the in-memory engine of emq, a small task broker written in Go. Producers
enqueue tasks into named queues. Consumers wait on a list of queue names and receive one
task per name, leased for the task's retry period. A lease ends in one of three ways:
an ack deletes the task, a nak releases it, or the lease runs out and GC releases it.
GC also drops tasks whose expiry has passed.

Every operation is a sequential step of the broker under its lock. The clock reading
`now` is a parameter, and times and durations are integers in nanoseconds.

The modules follow the Go files:

- `Tasks` (task.go): the task record, the lease predicates, `ToTask`, and the queue
  scan behind `NextUndispatched`. The scan is stated over a queue abstracted to its
  sequence of task ids (`Eligible`, `NextEligible`).
- `Ring` (task.go): the circular, sentinel-rooted queue. It is proved to refine a
  sequence of task ids.
- `DList` and `ListQueue` (queue.go): the head/tail queue with its enqueue counter. It
  is also proved to refine a sequence.
- `Waiters` (wait.go): the list of blocked wait requests, built on the same `DList`.
- `MinHeap`: the `container/heap` instances (`TaskHeap`, `pairHeap`). A heap is kept
  as its slice, and only two things are claimed: which elements it holds, and that a
  pop returns a least one.
- `Broker` (mq.go): the `MQ` state and its invariant `Valid`.
  - Every operation is proved to compute a reference definition. `Restrict` deletes
    tasks everywhere. `Relax` gives up leases.
  - `GC` is the two heap sweeps, and it equals `Relax(Restrict(m, Live), Overdue)`.
- `Matching` (wait.go): `ToWaitSpec`, `Take` and `Ready`. `Slot` is a declarative
  reference: the next task of the queue not yet taken by an earlier slot of the
  request.
- `Server` (server.go): `GetID`, `Consume`, the matching pass of `UpdateWaitSpecs`,
  `Peek`, `Enqueue`, `Wait`, and the ack/nak loop of `UpdateDispatchedTasksHTTP`
  (`Settle`).
- `Scheduler` (tctx2/sched.go): `handleRequest` and `handleTimeout` as pure steps.
  Each step maps the pending pairs to the pairs left, the pairs sent on the output
  channel (in order) and the timer reset it requests.

The Go files come from different iterations of the program and do not compile together:

- task.go and queue.go both declare `Queue`;
- wait.go reads `q.Head` as a field and uses a single-result `NextUndispatched`;
- mq.go uses `uuid.UUID` and server.go uses `uid.UID`.

Each function is therefore modelled by its own text. The broker keeps each queue as a
sequence of task ids, and the two linked-list implementations are proved to refine
such a sequence separately.

The test `q.Head == nil` at mq.go:74 has two readings:

- against task.go's method-valued `Head`, the test is never true;
- against a head pointer, the test is true when the queue becomes empty.

The model keeps both readings. The flag `MQ.prune` selects whether `deleteTask` drops a
queue it leaves empty.

Three behaviours of the code shape the model:

- `handleRequest` resets the timer to zero on every request, whatever the new deadline
  (tctx2/sched.go:20-23).
- There is no "wait forever" value: a positive timeout blocks, and anything else
  answers at once (server.go:85-110).
- A waiter is served only when every one of its slots fills at once (`Ready`,
  wait.go:56-80). Slots are never filled partially.

## Model

| member | source | states |
|---|---|---|
| Tasks.ToTask | task.go:13-27 | The new task is unqueued and undispatched. Retry is 5 minutes and expiry is now + 24 h unless given. Given values are whole seconds. The task can be dispatched at `now`. |
| Tasks.ExpiryIsStrict | task.go:66-69 | A task is not expired at the instant `now == expiry`. It is expired one nanosecond later. |
| Tasks.LeaseStatesExclusive | task.go:43-53 | InDispatch and CanDispatch never both hold. At `now == retryTime` on a leased task, neither holds. An expired task is in no lease state. |
| Tasks.NeedRetryCanDispatch | task.go:50-74 | An overdue lease means the task can be dispatched again. NeedRetry is exactly "dispatched and CanDispatch". |
| Tasks.Task.Dispatch | task.go:55-59 | Only `dispatched` and `retryTime` change, and the lease runs to now + retry. With a non-negative retry the task cannot be dispatched again at `now`. |
| Tasks.Task.Undispatch | task.go:61-64 | Only `dispatched` clears. Afterwards the task can be dispatched exactly when it is not expired. |
| Tasks.RedispatchAfterUndispatch | task.go:55-64 | A lease taken after an Undispatch, or taken twice, is the same as one taken directly. |
| Tasks.NextEligible | task.go:123-130 | The first position at or after `from` whose task can be dispatched. None means no such position. |
| Tasks.EligibleMembers | task.go:123-130 | The reference scan `Eligible` holds exactly the queue's dispatchable tasks. |
| Tasks.EligibleOrder | task.go:123-130 | The reference scan keeps queue order. |
| Tasks.NextEligibleSplits | task.go:123-130 | One NextUndispatched step takes the first task of the reference scan from `from`. What remains is the scan from just past it. |
| Ring.Init | task.go:89-93 | A fresh queue represents the empty sequence. |
| Ring.AppendRefines | task.go:95-102 | Append takes the list for `s` to the list for `s + [x]`. |
| Ring.RemoveRefines | task.go:104-110 | Remove takes the list for `s` to `s` without that task, others in order. The removed task is detached (`t.q` nil). |
| Ring.HeadRefines | task.go:112-121 | Empty holds iff the sequence is empty. Head is its first element, or nil. |
| Ring.NextRefines | task.go:77-82 | Next of element i is element i+1, and nil at the last element. |
| Ring.NextUndispatched | task.go:123-130 | Returns the first dispatchable task at or after `t` and its successor, or (nil, nil) when there is none. A nil `t` gives (nil, nil). |
| ListQueue.NewQueue | queue.go:12-14 | An empty queue with the given name, nothing enqueued. |
| ListQueue.EnqueueRefines | queue.go:16-26 | Enqueue takes the list for `s` to the list for `s + [t]`. |
| ListQueue.Enqueue | queue.go:16-26 | The count goes up by exactly one and the task becomes the tail. |
| ListQueue.Remove | queue.go:28-44 | The count is unchanged and the task is detached (nil next/prev). |
| ListQueue.RemoveRefines | queue.go:28-44 | Remove deletes exactly that task. Head and tail move when it was at an end. |
| ListQueue.DequeueRefines | queue.go:46-53 | On an empty queue: nil, nothing changes. Otherwise: the former head, the rest in order. |
| ListQueue.CountIsEnqueues | queue.go:16-53 | After an enqueue and a dequeue the queue is empty again and the count is one higher: the count counts enqueues, not size. |
| DList.PushBackRefines | queue.go:16-26 | Tail insertion on the pointer structure is sequence append. |
| DList.UnlinkRefines | queue.go:28-44 | Unlinking on the pointer structure is deletion at that position. |
| MinHeap.Pop | mq.go:8-27 | heap.Pop returns an element no greater than any in the heap. The heap loses exactly that element. |
| Seqs.RemoveFirstMultiset | mq.go:79-95 | The linear-scan removal takes out at most one occurrence, and only of the given task. |
| Seqs.RemoveFirstMembers | mq.go:79-95 | The linear-scan removal loses no other element and adds none. |
| Broker.ValidMembership | mq.go:29-34 | Under the invariant, these agree: being in Tasks, in ByExpiry, and in exactly the queue the task's q names. Everything in ByRetry is a dispatched task. |
| Broker.NewMQ | mq.go:36-43 | The empty broker satisfies the invariant. |
| Broker.Add | mq.go:45-54 | The task is filed under its id, tagged with its queue and appended at that queue's tail. The queue is created if absent. Other queues are unchanged. ByExpiry gains the task. ByRetry is unchanged. |
| Broker.AddValid | mq.go:45-54 | Adding an undispatched task with a fresh id keeps the invariant. |
| Broker.AddThenDelete | mq.go:45-124 | Deleting a task just added gives back the broker before the add. |
| Broker.Find | mq.go:56-59 | Find runs GC and returns the task iff its id is known and it has not expired. A returned task has no overdue lease. |
| Broker.Dispatch | mq.go:61-68 | The invariant holds afterwards and GC has run. The task is leased to now + retry. |
| Broker.DispatchMovesToTail | mq.go:61-68 | The task moves to the tail of its queue. Its live queue-mates keep their order. Other queues are as GC left them. |
| Broker.DispatchEligibility | mq.go:61-68 | Afterwards only live tasks remain. The leased task cannot be dispatched. Every other task can be dispatched iff it could before. |
| Broker.DispatchFrame | mq.go:61-68 | Only expired tasks go. Another task changes only by losing an overdue lease. |
| Broker.DispatchKeys | mq.go:61-68 | Dispatch keeps the queues GC keeps and exactly the live tasks. The dispatched task is live. |
| Broker.DispatchQueueOf | mq.go:61-68 | Queue by queue: each queue holds its live tasks other than the dispatched one, in their old order. The dispatched task's own queue then ends with it. |
| Broker.DispatchThenFilter | mq.go:61-68 | A Dispatch followed by steps that filter every queue and append to it composes into one filter of the queues before the Dispatch. |
| Broker.DeleteEntry | mq.go:70-77 | deleteTask removes exactly the task from Tasks and leaves both heaps alone. |
| Broker.DeleteFromRetry | mq.go:79-86 | At most one occurrence leaves ByRetry. If the task is absent, nothing changes. |
| Broker.DeleteFromExpiry | mq.go:88-95 | At most one occurrence leaves ByExpiry. If the task is absent, nothing changes. |
| Broker.SweepExpired | mq.go:98-108 | The first GC loop computes `Restrict(m, Live)`: every expired task leaves Tasks, its queue and both heaps, and nothing else changes. |
| Broker.SweepRetry | mq.go:109-117 | The second GC loop computes `Relax(m, Overdue)`: every overdue lease is given up. Tasks, queues and ByExpiry stay. |
| Broker.GC | mq.go:97-118 | GC keeps the invariant and leaves nothing expired and nothing overdue. It equals the two reference steps in sequence. |
| Broker.GCEffect | mq.go:97-118 | Task by task: a task survives iff it has not expired, and it loses its lease iff the lease is overdue. Dispatchability is unchanged. |
| Broker.GCIdempotent | mq.go:97-118 | GC changes nothing on a broker with nothing expired or overdue. So a second GC at the same time is a no-op. |
| Broker.DeleteTask | mq.go:120-124 | The task leaves Tasks, its queue and both heaps. Everything else is kept, and the invariant holds. |
| Broker.Failed | mq.go:126-129 | Only that task's lease is given up: it is out of ByRetry and undispatched. Everything else is kept. |
| Broker.RestrictEffect | mq.go:70-95 | Task by task, the deletion reference keeps exactly the tasks in K, everywhere. |
| Broker.RelaxEffect | mq.go:126-129 | Task by task, the release reference clears `dispatched` and the ByRetry entry for D and changes nothing else. |
| Broker.RestrictTwice | mq.go:120-124 | Deleting in two rounds is deleting the union at once. |
| Broker.RelaxTwice | mq.go:126-129 | Releasing in two rounds is releasing the union at once. |
| Matching.ToWaitSpecAsWritten | wait.go:24-30 | The milliseconds-to-nanoseconds product as int64 arithmetic computes it, which wraps modulo 2^64. The queue names are copied unchanged. |
| Matching.ToWaitSpec | wait.go:24-30 | The names are copied and the timeout is converted to nanoseconds, exact whenever it fits. The conversion never changes whether the timeout is positive. |
| Matching.ToWaitSpecAgrees | wait.go:24-30 | For every timeout whose product fits in an int64, the two conversions agree. |
| Matching.TimeoutWraps | wait.go:24-30 | A positive timeout of 9223372036855 ms wraps to a negative duration as written. |
| Matching.TimeoutWrapsNegative | wait.go:24-30 | A timeout of -9223372036855 ms wraps to a positive duration of about 292 years as written. The corrected conversion keeps it negative. |
| Matching.TakeAsWritten | wait.go:32-54 | One slot per requested name. |
| Matching.Take | wait.go:32-54 | One slot per requested name. What each slot holds is stated by TakeSlots and TakeSlotFacts. |
| Matching.TakeSlots | wait.go:37-52 | Slot k of Take is the reference `Slot`: the next dispatchable task of that queue after those given to earlier slots of the same name. It is nil for an unknown queue or when that queue's tasks are used up. |
| Matching.TakeSlotFacts | wait.go:37-52 | A non-nil slot is a dispatchable task of the queue named in that slot. A slot is nil iff the queue is unknown or the earlier slots for that name used up its dispatchable tasks. |
| Matching.TakeDistinct | wait.go:43-51 | No task fills two slots of one corrected Take. |
| Matching.TakeOrder | wait.go:43-50 | Repeated names pick from their queue in queue order. |
| Matching.TakeAsWrittenRepeats | wait.go:49-50 | Names "A","A","A" with one dispatchable task in A: as written, Take gives [t, nil, t]. The corrected Take gives [t, nil, nil]. |
| Matching.ReadyIsTake | wait.go:56-80 | Ready succeeds iff every slot of Take is filled, with the same tasks. The as-written Take gives the same answer here, because Ready stops at the first miss. |
| Matching.ReadySpec | wait.go:56-80 | On success, one distinct dispatchable task per name, each from the named queue. Ready fails iff some name is unknown or its queue's dispatchable tasks are used up by earlier slots. |
| Matching.AvailCount | wait.go:37-52 | The scan of a queue finds each of its dispatchable tasks exactly once. An unknown queue has none. |
| Matching.ReadyCounts | wait.go:56-80 | Ready fails iff some name is requested, counting this request, more times than its queue has dispatchable tasks. |
| Waiters.NewWaiters | wait.go:87-92 | The new list is empty. |
| Waiters.AppendRefines | wait.go:111-120 | Append puts the waiter at the tail. |
| Waiters.RemoveRefines | wait.go:94-109 | Remove deletes the waiter, fixing head and tail. For a waiter not in the list it is a no-op. |
| Server.GetID | server.go:18-25 | Returns the first drawn id that is not a key of Tasks, or None iff every draw is taken. |
| Server.Consume | server.go:42-48 | Dispatching the slots keeps the invariant. It also keeps "nothing expired or overdue". |
| Server.ConsumeQueues | server.go:42-48 | With every slot nil nothing changes. Otherwise the queue table has the queues GC keeps. Each holds its live tasks not in a slot, in their old order, followed by its slot tasks in slot order. |
| Server.ConsumeEligibility | server.go:42-48 | Afterwards a task can be dispatched iff it could before and is not in a slot. |
| Server.ConsumeRecord | server.go:42-48 | Every task in a slot ends up leased from now. |
| Server.ConsumeEffect | server.go:42-48 | Only expired tasks go and tasks change only in their lease. A live task with no overdue lease and in no slot is untouched. |
| Server.UpdateWaitSpecs | server.go:27-40 | The pass visits the waiters oldest first and keeps the invariant. No task goes to two waiters, and each notice has one distinct task per requested queue. Every task handed out is leased from now. Each notice's k-th task is in the k-th requested queue after GC and could be dispatched. The head waiter is served iff its request can be met after GC. Every waiter left without a notice still cannot be served by the broker the pass leaves. The notices are exactly the reference pass `Plan` over the broker GC leaves: each notice carries Serve's answer against the tasks handed to the waiters before it, each waiter without a notice has no Serve answer against those tasks, and every queue ends as its untouched tasks in their old order followed by the handed-out ones in hand-out order (`Arranged`). |
| Server.PlanFair | server.go:33-38 | The reference pass `Plan`, from any waiter and any set of tasks already handed out, meets FairFrom: notices go to the waiters in list order, at most one each; each carries Serve's answer against the tasks handed to the earlier waiters, and a skipped waiter has no Serve answer against them. `Matching.Serve` is the reference answer: the j-th slot takes the next dispatchable task of its queue that is neither handed out nor in an earlier slot for the same queue, and there is no answer if any slot stays empty. |
| Server.PlanOneTask | server.go:33-38 | Waiters for "B", "A", "A" over task 1 alone in "A": the plan is one notice, to the second waiter, with task 1. |
| Server.PassPlan | server.go:34-35 | During the pass, Ready for the current waiter answers as Serve against GC's broker minus the tasks already handed out, and the plan advances one waiter with the same notice. |
| Server.ReadyArranged | wait.go:56-80 | On a broker arranged for the notices sent so far, Ready answers as Serve does against the tasks handed out. |
| Server.AvailArranged | wait.go:56-80 | On an arranged broker, a queue's dispatchable tasks are GC's dispatchable tasks of that queue minus those handed out, in the same order. |
| Server.ArrangedStep | server.go:42-48 | Consuming a notice's tasks keeps the broker arranged: they leave their places and join their queues' tails in slot order. |
| Server.Visit | server.go:34-38 | One waiter: when Ready succeeds its tasks are consumed and a notice is appended; otherwise broker and notices are unchanged; the pass invariant holds one waiter further. |
| Matching.ReadyServe | wait.go:56-80 | When every queue of r scans like g's queue without H, Ready on r equals Serve on g against H. |
| Matching.ServeNothingHanded | wait.go:56-80 | With nothing handed out, Serve is Ready. |
| Server.ReadyShort | server.go:27-40 | During the pass Ready fails for a waiter iff some requested queue has too few dispatchable tasks left once the tasks already sent are taken out. |
| Server.ServeFrom | server.go:33-38 | The tasks sent to a waiter come from the queues it named, as GC left them, and could be dispatched. |
| Server.ServeTask | server.go:33-38 | Serving one waiter leaves dispatchable exactly the tasks dispatchable at the start of the pass that are in no notice so far, this one included. |
| Server.Peek | server.go:152-178 | The first min(n, available) dispatchable tasks of the queue, in queue order. An empty list for an unknown queue or n ≤ 0. |
| Server.PeekFacts | server.go:159-174 | Peek returns at most n distinct tasks. Each belongs to the queue and can be dispatched. |
| Server.Enqueue | server.go:58-63 | The fresh task is filed under its id in the named queue and can be dispatched now. |
| Server.EnqueueServedLast | server.go:58-63 | The new task becomes the last dispatchable task of its queue. Other queues are unchanged. |
| Server.EnqueueThenDelete | server.go:58-63 | Acking a task just enqueued restores the broker. |
| Server.Wait | server.go:75-114 | With the corrected conversion and Take: a request blocks iff its timeout is positive, and is then parked at the tail of the waiters. Otherwise it is answered with one slot per name. |
| Server.WaitAnswers | server.go:103-110 | A request that does not block is answered from Take: the slots follow the reference, are distinct, and every task in them is now leased. |
| Server.WaitParks | server.go:85-90 | A blocking request is appended to the waiters list. |
| Server.Settle | server.go:120-138 | Ack deletes exactly the listed tasks whose lease still runs. Nak releases exactly those. Everything is measured after the GC that Find runs. |
| Server.SettledEffect | server.go:130-135 | Task by task: ack removes the leased listed tasks and keeps the rest, and nak clears their leases. Other tasks are as GC left them. |
| Scheduler.Sub | tctx2/sched.go:28-29 | `p.time.Sub(t)` is positive iff the deadline is after t. It saturates to the int64 duration range. |
| Scheduler.HandleRequest | tctx2/sched.go:20-23 | The pending multiset gains exactly the new pair. Nothing is sent and the timer is reset to 0. |
| Scheduler.HandleTimeout | tctx2/sched.go:25-37 | Pairs are only moved: what is left plus what is sent is what was pending. |
| Scheduler.TimeoutSplits | tctx2/sched.go:26-36 | Every pair sent is due at t. Every pair left is not. |
| Scheduler.TimeoutExact | tctx2/sched.go:26-32 | The pairs sent are exactly the pending pairs due at t, with multiplicity. |
| Scheduler.TimeoutSorted | tctx2/sched.go:26-31 | Pairs are sent in non-decreasing deadline order. |
| Scheduler.TimeoutReset | tctx2/sched.go:26-37 | The timer is reset iff pairs remain, to the positive wait until the least remaining deadline. |
| Scheduler.TimeoutIdempotent | tctx2/sched.go:25-37 | A second timeout at the same t sends nothing and keeps everything. |
| Scheduler.AddExact | tctx2/sched.go:56-58 | The request is the pair (obj, deadline). |
| Scheduler.Add | tctx2/sched.go:52-54 | Add schedules obj at now + ext. |
| Scheduler.AddThenFire | tctx2/sched.go:20-58 | An object added with deadline ≤ t is sent by a timeout at t. |

## Left out

- HTTP plumbing is not modelled: request decoding, JSON encoding, the mux and middleware (server.go:50-56, 111-113, 180-200, and http_utils.go, middleware.go, middlewares.go, utils.go).
  - The handlers are modelled from the point where they hold the lock.
  - The ack and nak routes are the `ack` flag of `Server.Settle` (`DeleteTask` / `Failed`, server.go:195-196).
- Concurrency is not modelled: the RWMutex, the `go s.UpdateWaitSpecs()` spawns, the `select` on the ready channel and `time.After` in Wait, the blocking send at server.go:37, and GCLoop.
  - Each handler is one atomic step with `now` as a parameter.
  - A send on a waiter's channel becomes a `Notice` in the output sequence.
- Server.Wait: the blocking branch ends at registration on the waiters list. The rest happens after other goroutines run: waiting for a notice or the timeout, then the removal and the fallback Take. The fallback Take is the same step as the non-blocking branch (WaitAnswers).
- The tctx2 goroutine loop and tctx2/api.go NewContext are not modelled; the scheduler is its two step functions. pairHeap's definition is not part of this model; it is treated as a min-heap on the deadline.
- dispatched.go, uid/uid.go and main.go are not modelled, because they are timers, randomness and process start-up.
  - The random id source is the `draws` sequence of `Server.GetID`.
- Server.GetID: loops forever when every drawn id is taken. The model's finite stream of draws returns None instead.
- The log.Println calls in GC and the sift-up/sift-down internals of container/heap are not modelled. A heap is its slice, with a multiset and least-pop contract only.
- The Queues handler (server.go:140-150) is not modelled: it only lists the keys of the queue table under a read lock.
- `Ring` and `ListQueue` are proved to refine sequences, but `Broker` stores each queue directly as a sequence of task ids. The two list implementations are not composed into the broker, because the files disagree on which `Queue` type mq.go uses.
- mq.go:48 builds a queue with `&Queue{Name: qn}` and never calls `Init`, so task.go's `Append` would follow a nil root pointer on a new queue. Broker.Add assumes an initialised queue.
- `MAX_QUEUE_SIZE` (queue.go:3) is declared but never consulted. It appears as `ListQueue.MaxQueueSize` and bounds nothing.
- Server.Consume: requires every slot to be a dispatchable task, with none twice. The Go code dispatches whatever it is handed. Ready's slots always meet this. Take as written can put one task in two slots (see Findings), and Server.Wait avoids that only because it uses the corrected Take.
- Broker.Dispatch: requires the task to be dispatchable now. Without it, GC may delete the task and mq.go:65-66 dereferences a nil `t.q`; the requirement also keeps ByRetry free of duplicates.
- Server.Wait: uses the corrected Matching.ToWaitSpec and Matching.Take, where server.go:75-114 uses the conversion and Take as written. Three inputs tell them apart:
  - timeout 9223372036855 ms: the model blocks; as written the product wraps negative and Go answers at once;
  - timeout -9223372036855 ms: the model answers at once; as written the product wraps to about 292 years and Go blocks;
  - names ["A","A","A"] with one dispatchable task t in A: as written Take gives [t, nil, t], Consume dispatches t twice and ByRetry holds it twice, which the broker invariant rules out.
- Server.WaitAnswers: states the non-blocking branch with the corrected Take, for the reason given under Server.Wait.
- Server.WaitParks: states the blocking branch with the corrected conversion, for the reason given under Server.Wait.
- Tasks.ToTask: time.Time arithmetic is unbounded; `now.Add` saturation at the ends of the time range is not modelled. Broker times are likewise unbounded integers.
- Scheduler.Add: `now + ext` is unbounded integer addition, without time.Time's saturation at the ends of its range.
- Tasks.Task.Dispatch: `now + retry` is unbounded, without time.Time's saturation.
- Matching.TakeAsWritten: its contract gives only the slot count. Its meaning is stated through Matching.TakeAsWrittenRepeats, which exhibits the divergence, and Matching.ReadyIsTake, which shows where it agrees with the corrected Take.

## Findings

| source | as written | input that shows it | evidently intended | confidence | as-written member | corrected member |
|---|---|---|---|---|---|---|
| wait.go:49-50 | After a scan of a queue finds nothing, `heads[q]` is set to nil. The next request for the same queue then scans from the head again. | Queue "A" holds one dispatchable task t; request names ["A","A","A"]. Take returns [t, nil, t]. Wait's answer then carries t twice, and Consume dispatches it twice. | Once a queue's scan is exhausted it stays exhausted: [t, nil, nil], no task in two slots. | high (not executed) | Matching.TakeAsWritten (shown by Matching.TakeAsWrittenRepeats) | Matching.Take (Matching.TakeDistinct, Matching.TakeSlots) |
| wait.go:27 | `time.Duration(wsc.Timeout) * time.Millisecond` is an int64 product and wraps on overflow. | Timeout 9223372036855 ms: the product 9223372036855000000 exceeds the int64 maximum and wraps to -9223372036854551616 ns, so a request meant to block answers at once. The mirror case -9223372036855 ms wraps to 9223372036854551616 ns, about 292 years, so a request meant to answer at once blocks. | The sign of the timeout survives, the duration saturating at the ends of the int64 range. | medium (not executed) | Matching.ToWaitSpecAsWritten (shown by Matching.TimeoutWraps and Matching.TimeoutWrapsNegative) | Matching.ToWaitSpec (Matching.ToWaitSpecAgrees) |
