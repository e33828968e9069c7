/** The asynchronous database engine: operations wait in batches or in a bounded
    queue, workers execute them, failures are retried, timers flush batches. Each
    step is what one goroutine does under one lock, or one channel operation. */
module AsyncDb {
  import opened Counting

  datatype Kind = Query | Exec

  /** A submitted operation; `id` tells apart operations with the same text. */
  datatype Op = Op(id: nat, kind: Kind, sql: string)

  datatype Config = Config(
    queueSize: nat, workerCount: nat, maxRetries: int, enableBatching: bool, batchSize: int)

  type TimerId = nat

  /** The bounded queue, what did not fit into it, and the count of what did. */
  datatype Pipe = Pipe(queue: seq<Op>, dropped: seq<Op>, queued: nat)

  /** The batches being filled, their timers, and the operations that the holder of the
      batch lock has taken out of a batch and not yet enqueued. `armed` are the timer
      functions that will still run, each with its batch: a timer can be armed without
      being in `timers`, after its entry was removed or when stopping it came too late. */
  datatype Batching = Batching(
    queues: map<string, seq<Op>>, timers: map<string, TimerId>, armed: map<TimerId, string>, nextTimer: TimerId,
    moving: seq<Op>, processed: nat)

  /** What the workers do. `executing` are the operations in their hands, `sleeping`
      those waiting out the retry interval, `completed` those called back, `cancelled` and
      `failed` those called back with such a result; `sent` counts how often an operation
      went to the pool. */
  datatype Work = Work(
    executing: multiset<Op>, sleeping: multiset<Op>, completed: seq<Op>, cancelled: seq<Op>, failed: seq<Op>,
    retry: map<Op, nat>, sent: map<Op, nat>, completedCount: nat, failedCount: nat, retryCount: nat)

  datatype State = State(pipe: Pipe, batching: Batching, work: Work, submitted: seq<Op>)

  function Initial(): (s: State)
  {
    State(Pipe([], [], 0), Batching(map[], map[], map[], 0, [], 0),
          Work(multiset{}, multiset{}, [], [], [], map[], map[], 0, 0, 0), [])
  }

  function Get(m: map<Op, nat>, op: Op): (n: nat)
  {
    if op in m then m[op] else 0
  }

  /******* Which operations are batched *******/

  predicate Batchable(op: Op)
  {
    match op.kind
    case Query => |op.sql| > 6 && op.sql[..6] == "SELECT"
    case Exec => |op.sql| >= 6 && op.sql[..6] in {"INSERT", "UPDATE", "DELETE"}
  }

  function BatchOf(op: Op): (b: string)
    ensures Batchable(op) ==> b != ""
  {
    if |op.sql| <= 20 then op.sql else op.sql[..20]
  }

  /** What is batched: SELECT with more behind it, INSERT, UPDATE and DELETE. */
  lemma BatchedIff(c: Config, op: Op)
    ensures Batched(c, op) <==>
            c.enableBatching &&
            match op.kind
            case Query => "SELECT" < op.sql
            case Exec => "INSERT" <= op.sql || "UPDATE" <= op.sql || "DELETE" <= op.sql
  {
    StartsWith(op.sql, "SELECT");
    StartsWith(op.sql, "INSERT");
    StartsWith(op.sql, "UPDATE");
    StartsWith(op.sql, "DELETE");
  }

  lemma StartsWith(sql: string, word: string)
    ensures word <= sql <==> |sql| >= |word| && sql[..|word|] == word
  {
  }

  /** Statements share a batch exactly when they are equal or agree on 20 characters. */
  lemma SameBatchIff(a: Op, b: Op)
    ensures BatchOf(a) == BatchOf(b) <==>
            a.sql == b.sql || (|a.sql| >= 20 && |b.sql| >= 20 && a.sql[..20] == b.sql[..20])
  {
    assert |a.sql| == 20 ==> a.sql[..20] == a.sql;
    assert |b.sql| == 20 ==> b.sql[..20] == b.sql;
  }

  /******* The queue *******/

  function Enqueue(cap: nat, p: Pipe, op: Op): (q: Pipe)
  {
    if |p.queue| < cap then p.(queue := p.queue + [op], queued := p.queued + 1)
    else p.(dropped := p.dropped + [op])
  }

  function EnqueueAll(cap: nat, p: Pipe, ops: seq<Op>): (q: Pipe)
  {
    if ops == [] then p else Enqueue(cap, EnqueueAll(cap, p, ops[..|ops| - 1]), ops[|ops| - 1])
  }

  function Room(cap: nat, p: Pipe, n: nat): (k: nat)
    ensures k <= n
  {
    if cap <= |p.queue| then 0 else if n <= cap - |p.queue| then n else cap - |p.queue|
  }

  lemma Snoc<T>(a: seq<T>, b: seq<T>, x: T)
    ensures a + b + [x] == a + (b + [x])
  {
  }

  /** A batch is appended in order as far as the queue has room; the rest is lost. */
  lemma {:induction false} EnqueueAllShape(cap: nat, p: Pipe, ops: seq<Op>)
    ensures var k := Room(cap, p, |ops|);
            EnqueueAll(cap, p, ops) == Pipe(p.queue + ops[..k], p.dropped + ops[k..], p.queued + k)
    decreases |ops|
  {
    if ops == [] {
      assert p.queue + ops[..0] == p.queue && p.dropped + ops[0..] == p.dropped;
    } else {
      var n := |ops| - 1;
      var front, last := ops[..n], ops[n];
      EnqueueAllShape(cap, p, front);
      var k := Room(cap, p, n);
      Snoc(p.queue, front[..k], last);
      Snoc(p.dropped, front[k..], last);
      if Room(cap, p, |ops|) == |ops| {
        assert front[..k] + [last] == ops[..|ops|] && front[k..] == ops[|ops|..];
      } else {
        assert front[..k] == ops[..k] && front[k..] + [last] == ops[k..];
      }
    }
  }

  /** Enqueueing the first operation and then the rest is enqueueing them all. */
  lemma {:induction false} EnqueueFirst(cap: nat, p: Pipe, ops: seq<Op>)
    requires ops != []
    ensures EnqueueAll(cap, p, ops) == EnqueueAll(cap, Enqueue(cap, p, ops[0]), ops[1..])
    decreases |ops|
  {
    if |ops| == 1 {
      assert ops[..0] == [];
    } else {
      var n := |ops| - 1;
      EnqueueFirst(cap, p, ops[..n]);
      assert ops[..n][1..] == ops[1..][..n - 1];
    }
  }

  /******* Batches and timers *******/

  function Batch(b: Batching, key: string): (ops: seq<Op>)
  {
    if key in b.queues then b.queues[key] else []
  }

  /** processBatch: takes the batch, if there is one, out of the table. */
  function TakeBatch(b: Batching, key: string): (c: Batching)
  {
    if Batch(b, key) == [] then b
    else b.(queues := b.queues - {key}, moving := b.moving + b.queues[key], processed := b.processed + 1)
  }

  function Collect(b: Batching, op: Op): (c: Batching)
  {
    var key := BatchOf(op);
    b.(queues := b.queues[key := Batch(b, key) + [op]])
  }

  function StartTimer(b: Batching, key: string): (c: Batching)
  {
    if key in b.timers then b
    else b.(timers := b.timers[key := b.nextTimer], armed := b.armed[b.nextTimer := key], nextTimer := b.nextTimer + 1)
  }

  function Added(size: int, b: Batching, op: Op): (c: Batching)
  {
    var key, d := BatchOf(op), Collect(b, op);
    if |d.queues[key]| >= size then TakeBatch(d, key) else StartTimer(d, key)
  }

  /** The timer function `id` runs for its batch; it deletes whatever entry the batch has. */
  function RunTimer(b: Batching, id: TimerId): (c: Batching)
    requires id in b.armed
  {
    var key := b.armed[id];
    TakeBatch(b.(timers := b.timers - {key}, armed := b.armed - {id}), key)
  }

  /** Stopping the listed timers; those in `late` are already running. */
  function StopTimers(b: Batching, late: set<TimerId>): (c: Batching)
  {
    b.(timers := map[], armed := b.armed - (b.timers.Values - late))
  }

  function TakeAll(b: Batching, order: seq<string>): (c: Batching)
  {
    if order == [] then b else TakeBatch(TakeAll(b, order[..|order| - 1]), order[|order| - 1])
  }

  /******* Every batch has a timer that will run *******/

  ghost predicate Filled(size: int, b: Batching)
  {
    forall key :: key in b.queues ==> 0 < |b.queues[key]| < size && key in b.timers
  }

  ghost predicate Armed(b: Batching)
  {
    && (forall key :: key in b.timers ==> b.timers[key] in b.armed && b.armed[b.timers[key]] == key)
    && (forall id :: id in b.armed ==> id < b.nextTimer)
  }

  ghost predicate Sorted(b: Batching)
  {
    forall key, i :: key in b.queues && 0 <= i < |b.queues[key]| ==> BatchOf(b.queues[key][i]) == key
  }

  ghost predicate BatchInv(size: int, b: Batching)
  {
    Filled(size, b) && Armed(b) && Sorted(b)
  }

  lemma CollectSorted(b: Batching, op: Op)
    requires Sorted(b)
    ensures Sorted(Collect(b, op))
  {
  }

  lemma AddedFilled(size: int, b: Batching, op: Op)
    requires Filled(size, b)
    ensures Filled(size, Added(size, b, op))
  {
    var key := BatchOf(op);
    assert key in Collect(b, op).queues && |Collect(b, op).queues[key]| > 0;
  }

  lemma AddedArmed(size: int, b: Batching, op: Op)
    requires Armed(b)
    ensures Armed(Added(size, b, op))
  {
  }

  lemma AddToBatchKeeps(size: int, b: Batching, op: Op)
    requires BatchInv(size, b)
    ensures BatchInv(size, Added(size, b, op))
  {
    CollectSorted(b, op);
    AddedFilled(size, b, op);
    AddedArmed(size, b, op);
  }

  /** A batch is moved on exactly when the new operation fills it: in order, and with
      batchSize operations, or one where that is less. */
  lemma FullBatch(size: int, b: Batching, op: Op)
    requires BatchInv(size, b)
    ensures var key, ops, c := BatchOf(op), Batch(b, BatchOf(op)) + [op], Added(size, b, op);
            if |ops| == (if size < 1 then 1 else size) then
              c.moving == b.moving + ops && c.queues == b.queues - {key} && c.processed == b.processed + 1
            else
              c.moving == b.moving && c.queues == b.queues[key := ops] && c.processed == b.processed && |ops| < size
  {
  }

  lemma RunTimerKeeps(size: int, b: Batching, id: TimerId)
    requires BatchInv(size, b) && id in b.armed
    ensures BatchInv(size, RunTimer(b, id))
  {
  }

  /** Whatever timer runs, and however late, a batch leaves the table when its own timer
      has run: its operations are on their way to the queue. */
  lemma NotStranded(size: int, b: Batching, key: string)
    requires BatchInv(size, b) && key in b.queues
    ensures key in b.timers && b.timers[key] in b.armed
    ensures var c := RunTimer(b, b.timers[key]); key !in c.queues && c.moving == b.moving + b.queues[key]
  {
  }

  lemma {:induction false} TakeAllEmpties(b: Batching, order: seq<string>)
    ensures TakeAll(b, order).queues.Keys <= b.queues.Keys
    ensures forall i :: 0 <= i < |order| && Batch(b, order[i]) != [] ==> order[i] !in TakeAll(b, order).queues
    ensures forall key :: key in b.queues && key !in order ==> key in TakeAll(b, order).queues
    ensures forall key :: key in TakeAll(b, order).queues ==> TakeAll(b, order).queues[key] == b.queues[key]
    ensures TakeAll(b, order).timers == b.timers && TakeAll(b, order).armed == b.armed
            && TakeAll(b, order).nextTimer == b.nextTimer
    decreases |order|
  {
    if order != [] {
      TakeAllEmpties(b, order[..|order| - 1]);
    }
  }

  lemma FlushKeeps(size: int, b: Batching, order: seq<string>, late: set<TimerId>)
    requires BatchInv(size, b) && Enumerates(order, b.queues.Keys)
    ensures BatchInv(size, TakeAll(StopTimers(b, late), order))
    ensures TakeAll(StopTimers(b, late), order).queues == map[]
  {
    TakeAllEmpties(StopTimers(b, late), order);
  }

  /******* Counting an operation *******/

  function PipeCount(p: Pipe, op: Op): (n: nat)
  {
    Times(p.queue, op) + Times(p.dropped, op)
  }

  function BatchCount(b: Batching, op: Op): (n: nat)
  {
    Times(Batch(b, BatchOf(op)), op) + Times(b.moving, op)
  }

  function WorkCount(w: Work, op: Op): (n: nat)
  {
    w.executing[op] + w.sleeping[op] + Times(w.completed, op)
  }

  lemma EnqueueCount(cap: nat, p: Pipe, x: Op, op: Op)
    ensures PipeCount(Enqueue(cap, p, x), op) == PipeCount(p, op) + if x == op then 1 else 0
  {
    TimesSnoc(p.queue, x, op);
    TimesSnoc(p.dropped, x, op);
  }

  lemma {:induction false} StrangerCount(a: seq<Op>, op: Op)
    requires forall i :: 0 <= i < |a| ==> BatchOf(a[i]) != BatchOf(op)
    ensures Times(a, op) == 0
    decreases |a|
  {
    if a != [] {
      StrangerCount(a[..|a| - 1], op);
    }
  }

  lemma TakeBatchCount(b: Batching, key: string, op: Op)
    requires Sorted(b)
    ensures Sorted(TakeBatch(b, key))
    ensures BatchCount(TakeBatch(b, key), op) == BatchCount(b, op)
  {
    TimesConcat(b.moving, Batch(b, key), op);
    if key != BatchOf(op) {
      StrangerCount(Batch(b, key), op);
    }
  }

  lemma CollectCount(b: Batching, x: Op, op: Op)
    requires Sorted(b)
    ensures Sorted(Collect(b, x))
    ensures BatchCount(Collect(b, x), op) == BatchCount(b, op) + if x == op then 1 else 0
  {
    CollectSorted(b, x);
    TimesSnoc(Batch(b, BatchOf(x)), x, op);
  }

  lemma AddToBatchCount(size: int, b: Batching, x: Op, op: Op)
    requires Sorted(b)
    ensures BatchCount(Added(size, b, x), op) == BatchCount(b, op) + if x == op then 1 else 0
  {
    CollectCount(b, x, op);
    TakeBatchCount(Collect(b, x), BatchOf(x), op);
  }

  lemma RunTimerCount(b: Batching, id: TimerId, op: Op)
    requires Sorted(b) && id in b.armed
    ensures BatchCount(RunTimer(b, id), op) == BatchCount(b, op)
  {
    var key := b.armed[id];
    TakeBatchCount(b.(timers := b.timers - {key}, armed := b.armed - {id}), key, op);
  }

  lemma {:induction false} TakeAllCount(b: Batching, order: seq<string>, op: Op)
    requires Sorted(b)
    ensures Sorted(TakeAll(b, order)) && BatchCount(TakeAll(b, order), op) == BatchCount(b, op)
    decreases |order|
  {
    if order != [] {
      TakeAllCount(b, order[..|order| - 1], op);
      TakeBatchCount(TakeAll(b, order[..|order| - 1]), order[|order| - 1], op);
    }
  }

  /******* The steps *******/

  datatype Outcome = Cancelled | Succeeded | Failed

  datatype Step =
    | Submit(op: Op)                                   // QueryAsync, ExecAsync
    | TimerRuns(id: TimerId)                           // processBatchByTimer
    | Flush(order: seq<string>, late: set<TimerId>)    // processPendingBatches
    | MoveOn                                           // one turn of processBatch's loop
    | Take                                             // a worker receives from the queue
    | Finish(op: Op, outcome: Outcome)                 // processOperation, up to its sleep or its end
    | Requeue(op: Op)                                  // processOperation, after its sleep

  predicate Batched(c: Config, op: Op)
  {
    c.enableBatching && Batchable(op) && BatchOf(op) != ""
  }

  /** Submit makes a new operation; steps that need the batch lock wait until its
      holder has nothing left to move; a worker that sleeps cannot receive. */
  ghost predicate Enabled(c: Config, s: State, step: Step)
  {
    match step
    case Submit(op) => op !in s.submitted && (Batched(c, op) ==> s.batching.moving == [])
    case TimerRuns(id) => id in s.batching.armed && s.batching.moving == []
    case Flush(order, late) => Enumerates(order, s.batching.queues.Keys) && s.batching.moving == []
    case MoveOn => s.batching.moving != []
    case Take => s.pipe.queue != [] && |s.work.executing| + |s.work.sleeping| < c.workerCount
    case Finish(op, outcome) => op in s.work.executing
    case Requeue(op) => op in s.work.sleeping
  }

  function Begin(w: Work, op: Op): (v: Work)
  {
    w.(executing := w.executing + multiset{op})
  }

  function Complete(w: Work, op: Op): (v: Work)
  {
    w.(executing := w.executing - multiset{op}, completed := w.completed + [op], completedCount := w.completedCount + 1)
  }

  function Send(w: Work, op: Op): (v: Work)
  {
    w.(sent := w.sent[op := Get(w.sent, op) + 1])
  }

  function Fall(w: Work, op: Op): (v: Work)
  {
    w.(executing := w.executing - multiset{op}, sleeping := w.sleeping + multiset{op},
       retry := w.retry[op := Get(w.retry, op) + 1], retryCount := w.retryCount + 1)
  }

  function Cancel(w: Work, op: Op): (v: Work)
  {
    w.(cancelled := w.cancelled + [op])
  }

  function Fail(w: Work, op: Op): (v: Work)
  {
    w.(failed := w.failed + [op], failedCount := w.failedCount + 1)
  }

  function Process(maxRetries: int, w: Work, op: Op, outcome: Outcome): (v: Work)
  {
    match outcome
    case Cancelled => Complete(Cancel(w, op), op)
    case Succeeded => Complete(Send(w, op), op)
    case Failed =>
      var v := Send(w, op);
      if Get(w.retry, op) < maxRetries then Fall(v, op) else Complete(Fail(v, op), op)
  }

  function Wake(w: Work, op: Op): (v: Work)
  {
    w.(sleeping := w.sleeping - multiset{op})
  }

  function Apply(c: Config, s: State, step: Step): (t: State)
    requires Enabled(c, s, step)
  {
    match step
    case Submit(op) =>
      var u := s.(submitted := s.submitted + [op]);
      if Batched(c, op) then u.(batching := Added(c.batchSize, s.batching, op))
      else u.(pipe := Enqueue(c.queueSize, s.pipe, op))
    case TimerRuns(id) => s.(batching := RunTimer(s.batching, id))
    case Flush(order, late) => s.(batching := TakeAll(StopTimers(s.batching, late), order))
    case MoveOn =>
      s.(batching := s.batching.(moving := s.batching.moving[1..]),
         pipe := Enqueue(c.queueSize, s.pipe, s.batching.moving[0]))
    case Take => s.(pipe := s.pipe.(queue := s.pipe.queue[1..]), work := Begin(s.work, s.pipe.queue[0]))
    case Finish(op, outcome) => s.(work := Process(c.maxRetries, s.work, op, outcome))
    case Requeue(op) => s.(work := Wake(s.work, op), pipe := Enqueue(c.queueSize, s.pipe, op))
  }

  /******* What every step keeps *******/

  function Count(s: State, op: Op): (n: nat)
  {
    PipeCount(s.pipe, op) + BatchCount(s.batching, op) + WorkCount(s.work, op)
  }

  /** Each operation submitted is in exactly one place, exactly once; no other is anywhere. */
  ghost predicate Conserved(s: State)
  {
    forall op :: Count(s, op) == if op in s.submitted then 1 else 0
  }

  function Limit(maxRetries: int): (n: nat)
  {
    if maxRetries < 0 then 0 else maxRetries
  }

  /** What an operation has been through. */
  datatype Tally = Tally(retry: nat, sent: nat, completed: nat, cancelled: nat, failed: nat)

  function TallyOf(w: Work, op: Op): (t: Tally)
  {
    Tally(Get(w.retry, op), Get(w.sent, op), Times(w.completed, op), Times(w.cancelled, op), Times(w.failed, op))
  }

  /** An operation was sent once for each retry and once for its end, unless it was
      cancelled; it fails only when its retries are used up. */
  predicate Proper(maxRetries: int, t: Tally)
  {
    && t.retry <= Limit(maxRetries)
    && t.sent + t.cancelled == t.retry + t.completed
    && (t.failed > 0 ==> t.retry == Limit(maxRetries))
    && t.cancelled + t.failed <= t.completed
  }

  predicate Within(maxRetries: int, w: Work, op: Op)
  {
    Proper(maxRetries, TallyOf(w, op))
  }

  ghost predicate Bounded(c: Config, w: Work)
  {
    forall op :: Within(c.maxRetries, w, op)
  }

  ghost predicate Accounted(s: State)
  {
    && s.pipe.queued == |s.pipe.queue| + |s.work.executing| + s.work.completedCount + s.work.retryCount
    && s.work.completedCount == |s.work.completed| && s.work.failedCount == |s.work.failed|
  }

  ghost predicate Inv(c: Config, s: State)
  {
    && BatchInv(c.batchSize, s.batching)
    && Conserved(s)
    && Bounded(c, s.work)
    && Accounted(s)
    && |s.pipe.queue| <= c.queueSize
  }

  lemma ProcessCount(maxRetries: int, w: Work, x: Op, outcome: Outcome, op: Op)
    requires x in w.executing
    ensures WorkCount(Process(maxRetries, w, x, outcome), op) == WorkCount(w, op)
  {
    TimesSnoc(w.completed, x, op);
  }

  /** The count of an operation changes only when it is submitted. */
  lemma StepCount(c: Config, s: State, step: Step, op: Op)
    requires Enabled(c, s, step) && Sorted(s.batching)
    ensures Count(Apply(c, s, step), op) == Count(s, op) + if step.Submit? && step.op == op then 1 else 0
  {
    match step
    case Submit(x) =>
      EnqueueCount(c.queueSize, s.pipe, x, op);
      AddToBatchCount(c.batchSize, s.batching, x, op);
    case TimerRuns(id) => RunTimerCount(s.batching, id, op);
    case Flush(order, late) => TakeAllCount(StopTimers(s.batching, late), order, op);
    case MoveOn =>
      EnqueueCount(c.queueSize, s.pipe, s.batching.moving[0], op);
      TimesFirst(s.batching.moving, op);
    case Take => TimesFirst(s.pipe.queue, op);
    case Finish(x, outcome) => ProcessCount(c.maxRetries, s.work, x, outcome, op);
    case Requeue(x) => EnqueueCount(c.queueSize, s.pipe, x, op);
  }

  lemma StepConserves(c: Config, s: State, step: Step)
    requires Enabled(c, s, step) && Sorted(s.batching) && Conserved(s)
    ensures Conserved(Apply(c, s, step))
  {
    var t := Apply(c, s, step);
    forall op ensures Count(t, op) == if op in t.submitted then 1 else 0 {
      StepCount(c, s, step, op);
      assert Count(s, op) == if op in s.submitted then 1 else 0;
    }
  }

  lemma StepBatches(c: Config, s: State, step: Step)
    requires Enabled(c, s, step) && BatchInv(c.batchSize, s.batching)
    ensures BatchInv(c.batchSize, Apply(c, s, step).batching)
  {
    match step
    case Submit(op) => AddToBatchKeeps(c.batchSize, s.batching, op);
    case TimerRuns(id) => RunTimerKeeps(c.batchSize, s.batching, id);
    case Flush(order, late) => FlushKeeps(c.batchSize, s.batching, order, late);
    case MoveOn =>
    case Take =>
    case Finish(op, outcome) =>
    case Requeue(op) =>
  }

  function Mine(x: Op, op: Op): (n: nat)
  {
    if x == op then 1 else 0
  }

  lemma SendTally(w: Work, x: Op, op: Op)
    ensures TallyOf(Send(w, x), op) == TallyOf(w, op).(sent := Get(w.sent, op) + Mine(x, op))
  {
  }

  lemma FallTally(w: Work, x: Op, op: Op)
    ensures TallyOf(Fall(w, x), op) == TallyOf(w, op).(retry := Get(w.retry, op) + Mine(x, op))
  {
  }

  lemma CompleteTally(w: Work, x: Op, op: Op)
    ensures TallyOf(Complete(w, x), op) == TallyOf(w, op).(completed := Times(w.completed, op) + Mine(x, op))
  {
    TimesSnoc(w.completed, x, op);
  }

  lemma CancelTally(w: Work, x: Op, op: Op)
    ensures TallyOf(Cancel(w, x), op) == TallyOf(w, op).(cancelled := Times(w.cancelled, op) + Mine(x, op))
  {
    TimesSnoc(w.cancelled, x, op);
  }

  lemma FailTally(w: Work, x: Op, op: Op)
    ensures TallyOf(Fail(w, x), op) == TallyOf(w, op).(failed := Times(w.failed, op) + Mine(x, op))
  {
    TimesSnoc(w.failed, x, op);
  }

  lemma ProcessWithin(maxRetries: int, w: Work, x: Op, outcome: Outcome, op: Op)
    requires Within(maxRetries, w, op)
    ensures Within(maxRetries, Process(maxRetries, w, x, outcome), op)
  {
    var v := Send(w, x);
    match outcome
    case Cancelled =>
      CancelTally(w, x, op);
      CompleteTally(Cancel(w, x), x, op);
    case Succeeded =>
      SendTally(w, x, op);
      CompleteTally(v, x, op);
    case Failed =>
      SendTally(w, x, op);
      if Get(w.retry, x) < maxRetries {
        FallTally(v, x, op);
      } else {
        FailTally(v, x, op);
        CompleteTally(Fail(v, x), x, op);
      }
  }

  lemma ProcessBounded(c: Config, w: Work, x: Op, outcome: Outcome)
    requires Bounded(c, w)
    ensures Bounded(c, Process(c.maxRetries, w, x, outcome))
  {
    forall op ensures Within(c.maxRetries, Process(c.maxRetries, w, x, outcome), op) {
      ProcessWithin(c.maxRetries, w, x, outcome, op);
    }
  }

  lemma SameBounded(c: Config, w: Work, v: Work)
    requires Bounded(c, w) && v.retry == w.retry && v.sent == w.sent
    requires v.completed == w.completed && v.cancelled == w.cancelled && v.failed == w.failed
    ensures Bounded(c, v)
  {
    forall op ensures Within(c.maxRetries, v, op) {
      assert Within(c.maxRetries, w, op);
    }
  }

  lemma StepBounded(c: Config, s: State, step: Step)
    requires Enabled(c, s, step) && Bounded(c, s.work)
    ensures Bounded(c, Apply(c, s, step).work)
  {
    match step
    case Submit(op) =>
    case TimerRuns(id) =>
    case Flush(order, late) =>
    case MoveOn =>
    case Take => SameBounded(c, s.work, Apply(c, s, step).work);
    case Finish(op, outcome) => ProcessBounded(c, s.work, op, outcome);
    case Requeue(op) => SameBounded(c, s.work, Apply(c, s, step).work);
  }

  lemma ProcessAccounted(maxRetries: int, w: Work, x: Op, outcome: Outcome)
    requires x in w.executing
    ensures var v := Process(maxRetries, w, x, outcome);
            && |v.executing| + v.completedCount + v.retryCount == |w.executing| + w.completedCount + w.retryCount
            && v.completedCount - |v.completed| == w.completedCount - |w.completed|
            && v.failedCount - |v.failed| == w.failedCount - |w.failed|
  {
    assert w.executing == w.executing - multiset{x} + multiset{x};
  }

  lemma StepAccounted(c: Config, s: State, step: Step)
    requires Enabled(c, s, step) && Accounted(s) && |s.pipe.queue| <= c.queueSize
    ensures Accounted(Apply(c, s, step)) && |Apply(c, s, step).pipe.queue| <= c.queueSize
  {
    if step.Finish? {
      ProcessAccounted(c.maxRetries, s.work, step.op, step.outcome);
    }
  }

  lemma StepKeeps(c: Config, s: State, step: Step)
    requires Enabled(c, s, step) && Inv(c, s)
    ensures Inv(c, Apply(c, s, step))
  {
    StepBatches(c, s, step);
    StepConserves(c, s, step);
    StepBounded(c, s, step);
    StepAccounted(c, s, step);
  }

  /******* Whole runs *******/

  ghost predicate Legal(c: Config, s: State, steps: seq<Step>)
    decreases |steps|
  {
    steps != [] ==> Enabled(c, s, steps[0]) && Legal(c, Apply(c, s, steps[0]), steps[1..])
  }

  ghost function Run(c: Config, s: State, steps: seq<Step>): (t: State)
    requires Legal(c, s, steps)
    decreases |steps|
  {
    if steps == [] then s else Run(c, Apply(c, s, steps[0]), steps[1..])
  }

  lemma {:induction false} RunKeeps(c: Config, s: State, steps: seq<Step>)
    requires Legal(c, s, steps) && Inv(c, s)
    ensures Inv(c, Run(c, s, steps))
    decreases |steps|
  {
    if steps != [] {
      StepKeeps(c, s, steps[0]);
      RunKeeps(c, Apply(c, s, steps[0]), steps[1..]);
    }
  }

  /** In every state the engine can reach: batches are filled, sorted and timed, every
      operation is in one place, and the counters agree with the places. */
  lemma ReachableInv(c: Config, steps: seq<Step>)
    requires Legal(c, Initial(), steps)
    ensures Inv(c, Run(c, Initial(), steps))
  {
    RunKeeps(c, Initial(), steps);
  }

  /** An operation goes to the pool at most maxRetries + 1 times, exactly so often when it
      is reported failed; its callback runs at most once, never for an operation that was
      dropped or never submitted. */
  lemma SentAndCalledBack(c: Config, s: State, op: Op)
    requires Inv(c, s)
    ensures Get(s.work.sent, op) <= Limit(c.maxRetries) + 1
    ensures Times(s.work.failed, op) > 0 ==> Get(s.work.sent, op) == Limit(c.maxRetries) + 1
    ensures Times(s.work.completed, op) + Times(s.pipe.dropped, op) <= (if op in s.submitted then 1 else 0)
  {
    assert Count(s, op) <= 1;
    assert Within(c.maxRetries, s.work, op);
  }
}
