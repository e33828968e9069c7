/** The engine's methods, in place, each one call that nobody interrupts. */
module AsyncEngine {
  import opened Counting
  import opened AsyncDb
  import opened AsyncOutcomes

  lemma {:induction false} EnqueueConcat(cap: nat, p: Pipe, a: seq<Op>, b: seq<Op>)
    ensures EnqueueAll(cap, p, a + b) == EnqueueAll(cap, EnqueueAll(cap, p, a), b)
    decreases |b|
  {
    if b == [] {
      assert a + b == a;
    } else {
      var n := |b| - 1;
      EnqueueConcat(cap, p, a, b[..n]);
      assert (a + b)[..|a + b| - 1] == a + b[..n];
    }
  }

  ghost function MoveAll(c: Config, s: State): (t: State)
  {
    s.(batching := s.batching.(moving := []), pipe := EnqueueAll(c.queueSize, s.pipe, s.batching.moving))
  }

  /** The loop over a batch is a run of MoveOn steps: with no worker in between it is what
      the methods below do in one call. */
  lemma {:induction false} LoopIsRun(c: Config, s: State)
    ensures var steps := seq(|s.batching.moving|, i => MoveOn); Legal(c, s, steps) && Run(c, s, steps) == MoveAll(c, s)
    decreases |s.batching.moving|
  {
    var n := |s.batching.moving|;
    var steps := seq(n, i => MoveOn);
    if n > 0 {
      var t := Apply(c, s, MoveOn);
      LoopIsRun(c, t);
      assert steps[1..] == seq(n - 1, i => MoveOn);
      EnqueueFirst(c.queueSize, s.pipe, s.batching.moving);
    } else {
      assert s == MoveAll(c, s);
    }
  }

  /** Taking the batches out one after the other, each enqueued before the next is taken. */
  lemma TakeNext(cap: nat, p: Pipe, b: Batching, order: seq<string>, key: string)
    ensures var idle := TakeAll(b, order).(moving := []);
            && TakeBatch(idle, key).(moving := []) == TakeAll(b, order + [key]).(moving := [])
            && EnqueueAll(cap, EnqueueAll(cap, p, TakeAll(b, order).moving), TakeBatch(idle, key).moving)
               == EnqueueAll(cap, p, TakeAll(b, order + [key]).moving)
  {
    var before := TakeAll(b, order);
    assert (order + [key])[..|order|] == order;
    assert [] + Batch(before, key) == Batch(before, key) && before.moving + [] == before.moving;
    EnqueueConcat(cap, p, before.moving, Batch(before, key));
  }

  class AsyncDB {
    const config: Config
    var queue: seq<Op>
    var dropped: seq<Op>
    var batchQueues: map<string, seq<Op>>
    var batchTimers: map<string, TimerId>
    var armed: map<TimerId, string>
    var nextTimer: TimerId
    var work: Work
    var queuedOperations: nat
    var batchesProcessed: nat

    constructor (config: Config)
      ensures this.config == config && Pipeline() == Initial().pipe && Batches() == Initial().batching
              && work == Initial().work
    {
      this.config := config;
      queue, dropped, queuedOperations := [], [], 0;
      batchQueues, batchTimers, armed, nextTimer, batchesProcessed := map[], map[], map[], 0, 0;
      work := Initial().work;
    }

    function Pipeline(): (p: Pipe)
      reads this
    {
      Pipe(queue, dropped, queuedOperations)
    }

    function Batches(): (b: Batching)
      reads this
    {
      Batching(batchQueues, batchTimers, armed, nextTimer, [], batchesProcessed)
    }

    /** The state as the steps of `AsyncDb` see it, without the record of what was submitted. */
    ghost function Machine(): (s: State)
      reads this
    {
      State(Pipeline(), Batches(), work, [])
    }

    method EnqueueOperation(op: Op) returns (ok: bool)
      modifies `queue, `dropped, `queuedOperations
      ensures Pipeline() == Enqueue(config.queueSize, old(Pipeline()), op)
      ensures ok <==> op in queue[old(|queue|)..]
      ensures old(|queue|) <= |queue|
    {
      if |queue| < config.queueSize {
        queue := queue + [op];
        queuedOperations := queuedOperations + 1;
        ok := true;
      } else {
        dropped := dropped + [op];
        ok := false;
      }
    }

    method ProcessBatch(key: string)
      modifies `queue, `dropped, `queuedOperations, `batchQueues, `batchesProcessed
      ensures Batches() == TakeBatch(old(Batches()), key).(moving := [])
      ensures Pipeline() == EnqueueAll(config.queueSize, old(Pipeline()), TakeBatch(old(Batches()), key).moving)
    {
      if key !in batchQueues || batchQueues[key] == [] {
        return;
      }
      var batch := batchQueues[key];
      batchQueues := batchQueues - {key};
      batchesProcessed := batchesProcessed + 1;
      for i := 0 to |batch|
        invariant Pipeline() == EnqueueAll(config.queueSize, old(Pipeline()), batch[..i])
        invariant Batches() == TakeBatch(old(Batches()), key).(moving := [])
      {
        assert batch[..i + 1][..i] == batch[..i];
        var _ := EnqueueOperation(batch[i]);
      }
      assert batch[..|batch|] == [] + batch;
    }

    method AddToBatch(op: Op)
      modifies this
      ensures work == old(work)
      ensures var b := Added(config.batchSize, old(Batches()), op);
              && Batches() == b.(moving := [])
              && Pipeline() == EnqueueAll(config.queueSize, old(Pipeline()), b.moving)
    {
      var key := BatchOf(op);
      var batch := if key in batchQueues then batchQueues[key] else [];
      batchQueues := batchQueues[key := batch + [op]];
      assert Batches() == Collect(old(Batches()), op);
      if |batchQueues[key]| >= config.batchSize {
        ProcessBatch(key);
        return;
      }
      if key !in batchTimers {
        batchTimers := batchTimers[key := nextTimer];
        armed := armed[nextTimer := key];
        nextTimer := nextTimer + 1;
      }
    }

    /** The function started by timer `id`. */
    method ProcessBatchByTimer(id: TimerId)
      requires id in armed
      modifies this
      ensures work == old(work)
      ensures Machine() == MoveAll(config, Apply(config, old(Machine()), TimerRuns(id)))
    {
      var key := armed[id];
      armed := armed - {id};
      batchTimers := batchTimers - {key};
      ProcessBatch(key);
    }

    /** `late` are the timers whose functions already run when they are stopped; `order`
        is the order in which the table was walked. */
    method ProcessPendingBatches(late: set<TimerId>) returns (order: seq<string>)
      modifies this
      ensures work == old(work) && Enumerates(order, old(batchQueues).Keys)
      ensures Machine() == MoveAll(config, Apply(config, old(Machine()), Flush(order, late)))
    {
      armed := armed - (batchTimers.Values - late);
      batchTimers := map[];
      ghost var start := StopTimers(old(Batches()), late);
      order := [];
      var left := batchQueues.Keys;
      while left != {}
        invariant left <= old(batchQueues).Keys && Enumerates(order, old(batchQueues).Keys - left)
        invariant work == old(work)
        invariant Batches() == TakeAll(start, order).(moving := [])
        invariant Pipeline() == EnqueueAll(config.queueSize, old(Pipeline()), TakeAll(start, order).moving)
      {
        var key :| key in left;
        TakeNext(config.queueSize, old(Pipeline()), start, order, key);
        EnumeratesMore(order, old(batchQueues).Keys, left, key);
        ProcessBatch(key);
        left := left - {key};
        order := order + [key];
      }
    }

    /** QueryAsync and ExecAsync: an error is returned only for a full queue. */
    method Submit(op: Op) returns (ok: bool)
      modifies this
      ensures work == old(work)
      ensures Batched(config, op) ==>
                ok && Batches() == Added(config.batchSize, old(Batches()), op).(moving := [])
                && Pipeline() == EnqueueAll(config.queueSize, old(Pipeline()),
                                            Added(config.batchSize, old(Batches()), op).moving)
      ensures !Batched(config, op) ==>
                Batches() == old(Batches()) && Pipeline() == Enqueue(config.queueSize, old(Pipeline()), op)
                && (ok <==> old(|queue|) < config.queueSize)
      ensures Machine() == MoveAll(config, Apply(config, old(Machine()), AsyncDb.Submit(op))).(submitted := [])
    {
      if config.enableBatching && Batchable(op) {
        if BatchOf(op) != "" {
          AddToBatch(op);
          return true;
        }
      }
      ok := EnqueueOperation(op);
    }

    /** A worker's receive. */
    method Receive() returns (op: Op)
      requires queue != []
      modifies `queue, `work
      ensures op == old(queue[0]) && queue == old(queue[1..]) && work == Begin(old(work), op)
      ensures old(Enabled(config, Machine(), Take)) ==> Machine() == Apply(config, old(Machine()), Take)
    {
      op := queue[0];
      queue := queue[1..];
      work := Begin(work, op);
    }

    method CompleteOperation(op: Op)
      modifies `work
      ensures work == Complete(old(work), op)
    {
      work := work.(executing := work.executing - multiset{op}, completed := work.completed + [op],
                    completedCount := work.completedCount + 1);
    }

    /** A worker's work on an operation up to its end, or up to the sleep before a retry. */
    method ProcessOperation(op: Op, outcome: Outcome)
      modifies `work
      ensures work == Process(config.maxRetries, old(work), op, outcome)
      ensures TallyOf(work, op) == Settled(config.maxRetries, TallyOf(old(work), op), outcome)
    {
      ProcessTally(config.maxRetries, work, op, outcome, op);
      if outcome == Cancelled {
        work := work.(cancelled := work.cancelled + [op]);
        CompleteOperation(op);
        return;
      }
      work := work.(sent := work.sent[op := Get(work.sent, op) + 1]);
      if outcome == Failed {
        if Get(work.retry, op) < config.maxRetries {
          work := work.(retryCount := work.retryCount + 1);
          work := work.(retry := work.retry[op := Get(work.retry, op) + 1]);
          work := work.(executing := work.executing - multiset{op}, sleeping := work.sleeping + multiset{op});
          return;
        }
        work := work.(failed := work.failed + [op], failedCount := work.failedCount + 1);
      }
      CompleteOperation(op);
    }

    method RequeueAfterSleep(op: Op)
      requires op in work.sleeping
      modifies `work, `queue, `dropped, `queuedOperations
      ensures work == Wake(old(work), op) && Pipeline() == Enqueue(config.queueSize, old(Pipeline()), op)
      ensures Machine() == Apply(config, old(Machine()), Requeue(op))
    {
      work := Wake(work, op);
      var _ := EnqueueOperation(op);
    }
  }
}
