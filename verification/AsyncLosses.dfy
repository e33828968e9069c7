/** Which operations the engine loses, and when. */
module AsyncLosses {
  import opened Bytes
  import opened Counting
  import opened AsyncDb

  /** The operation a step offers to the queue, if it offers one. */
  function Offered(c: Config, s: State, step: Step): (op: Option<Op>)
  {
    match step
    case Submit(op) => if Batched(c, op) then None else Some(op)
    case MoveOn => if s.batching.moving != [] then Some(s.batching.moving[0]) else None
    case Requeue(op) => Some(op)
    case _ => None
  }

  /** A step loses an operation if and only if it offers it to a full queue. */
  lemma DroppedIff(c: Config, s: State, step: Step, op: Op)
    requires Enabled(c, s, step) && Inv(c, s)
    ensures Times(Apply(c, s, step).pipe.dropped, op) > Times(s.pipe.dropped, op) <==>
            Offered(c, s, step) == Some(op) && |s.pipe.queue| == c.queueSize
    ensures Apply(c, s, step).pipe.dropped != s.pipe.dropped <==>
            Offered(c, s, step).Some? && |s.pipe.queue| == c.queueSize
  {
    if Offered(c, s, step).Some? {
      TimesSnoc(s.pipe.dropped, Offered(c, s, step).value, op);
      assert |s.pipe.dropped + [Offered(c, s, step).value]| > |s.pipe.dropped|;
    }
  }

  /** With an operation outside it, the queue is shorter than what was submitted. */
  lemma RoomLeft(s: State, x: Op)
    requires Conserved(s) && x in s.submitted && Times(s.pipe.queue, x) == 0
    ensures |s.pipe.queue| < |s.submitted|
  {
    var i :| 0 <= i < |s.submitted| && s.submitted[i] == x;
    var others := s.submitted[..i] + s.submitted[i + 1..];
    forall op ensures Times(s.pipe.queue, op) <= Times(others, op) {
      assert Count(s, op) == if op in s.submitted then 1 else 0;
      TimesIn(s.submitted, op);
      TimesRemoved(s.submitted, i, op);
    }
    FewerOccurrences(s.pipe.queue, others);
  }

  lemma QueueWithin(s: State)
    requires Conserved(s)
    ensures |s.pipe.queue| <= |s.submitted|
  {
    forall op ensures Times(s.pipe.queue, op) <= Times(s.submitted, op) {
      assert Count(s, op) == if op in s.submitted then 1 else 0;
      TimesIn(s.submitted, op);
    }
    FewerOccurrences(s.pipe.queue, s.submitted);
  }

  lemma StepDropsNothing(c: Config, s: State, step: Step)
    requires Enabled(c, s, step) && Inv(c, s) && |Apply(c, s, step).submitted| <= c.queueSize
    ensures Apply(c, s, step).pipe.dropped == s.pipe.dropped
  {
    match step
    case Submit(x) =>
      QueueWithin(s);
    case MoveOn =>
      var x := s.batching.moving[0];
      TimesFirst(s.batching.moving, x);
      assert Count(s, x) <= 1;
      RoomLeft(s, x);
    case Requeue(x) =>
      assert Count(s, x) <= 1;
      RoomLeft(s, x);
    case TimerRuns(id) =>
    case Flush(order, late) =>
    case Take =>
    case Finish(op, outcome) =>
  }

  lemma {:induction false} SubmittedGrows(c: Config, s: State, steps: seq<Step>)
    requires Legal(c, s, steps)
    ensures |s.submitted| <= |Run(c, s, steps).submitted|
    decreases |steps|
  {
    if steps != [] {
      SubmittedGrows(c, Apply(c, s, steps[0]), steps[1..]);
    }
  }

  /** A run that submits no more than the queue can hold loses nothing, whatever the order
      of batches, timers, retries and workers. */
  lemma {:induction false} RunDropsNothing(c: Config, s: State, steps: seq<Step>)
    requires Legal(c, s, steps) && Inv(c, s) && |Run(c, s, steps).submitted| <= c.queueSize
    ensures Run(c, s, steps).pipe.dropped == s.pipe.dropped
    decreases |steps|
  {
    if steps != [] {
      var t := Apply(c, s, steps[0]);
      SubmittedGrows(c, t, steps[1..]);
      StepDropsNothing(c, s, steps[0]);
      StepKeeps(c, s, steps[0]);
      RunDropsNothing(c, t, steps[1..]);
    }
  }

  lemma {:induction false} RunCons(c: Config, s: State, step: Step, rest: seq<Step>)
    requires Enabled(c, s, step) && Legal(c, Apply(c, s, step), rest)
    ensures Legal(c, s, [step] + rest) && Run(c, s, [step] + rest) == Run(c, Apply(c, s, step), rest)
  {
    assert ([step] + rest)[1..] == rest;
  }

  lemma {:induction false} RunConcat(c: Config, s: State, first: seq<Step>, second: seq<Step>)
    requires Legal(c, s, first) && Legal(c, Run(c, s, first), second)
    ensures Legal(c, s, first + second) && Run(c, s, first + second) == Run(c, Run(c, s, first), second)
    decreases |first|
  {
    if first == [] {
      assert first + second == second;
    } else {
      RunConcat(c, Apply(c, s, first[0]), first[1..], second);
      RunCons(c, s, first[0], first[1..] + second);
      Regroup(first, second);
    }
  }

  lemma {:induction false} RunOne(c: Config, s: State, step: Step)
    requires Enabled(c, s, step)
    ensures Legal(c, s, [step]) && Run(c, s, [step]) == Apply(c, s, step)
  {
    assert [step][1..] == [];
  }

  /** Operations that are not batched, numbered from `from` on. */
  function Plain(from: nat, n: nat): (ops: seq<Op>)
    ensures |ops| == n && forall i :: 0 <= i < n ==> ops[i] == Op(from + i, Query, "")
  {
    seq(n, i requires 0 <= i < n => Op(from + i, Query, ""))
  }

  function Flooded(c: Config, s: State, ops: seq<Op>): (t: State)
  {
    s.(pipe := EnqueueAll(c.queueSize, s.pipe, ops), submitted := s.submitted + ops)
  }

  /** Submitting them one after the other. */
  lemma {:induction false} Flood(c: Config, s: State, from: nat, n: nat) returns (steps: seq<Step>)
    requires forall i :: 0 <= i < |s.submitted| ==> s.submitted[i].id < from
    ensures Legal(c, s, steps) && Run(c, s, steps) == Flooded(c, s, Plain(from, n))
    decreases n
  {
    if n == 0 {
      steps := [];
      assert s.submitted + Plain(from, 0) == s.submitted;
    } else {
      var front := Flood(c, s, from, n - 1);
      var ops, op := Plain(from, n), Op(from + n - 1, Query, "");
      assert ops[..n - 1] == Plain(from, n - 1);
      var t := Run(c, s, front);
      assert t.submitted == s.submitted + Plain(from, n - 1);
      assert op !in t.submitted;
      RunOne(c, t, Submit(op));
      RunConcat(c, s, front, [Submit(op)]);
      assert t.submitted + [op] == s.submitted + ops;
      steps := front + [Submit(op)];
    }
  }

  /** Among the runs that submit at most n operations none loses any, if and only if the
      queue can hold n. */
  lemma DropFreeIff(c: Config, n: nat)
    ensures n <= c.queueSize <==>
            forall steps :: Legal(c, Initial(), steps) && |Run(c, Initial(), steps).submitted| <= n ==>
              Run(c, Initial(), steps).pipe.dropped == []
  {
    if n <= c.queueSize {
      forall steps | Legal(c, Initial(), steps) && |Run(c, Initial(), steps).submitted| <= n
        ensures Run(c, Initial(), steps).pipe.dropped == []
      {
        RunDropsNothing(c, Initial(), steps);
      }
    } else {
      var steps := Flood(c, Initial(), 0, n);
      EnqueueAllShape(c.queueSize, Initial().pipe, Plain(0, n));
      assert |Run(c, Initial(), steps).pipe.dropped| == n - c.queueSize;
    }
  }

  /******* Losses nobody is told of *******/

  /** The queue is empty, an operation that was accepted is about to be offered to it, and
      all numbers from 1 on are free. */
  ghost predicate Poised(c: Config, s: State, offer: Step)
  {
    && s.pipe.queue == [] && !offer.Submit? && Enabled(c, s, offer) && Offered(c, s, offer).Some?
    && forall i :: 0 <= i < |s.submitted| ==> s.submitted[i].id < 1
  }

  lemma FillsUp(c: Config, p: Pipe)
    requires p.queue == []
    ensures |EnqueueAll(c.queueSize, p, Plain(1, c.queueSize)).queue| == c.queueSize
  {
    EnqueueAllShape(c.queueSize, p, Plain(1, c.queueSize));
  }

  /** After the run, a step that is no call of a client loses an operation: one that was
      accepted when it was submitted. */
  ghost predicate LosesSilently(c: Config, steps: seq<Step>, offer: Step)
  {
    && Legal(c, Initial(), steps) && !offer.Submit?
    && var s := Run(c, Initial(), steps);
       Enabled(c, s, offer) && Apply(c, s, offer).pipe.dropped != s.pipe.dropped
  }

  lemma PoisedLoses(c: Config, first: seq<Step>, offer: Step) returns (steps: seq<Step>)
    requires Legal(c, Initial(), first) && Poised(c, Run(c, Initial(), first), offer)
    ensures LosesSilently(c, steps, offer) && first <= steps
    ensures Offered(c, Run(c, Initial(), first), offer).value
              in Apply(c, Run(c, Initial(), steps), offer).pipe.dropped
  {
    var s := Run(c, Initial(), first);
    var flood := Flood(c, s, 1, c.queueSize);
    var ops := Plain(1, c.queueSize);
    RunConcat(c, Initial(), first, flood);
    steps := first + flood;
    var t := Flooded(c, s, ops);
    assert Offered(c, t, offer) == Offered(c, s, offer) && Enabled(c, t, offer);
    FillsUp(c, s.pipe);
    ReachableInv(c, steps);
    DroppedIff(c, t, offer, Offered(c, s, offer).value);
  }

  const UPDATE_OP := Op(0, Exec, "UPDATE")

  lemma BatchedPoised(c: Config) returns (steps: seq<Step>)
    requires c.enableBatching
    ensures Legal(c, Initial(), steps) && steps != [] && steps[0] == Submit(UPDATE_OP)
    ensures Poised(c, Run(c, Initial(), steps), MoveOn)
    ensures Offered(c, Run(c, Initial(), steps), MoveOn) == Some(UPDATE_OP)
  {
    var op := UPDATE_OP;
    assert op.sql[..6] == "UPDATE" && BatchOf(op) == op.sql;
    var s := Apply(c, Initial(), Submit(op));
    RunOne(c, Initial(), Submit(op));
    steps := [Submit(op)];
    assert [] + [op] == [op];
    if c.batchSize > 1 {
      var t := Apply(c, s, TimerRuns(0));
      RunOne(c, s, TimerRuns(0));
      RunConcat(c, Initial(), [Submit(op)], [TimerRuns(0)]);
      steps := [Submit(op)] + [TimerRuns(0)];
    }
  }

  lemma RetryPoised(c: Config) returns (steps: seq<Step>)
    requires !c.enableBatching && c.maxRetries > 0 && c.workerCount > 0 && c.queueSize > 0
    ensures Legal(c, Initial(), steps) && steps != [] && steps[0] == Submit(UPDATE_OP)
    ensures Poised(c, Run(c, Initial(), steps), Requeue(UPDATE_OP))
  {
    var op := UPDATE_OP;
    var s := Apply(c, Initial(), Submit(op));
    assert s.pipe.queue == [op] && s.submitted == [op];
    var t := Apply(c, s, Take);
    var u := Apply(c, t, Finish(op, Failed));
    RunOne(c, Initial(), Submit(op));
    RunOne(c, s, Take);
    RunConcat(c, Initial(), [Submit(op)], [Take]);
    RunOne(c, t, Finish(op, Failed));
    RunConcat(c, Initial(), [Submit(op)] + [Take], [Finish(op, Failed)]);
    steps := [Submit(op)] + [Take] + [Finish(op, Failed)];
  }

  /** Without batches and retries nothing waits outside the queue. */
  ghost predicate Direct(s: State)
  {
    s.batching.moving == [] && s.batching.queues == map[] && s.work.sleeping == multiset{}
  }

  predicate CanLose(c: Config)
  {
    c.enableBatching || (c.maxRetries > 0 && c.workerCount > 0 && c.queueSize > 0)
  }

  ghost predicate Unworked(c: Config, s: State)
  {
    c.queueSize == 0 || c.workerCount == 0 ==> s.work.executing == multiset{}
  }

  lemma StepDirect(c: Config, s: State, step: Step)
    requires !CanLose(c) && Enabled(c, s, step) && Direct(s) && Unworked(c, s) && |s.pipe.queue| <= c.queueSize
    ensures Direct(Apply(c, s, step)) && Unworked(c, Apply(c, s, step)) && |Apply(c, s, step).pipe.queue| <= c.queueSize
  {
    if step.Flush? {
      TakeAllEmpties(StopTimers(s.batching, step.late), step.order);
      NothingTaken(StopTimers(s.batching, step.late), step.order);
    }
  }

  lemma {:induction false} NothingTaken(b: Batching, order: seq<string>)
    requires b.queues == map[]
    ensures TakeAll(b, order) == b
    decreases |order|
  {
    if order != [] {
      NothingTaken(b, order[..|order| - 1]);
    }
  }

  lemma {:induction false} RunDirect(c: Config, s: State, steps: seq<Step>)
    requires !CanLose(c) && Legal(c, s, steps) && Direct(s) && Unworked(c, s) && |s.pipe.queue| <= c.queueSize
    ensures Direct(Run(c, s, steps))
    decreases |steps|
  {
    if steps != [] {
      StepDirect(c, s, steps[0]);
      RunDirect(c, Apply(c, s, steps[0]), steps[1..]);
    }
  }

  /** Some run loses an operation without telling anybody exactly when operations can be
      batched, or can be retried. */
  lemma SilentLossIff(c: Config)
    ensures CanLose(c) <==> exists steps, offer :: LosesSilently(c, steps, offer)
  {
    if c.enableBatching {
      var first := BatchedPoised(c);
      var steps := PoisedLoses(c, first, MoveOn);
    } else if CanLose(c) {
      var first := RetryPoised(c);
      var steps := PoisedLoses(c, first, Requeue(UPDATE_OP));
    } else {
      forall steps, offer ensures !LosesSilently(c, steps, offer) {
        if Legal(c, Initial(), steps) {
          RunDirect(c, Initial(), steps);
        }
      }
    }
  }
}
