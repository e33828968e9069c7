/** The engine comes to rest: its own steps use up a measure, and where none is left every
    operation is settled. */
module AsyncDrain {
  import opened Bytes
  import opened Counting
  import opened AsyncDb

  function Remaining(maxRetries: int, w: Work, op: Op): (n: nat)
  {
    var r := Limit(maxRetries) - Get(w.retry, op);
    if r < 0 then 0 else r
  }

  function WeightOf(remaining: nat, batch: nat, moving: nat, queue: nat, executing: nat, sleeping: nat): (n: nat)
  {
    if executing > 0 then 3 * remaining + 1
    else if queue > 0 then 3 * remaining + 2
    else if moving + sleeping > 0 then 3 * remaining + 3
    else if batch > 0 then 3 * remaining + 4
    else 0
  }

  /** How many engine steps an operation can still take part in, at most. */
  function Weight(c: Config, s: State, op: Op): (n: nat)
  {
    WeightOf(Remaining(c.maxRetries, s.work, op), Times(Batch(s.batching, BatchOf(op)), op),
             Times(s.batching.moving, op),
             Times(s.pipe.queue, op), s.work.executing[op], s.work.sleeping[op])
  }

  function Total(c: Config, s: State, ops: seq<Op>): (n: nat)
  {
    if ops == [] then 0 else Total(c, s, ops[..|ops| - 1]) + Weight(c, s, ops[|ops| - 1])
  }

  function Measure(c: Config, s: State): (n: nat)
  {
    |s.batching.armed| + Total(c, s, s.submitted)
  }

  predicate Engine(step: Step)
  {
    !step.Submit? && !step.Flush?
  }

  lemma TimerWeight(c: Config, s: State, id: TimerId, op: Op)
    requires Enabled(c, s, TimerRuns(id)) && Sorted(s.batching)
    ensures Weight(c, Apply(c, s, TimerRuns(id)), op) <= Weight(c, s, op)
  {
    RunTimerCount(s.batching, id, op);
  }

  lemma MoveOnWeight(c: Config, s: State, op: Op)
    requires Enabled(c, s, MoveOn) && Count(s, op) <= 1
    ensures Weight(c, Apply(c, s, MoveOn), op) <= Weight(c, s, op)
    ensures op == s.batching.moving[0] ==> Weight(c, Apply(c, s, MoveOn), op) < Weight(c, s, op)
  {
    var t, x := Apply(c, s, MoveOn), s.batching.moving[0];
    TimesFirst(s.batching.moving, op);
    EnqueueQueue(c.queueSize, s.pipe, x, op);
    MovedOn(c, s, t, op, if op == x then 1 else 0);
  }

  lemma MovedOn(c: Config, s: State, t: State, op: Op, n: nat)
    requires n <= 1 && t.work == s.work && t.batching.queues == s.batching.queues && Count(s, op) <= 1
    requires Times(s.batching.moving, op) == Times(t.batching.moving, op) + n
    requires Times(s.pipe.queue, op) <= Times(t.pipe.queue, op) <= Times(s.pipe.queue, op) + n
    ensures Weight(c, t, op) + n <= Weight(c, s, op)
  {
    assert Batch(t.batching, BatchOf(op)) == Batch(s.batching, BatchOf(op));
  }

  lemma TakeWeight(c: Config, s: State, op: Op)
    requires Enabled(c, s, Take) && Count(s, op) <= 1
    ensures Weight(c, Apply(c, s, Take), op) <= Weight(c, s, op)
    ensures op == s.pipe.queue[0] ==> Weight(c, Apply(c, s, Take), op) < Weight(c, s, op)
  {
    TimesFirst(s.pipe.queue, op);
  }

  lemma EnqueueQueue(cap: nat, p: Pipe, x: Op, op: Op)
    ensures Times(Enqueue(cap, p, x).queue, op) == Times(p.queue, op)
            || (op == x && Times(Enqueue(cap, p, x).queue, op) == Times(p.queue, op) + 1)
  {
    TimesSnoc(p.queue, x, op);
  }

  lemma RequeueWeight(c: Config, s: State, x: Op, op: Op)
    requires Enabled(c, s, Requeue(x)) && Count(s, op) <= 1
    ensures Weight(c, Apply(c, s, Requeue(x)), op) <= Weight(c, s, op)
    ensures op == x ==> Weight(c, Apply(c, s, Requeue(x)), op) < Weight(c, s, op)
  {
    EnqueueQueue(c.queueSize, s.pipe, x, op);
    var v := Wake(s.work, x);
    assert v.sleeping[op] == s.work.sleeping[op] - (if x == op then 1 else 0);
    assert Remaining(c.maxRetries, v, op) == Remaining(c.maxRetries, s.work, op);
  }

  lemma ProcessRemaining(maxRetries: int, w: Work, x: Op, outcome: Outcome, op: Op)
    requires x in w.executing
    ensures var v := Process(maxRetries, w, x, outcome);
            if op != x then
              v.executing[op] == w.executing[op] && v.sleeping[op] == w.sleeping[op]
              && Remaining(maxRetries, v, op) == Remaining(maxRetries, w, op)
            else
              v.executing[op] == w.executing[op] - 1
              && (v.sleeping[op] == w.sleeping[op]
                  || Remaining(maxRetries, v, op) == Remaining(maxRetries, w, op) - 1)
  {
  }

  lemma FinishWeight(c: Config, s: State, x: Op, outcome: Outcome, op: Op)
    requires Enabled(c, s, Finish(x, outcome)) && Count(s, op) <= 1
    ensures Weight(c, Apply(c, s, Finish(x, outcome)), op) <= Weight(c, s, op)
    ensures op == x ==> Weight(c, Apply(c, s, Finish(x, outcome)), op) < Weight(c, s, op)
  {
    ProcessRemaining(c.maxRetries, s.work, x, outcome, op);
  }

  lemma {:induction false} TotalLe(c: Config, s: State, t: State, ops: seq<Op>)
    requires forall op :: op in ops ==> Weight(c, t, op) <= Weight(c, s, op)
    ensures Total(c, t, ops) <= Total(c, s, ops)
    ensures forall op :: op in ops && Weight(c, t, op) < Weight(c, s, op) ==> Total(c, t, ops) < Total(c, s, ops)
    decreases |ops|
  {
    if ops != [] {
      TotalLe(c, s, t, ops[..|ops| - 1]);
    }
  }

  /** The operation a step of the engine acts on, if it acts on one. */
  function Actor(s: State, step: Step): (op: Option<Op>)
  {
    match step
    case MoveOn => if s.batching.moving != [] then Some(s.batching.moving[0]) else None
    case Take => if s.pipe.queue != [] then Some(s.pipe.queue[0]) else None
    case Finish(op, outcome) => Some(op)
    case Requeue(op) => Some(op)
    case _ => None
  }

  lemma StepWeight(c: Config, s: State, step: Step, op: Op)
    requires Enabled(c, s, step) && Engine(step) && Conserved(s) && Sorted(s.batching)
    ensures Weight(c, Apply(c, s, step), op) <= Weight(c, s, op)
    ensures Actor(s, step) == Some(op) ==> Weight(c, Apply(c, s, step), op) < Weight(c, s, op)
  {
    assert Count(s, op) <= 1;
    match step
    case TimerRuns(id) => TimerWeight(c, s, id, op);
    case MoveOn => MoveOnWeight(c, s, op);
    case Take => TakeWeight(c, s, op);
    case Finish(x, outcome) => FinishWeight(c, s, x, outcome, op);
    case Requeue(x) => RequeueWeight(c, s, x, op);
  }

  lemma ActorSubmitted(c: Config, s: State, step: Step)
    requires Enabled(c, s, step) && Engine(step) && Conserved(s) && !step.TimerRuns?
    ensures Actor(s, step).Some? && Actor(s, step).value in s.submitted
  {
    var op := Actor(s, step).value;
    assert Count(s, op) == if op in s.submitted then 1 else 0;
    TimesIn(s.batching.moving, op);
    TimesIn(s.pipe.queue, op);
  }

  lemma TimerLess(b: Batching, id: TimerId)
    requires id in b.armed
    ensures |RunTimer(b, id).armed| < |b.armed|
  {
    var rest := b.armed - {id};
    assert rest.Keys == b.armed.Keys - {id};
  }

  /** Every step of the engine's own makes the measure smaller. */
  lemma StepDecreases(c: Config, s: State, step: Step)
    requires Enabled(c, s, step) && Engine(step) && Inv(c, s)
    ensures Measure(c, Apply(c, s, step)) < Measure(c, s)
  {
    var t := Apply(c, s, step);
    forall op ensures Weight(c, t, op) <= Weight(c, s, op) {
      StepWeight(c, s, step, op);
    }
    TotalLe(c, s, t, s.submitted);
    if step.TimerRuns? {
      TimerLess(s.batching, step.id);
    } else {
      ActorSubmitted(c, s, step);
      StepWeight(c, s, step, Actor(s, step).value);
    }
  }

  /** Without new submissions or flushes the engine stops after at most Measure steps. */
  lemma {:induction false} DrainBound(c: Config, s: State, steps: seq<Step>)
    requires Legal(c, s, steps) && Inv(c, s) && forall i :: 0 <= i < |steps| ==> Engine(steps[i])
    ensures |steps| + Measure(c, Run(c, s, steps)) <= Measure(c, s)
    decreases |steps|
  {
    if steps != [] {
      StepDecreases(c, s, steps[0]);
      StepKeeps(c, s, steps[0]);
      DrainBound(c, Apply(c, s, steps[0]), steps[1..]);
    }
  }

  ghost predicate Quiet(c: Config, s: State)
  {
    forall step :: Engine(step) ==> !Enabled(c, s, step)
  }

  lemma QuietPlaces(c: Config, s: State)
    requires Quiet(c, s) && c.workerCount > 0
    ensures s.batching.moving == [] && s.work.executing == multiset{} && s.work.sleeping == multiset{}
    ensures s.pipe.queue == [] && s.batching.armed == map[]
  {
    assert !Enabled(c, s, MoveOn) && !Enabled(c, s, Take);
    forall op ensures op !in s.work.executing && op !in s.work.sleeping {
      assert !Enabled(c, s, Finish(op, Succeeded)) && !Enabled(c, s, Requeue(op));
    }
    forall id ensures id !in s.batching.armed {
      assert !Enabled(c, s, TimerRuns(id));
    }
    assert s.work.executing == multiset{} && s.work.sleeping == multiset{};
  }

  /** When the engine has no step left, every operation submitted was called back once
      or dropped: none waits in a batch, in the queue or for a retry. */
  lemma QuietSettled(c: Config, s: State, op: Op)
    requires Inv(c, s) && Quiet(c, s) && c.workerCount > 0 && op in s.submitted
    ensures Times(s.work.completed, op) + Times(s.pipe.dropped, op) == 1
  {
    QuietPlaces(c, s);
    assert Count(s, op) == 1;
    if Batch(s.batching, BatchOf(op)) != [] {
      NotStranded(c.batchSize, s.batching, BatchOf(op));
    }
  }
}
