/** Workers get operations in the order in which the queue accepted them. */
module AsyncOrder {
  import opened Bytes
  import opened AsyncDb
  import opened AsyncLosses

  /** What a step puts into the queue, and what it hands to a worker. */
  ghost function Entering(c: Config, s: State, step: Step): (ops: seq<Op>)
  {
    var op := Offered(c, s, step);
    if op.Some? && |s.pipe.queue| < c.queueSize then [op.value] else []
  }

  ghost function Handed(s: State, step: Step): (ops: seq<Op>)
  {
    if step.Take? && s.pipe.queue != [] then [s.pipe.queue[0]] else []
  }

  lemma StepOrder(c: Config, s: State, step: Step)
    requires Enabled(c, s, step)
    ensures s.pipe.queue + Entering(c, s, step) == Handed(s, step) + Apply(c, s, step).pipe.queue
    ensures step.Take? ==> Apply(c, s, step).work.executing == s.work.executing + multiset(Handed(s, step))
  {
  }

  ghost function AllEntering(c: Config, s: State, steps: seq<Step>): (ops: seq<Op>)
    requires Legal(c, s, steps)
    decreases |steps|
  {
    if steps == [] then [] else Entering(c, s, steps[0]) + AllEntering(c, Apply(c, s, steps[0]), steps[1..])
  }

  ghost function AllHanded(c: Config, s: State, steps: seq<Step>): (ops: seq<Op>)
    requires Legal(c, s, steps)
    decreases |steps|
  {
    if steps == [] then [] else Handed(s, steps[0]) + AllHanded(c, Apply(c, s, steps[0]), steps[1..])
  }

  lemma Chain(queue: seq<Op>, entering: seq<Op>, handed: seq<Op>, next: seq<Op>, later: seq<Op>, given: seq<Op>,
              last: seq<Op>)
    requires queue + entering == handed + next && next + later == given + last
    ensures queue + (entering + later) == handed + given + last
  {
    assert queue + (entering + later) == (queue + entering) + later;
    assert (handed + next) + later == handed + (next + later);
    assert handed + (given + last) == handed + given + last;
  }

  /** In every run: what was in the queue and what entered it, in this order, is what was
      handed out and what is in the queue still. */
  lemma {:induction false} FirstInFirstOut(c: Config, s: State, steps: seq<Step>)
    requires Legal(c, s, steps)
    ensures s.pipe.queue + AllEntering(c, s, steps) == AllHanded(c, s, steps) + Run(c, s, steps).pipe.queue
    decreases |steps|
  {
    if steps != [] {
      var t := Apply(c, s, steps[0]);
      StepOrder(c, s, steps[0]);
      FirstInFirstOut(c, t, steps[1..]);
      Chain(s.pipe.queue, Entering(c, s, steps[0]), Handed(s, steps[0]), t.pipe.queue,
            AllEntering(c, t, steps[1..]), AllHanded(c, t, steps[1..]), Run(c, t, steps[1..]).pipe.queue);
    }
  }
}
