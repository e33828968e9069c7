/** What the outcomes of the database calls do to an operation, and what its callback is
    told in the end. */
module AsyncOutcomes {
  import opened Counting
  import opened AsyncDb

  /** A cancelled operation is called back and never sent, a successful one is sent and
      called back, a failed one is sent and then retried or, when its retries are used
      up, called back as failed. */
  function Settled(maxRetries: int, t: Tally, outcome: Outcome): (u: Tally)
  {
    match outcome
    case Cancelled => t.(cancelled := t.cancelled + 1, completed := t.completed + 1)
    case Succeeded => t.(sent := t.sent + 1, completed := t.completed + 1)
    case Failed =>
      if t.retry < maxRetries then t.(sent := t.sent + 1, retry := t.retry + 1)
      else t.(sent := t.sent + 1, failed := t.failed + 1, completed := t.completed + 1)
  }

  lemma ProcessTally(maxRetries: int, w: Work, x: Op, outcome: Outcome, op: Op)
    ensures TallyOf(Process(maxRetries, w, x, outcome), op) ==
            if op == x then Settled(maxRetries, TallyOf(w, op), outcome) else TallyOf(w, op)
  {
    match outcome
    case Cancelled => CancelledTally(w, x, op);
    case Succeeded => SucceededTally(w, x, op);
    case Failed =>
      if Get(w.retry, x) < maxRetries {
        RetriedTally(w, x, op);
      } else {
        FailedTally(w, x, op);
      }
  }

  lemma CancelledTally(w: Work, x: Op, op: Op)
    ensures var t, n := TallyOf(w, op), Mine(x, op);
            TallyOf(Complete(Cancel(w, x), x), op) == t.(cancelled := t.cancelled + n, completed := t.completed + n)
  {
    CancelTally(w, x, op);
    CompleteTally(Cancel(w, x), x, op);
  }

  lemma SucceededTally(w: Work, x: Op, op: Op)
    ensures var t, n := TallyOf(w, op), Mine(x, op);
            TallyOf(Complete(Send(w, x), x), op) == t.(sent := t.sent + n, completed := t.completed + n)
  {
    SendTally(w, x, op);
    CompleteTally(Send(w, x), x, op);
  }

  lemma RetriedTally(w: Work, x: Op, op: Op)
    ensures var t, n := TallyOf(w, op), Mine(x, op);
            TallyOf(Fall(Send(w, x), x), op) == t.(sent := t.sent + n, retry := t.retry + n)
  {
    SendTally(w, x, op);
    FallTally(Send(w, x), x, op);
  }

  lemma FailedTally(w: Work, x: Op, op: Op)
    ensures var t, n := TallyOf(w, op), Mine(x, op);
            TallyOf(Complete(Fail(Send(w, x), x), x), op) ==
            t.(sent := t.sent + n, failed := t.failed + n, completed := t.completed + n)
  {
    SendTally(w, x, op);
    FailTally(Send(w, x), x, op);
    CompleteTally(Fail(Send(w, x), x), x, op);
  }

  lemma StepTally(c: Config, s: State, step: Step, op: Op)
    requires Enabled(c, s, step)
    ensures TallyOf(Apply(c, s, step).work, op) ==
            if step.Finish? && step.op == op then Settled(c.maxRetries, TallyOf(s.work, op), step.outcome)
            else TallyOf(s.work, op)
  {
    if step.Finish? {
      ProcessTally(c.maxRetries, s.work, step.op, step.outcome, op);
    }
  }

  /** How often the pool's work on an operation ended this way. */
  function Ended(steps: seq<Step>, op: Op, outcome: Outcome): (n: nat)
  {
    Times(steps, Finish(op, outcome))
  }

  /** From `t` to `u` by so many cancellations, successes and failures. */
  predicate Accrued(t: Tally, u: Tally, cancelled: nat, succeeded: nat, failed: nat)
  {
    && u.cancelled == t.cancelled + cancelled
    && u.sent == t.sent + succeeded + failed
    && u.retry + u.failed == t.retry + t.failed + failed
    && u.completed - u.failed == t.completed - t.failed + cancelled + succeeded
  }

  lemma {:induction false} RunTally(c: Config, s: State, steps: seq<Step>, op: Op)
    requires Legal(c, s, steps)
    ensures Accrued(TallyOf(s.work, op), TallyOf(Run(c, s, steps).work, op),
                    Ended(steps, op, Cancelled), Ended(steps, op, Succeeded), Ended(steps, op, Failed))
    decreases |steps|
  {
    if steps != [] {
      StepTally(c, s, steps[0], op);
      RunTally(c, Apply(c, s, steps[0]), steps[1..], op);
      TimesFirst(steps, Finish(op, Cancelled));
      TimesFirst(steps, Finish(op, Succeeded));
      TimesFirst(steps, Finish(op, Failed));
      FirstStep(c.maxRetries, TallyOf(s.work, op), steps[0], op);
    }
  }

  lemma FirstStep(maxRetries: int, t: Tally, step: Step, op: Op)
    ensures Accrued(t, if step.Finish? && step.op == op then Settled(maxRetries, t, step.outcome) else t,
                    if step == Finish(op, Cancelled) then 1 else 0, if step == Finish(op, Succeeded) then 1 else 0,
                    if step == Finish(op, Failed) then 1 else 0)
  {
  }

  /** In every run, what an operation has been through is determined by how the work on it
      ended: each failure up to the limit is a retry, one more is the end. */
  lemma OutcomesDecide(c: Config, steps: seq<Step>, op: Op)
    requires Legal(c, Initial(), steps)
    ensures var t, failures := TallyOf(Run(c, Initial(), steps).work, op), Ended(steps, op, Failed);
            && t.cancelled == Ended(steps, op, Cancelled)
            && t.sent == Ended(steps, op, Succeeded) + failures
            && (if failures <= Limit(c.maxRetries) then t.retry == failures && t.failed == 0
                else t.retry == Limit(c.maxRetries) && t.failed == failures - Limit(c.maxRetries))
            && t.completed == t.cancelled + Ended(steps, op, Succeeded) + t.failed
  {
    ReachableInv(c, steps);
    RunTally(c, Initial(), steps, op);
    assert Within(c.maxRetries, Run(c, Initial(), steps).work, op);
  }

  /** What the callback is told: cancelled, success or failure, at most one of them, exactly
      as the work on the operation ended. */
  lemma ToldIff(c: Config, steps: seq<Step>, op: Op)
    requires Legal(c, Initial(), steps)
    ensures var w := Run(c, Initial(), steps).work;
            && (op in w.cancelled <==> Finish(op, Cancelled) in steps)
            && (op in w.failed <==> Ended(steps, op, Failed) > Limit(c.maxRetries))
            && (op in w.completed <==>
                  op in w.cancelled || op in w.failed || Finish(op, Succeeded) in steps)
            && !(op in w.cancelled && op in w.failed)
            && (Finish(op, Succeeded) in steps ==> op !in w.cancelled && op !in w.failed)
  {
    var s := Run(c, Initial(), steps);
    OutcomesDecide(c, steps, op);
    ReachableInv(c, steps);
    SentAndCalledBack(c, s, op);
    TimesIn(s.work.cancelled, op);
    TimesIn(s.work.failed, op);
    TimesIn(s.work.completed, op);
    TimesIn(steps, Finish(op, Cancelled));
    TimesIn(steps, Finish(op, Succeeded));
  }
}
