/** A flush against the database engine. A flush submits one statement after the other and,
    when a statement is accepted, waits without a limit until the engine calls back; an
    answer may end it or be followed by another statement. Everybody else and the engine
    itself go on in between. Get waits for its query in the same way. */
module FlushWaits {
  import opened Bytes
  import opened Counting
  import opened AsyncDb
  import opened AsyncDrain
  import opened AsyncLosses

  datatype Caller = Caller(engine: State, waiting: Option<Op>, returned: bool)

  datatype Move =
    | Other(step: Step)  // the engine, or another caller
    | Issue(op: Op)      // the flush submits its next statement
    | Hear               // the callback has closed the result channel
    | Return

  ghost predicate May(c: Config, w: Caller, move: Move)
  {
    match move
    case Other(step) => Enabled(c, w.engine, step)
    case Issue(op) => w.waiting == None && !w.returned && Enabled(c, w.engine, Submit(op))
    case Hear => w.waiting.Some? && w.waiting.value in w.engine.work.completed
    case Return => w.waiting == None && !w.returned
  }

  /** A statement that finds the queue full is refused, and the flush does not wait for it. */
  ghost function Moved(c: Config, w: Caller, move: Move): (v: Caller)
    requires May(c, w, move)
  {
    match move
    case Other(step) => w.(engine := Apply(c, w.engine, step))
    case Issue(op) =>
      var engine := Apply(c, w.engine, Submit(op));
      Caller(engine, if op in engine.pipe.dropped then None else Some(op), false)
    case Hear => w.(waiting := None)
    case Return => w.(returned := true)
  }

  ghost predicate Goes(c: Config, w: Caller, moves: seq<Move>)
    decreases |moves|
  {
    moves != [] ==> May(c, w, moves[0]) && Goes(c, Moved(c, w, moves[0]), moves[1..])
  }

  ghost function Gone(c: Config, w: Caller, moves: seq<Move>): (v: Caller)
    requires Goes(c, w, moves)
    decreases |moves|
  {
    if moves == [] then w else Gone(c, Moved(c, w, moves[0]), moves[1..])
  }

  const START := Caller(Initial(), None, false)

  ghost predicate Waits(c: Config, w: Caller)
  {
    Inv(c, w.engine) && (w.waiting.Some? ==> !w.returned && w.waiting.value in w.engine.submitted)
  }

  /** The statement the flush waits for was lost. */
  predicate Stuck(w: Caller)
  {
    w.waiting.Some? && w.waiting.value in w.engine.pipe.dropped
  }

  lemma MoveKeeps(c: Config, w: Caller, move: Move)
    requires Waits(c, w) && May(c, w, move)
    ensures Waits(c, Moved(c, w, move))
  {
    match move
    case Other(step) => StepKeeps(c, w.engine, step);
    case Issue(op) => StepKeeps(c, w.engine, Submit(op));
    case Hear =>
    case Return =>
  }

  lemma {:induction false} GoneKeeps(c: Config, w: Caller, moves: seq<Move>)
    requires Waits(c, w) && Goes(c, w, moves)
    ensures Waits(c, Gone(c, w, moves))
    decreases |moves|
  {
    if moves != [] {
      MoveKeeps(c, w, moves[0]);
      GoneKeeps(c, Moved(c, w, moves[0]), moves[1..]);
    }
  }

  lemma NotBoth(c: Config, s: State, op: Op)
    requires Inv(c, s) && op in s.pipe.dropped
    ensures op !in s.work.completed
  {
    TimesIn(s.pipe.dropped, op);
    TimesIn(s.work.completed, op);
    assert Count(s, op) <= 1;
  }

  /** In every run, when the engine has come to rest the flush is answered exactly when its
      statement was not lost. */
  lemma AnsweredIff(c: Config, moves: seq<Move>)
    requires Goes(c, START, moves) && c.workerCount > 0
    requires Quiet(c, Gone(c, START, moves).engine) && Gone(c, START, moves).waiting.Some?
    ensures May(c, Gone(c, START, moves), Hear) <==> !Stuck(Gone(c, START, moves))
  {
    ReachableInv(c, []);
    GoneKeeps(c, START, moves);
    var w := Gone(c, START, moves);
    var op := w.waiting.value;
    QuietSettled(c, w.engine, op);
    TimesIn(w.engine.work.completed, op);
    TimesIn(w.engine.pipe.dropped, op);
  }

  lemma StuckStep(c: Config, w: Caller, move: Move)
    requires Waits(c, w) && May(c, w, move) && Stuck(w)
    ensures Stuck(Moved(c, w, move))
  {
    NotBoth(c, w.engine, w.waiting.value);
  }

  /** A flush whose statement was lost never returns, whatever happens afterwards. */
  lemma {:induction false} NeverReturns(c: Config, w: Caller, moves: seq<Move>)
    requires Waits(c, w) && Goes(c, w, moves) && Stuck(w)
    ensures Stuck(Gone(c, w, moves)) && !Gone(c, w, moves).returned
    decreases |moves|
  {
    if moves != [] {
      StuckStep(c, w, moves[0]);
      MoveKeeps(c, w, moves[0]);
      NeverReturns(c, Moved(c, w, moves[0]), moves[1..]);
    }
  }

  /******* When no flush gets stuck *******/

  ghost predicate Calm(c: Config, w: Caller)
  {
    Waits(c, w) && Direct(w.engine) && Unworked(c, w.engine) && !Stuck(w)
  }

  lemma CalmStep(c: Config, w: Caller, move: Move)
    requires !CanLose(c) && Calm(c, w) && May(c, w, move)
    ensures Calm(c, Moved(c, w, move))
  {
    MoveKeeps(c, w, move);
    match move
    case Other(step) => StepDirect(c, w.engine, step);
    case Issue(op) => StepDirect(c, w.engine, Submit(op));
    case Hear =>
    case Return =>
  }

  lemma {:induction false} CalmRun(c: Config, w: Caller, moves: seq<Move>)
    requires !CanLose(c) && Calm(c, w) && Goes(c, w, moves)
    ensures Calm(c, Gone(c, w, moves))
    decreases |moves|
  {
    if moves != [] {
      CalmStep(c, w, moves[0]);
      CalmRun(c, Moved(c, w, moves[0]), moves[1..]);
    }
  }

  /** What the engine does while the flush only waits. */
  lemma {:induction false} Meanwhile(c: Config, w: Caller, steps: seq<Step>) returns (moves: seq<Move>)
    requires Legal(c, w.engine, steps)
    ensures Goes(c, w, moves) && Gone(c, w, moves) == w.(engine := Run(c, w.engine, steps))
    decreases |steps|
  {
    if steps == [] {
      moves := [];
    } else {
      var rest := Meanwhile(c, w.(engine := Apply(c, w.engine, steps[0])), steps[1..]);
      moves := [Other(steps[0])] + rest;
      assert moves[1..] == rest;
    }
  }

  /** A run from the start in which the flush loses the statement it waits for. */
  ghost predicate GetsStuck(c: Config, moves: seq<Move>)
  {
    Goes(c, START, moves) && Stuck(Gone(c, START, moves))
  }

  /** A run of the engine whose first step submits `op` and whose last one loses it. */
  lemma LostIsStuck(c: Config, op: Op, rest: seq<Step>, offer: Step) returns (moves: seq<Move>)
    requires Enabled(c, Initial(), Submit(op))
    requires var s := Apply(c, Initial(), Submit(op));
             op !in s.pipe.dropped && Legal(c, s, rest) && Enabled(c, Run(c, s, rest), offer)
             && op in Apply(c, Run(c, s, rest), offer).pipe.dropped
    ensures GetsStuck(c, moves)
  {
    var s := Apply(c, Initial(), Submit(op));
    RunOne(c, Run(c, s, rest), offer);
    RunConcat(c, s, rest, [offer]);
    var later := Meanwhile(c, Moved(c, START, Issue(op)), rest + [offer]);
    moves := [Issue(op)] + later;
    assert moves[1..] == later;
  }

  lemma Accepted(c: Config)
    requires CanLose(c)
    ensures UPDATE_OP !in Apply(c, Initial(), Submit(UPDATE_OP)).pipe.dropped
  {
    assert UPDATE_OP.sql[..6] == "UPDATE" && BatchOf(UPDATE_OP) == UPDATE_OP.sql;
  }

  lemma SomeFlushStuck(c: Config) returns (moves: seq<Move>)
    requires CanLose(c)
    ensures GetsStuck(c, moves)
  {
    var offer := if c.enableBatching then MoveOn else Requeue(UPDATE_OP);
    var first: seq<Step>;
    if c.enableBatching {
      first := BatchedPoised(c);
    } else {
      first := RetryPoised(c);
    }
    var steps := PoisedLoses(c, first, offer);
    assert steps[0] == Submit(UPDATE_OP);
    Accepted(c);
    moves := LostIsStuck(c, UPDATE_OP, steps[1..], offer);
  }

  /** No flush is ever stuck if and only if operations are neither batched nor retried. */
  lemma NeverStuckIff(c: Config)
    ensures !CanLose(c) <==> forall moves :: !GetsStuck(c, moves)
  {
    ReachableInv(c, []);
    if CanLose(c) {
      var _ := SomeFlushStuck(c);
    } else {
      forall moves ensures !GetsStuck(c, moves) {
        if Goes(c, START, moves) {
          CalmRun(c, START, moves);
        }
      }
    }
  }
}
