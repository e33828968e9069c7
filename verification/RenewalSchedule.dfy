/** When automatic renewal keeps a lease alive: the interval rule, and runs in which one
    renewer works among all the other clients. */
module RenewalSchedule {
  import opened LeaseStore

  /******* The interval rule *******/

  /** Go's integer division, rounding toward zero. */
  function Third(timeout: int): (t: int)
  {
    if timeout >= 0 then timeout / 3 else -(-timeout / 3)
  }

  /** NewLock's correction of the configured interval. */
  function Configured(renewInterval: int, defaultTimeout: int): (interval: int)
  {
    if renewInterval >= Third(defaultTimeout) then Third(defaultTimeout) else renewInterval
  }

  /** The interval a renewer ticks at. */
  function Interval(configured: int, timeout: int): (interval: int)
  {
    if configured <= 0 || configured >= Third(timeout) then Third(timeout) else configured
  }

  /** A third, rounded down. */
  predicate IsThird(interval: int, timeout: int)
  {
    3 * interval <= timeout < 3 * interval + 3
  }

  /** Three intervals fit into the timeout, whatever is configured; the ticker can be
      made exactly when the timeout is at least three nanoseconds; and the interval is the
      least of the configured one and a third of each timeout, or a third of the lock's own
      timeout where nothing usable is configured. */
  lemma IntervalRule(renewInterval: int, defaultTimeout: int, timeout: int)
    requires timeout > 0
    ensures var i := Interval(Configured(renewInterval, defaultTimeout), timeout);
            && 0 <= 3 * i <= timeout
            && (i > 0 <==> timeout >= 3)
            && (if renewInterval <= 0 || defaultTimeout < 3 then IsThird(i, timeout)
                else i <= renewInterval && 3 * i <= defaultTimeout &&
                     (i == renewInterval || IsThird(i, defaultTimeout) || IsThird(i, timeout)))
  {
  }

  /******* Runs with a renewer *******/

  /** A step of any other client or of the clock, or the holder's next renewal taking
      effect or being missed. */
  datatype Move = Other(step: Step) | Renew(ok: bool)

  /** The holder's plan: its key, token and timeout, the tick interval and how late after
      its tick a renewal may take effect. */
  datatype Plan = Plan(key: string, token: Token, timeout: int, interval: int, delay: nat)

  predicate Sane(p: Plan)
  {
    p.timeout > 0 && p.interval > 0
  }

  /** `due` is the next tick; `missed` tells that the previous renewal was missed. */
  predicate OnTime(p: Plan, s: State, move: Move, due: int, missed: bool)
  {
    match move
    case Renew(ok) => due <= s.now && (missed ==> ok)
    case Other(step) =>
      Enabled(step) && !By(step, p.key, p.token) && (step.Pass? ==> s.now + step.time <= due + p.delay)
  }

  function Do(p: Plan, s: State, move: Move): (t: State)
    requires p.timeout > 0 && (move.Other? ==> Enabled(move.step))
  {
    match move
    case Other(step) => Apply(s, step)
    case Renew(ok) => if ok then Apply(s, Refresh(p.key, p.token, p.timeout, 0, true)) else s
  }

  ghost predicate Punctual(p: Plan, s: State, moves: seq<Move>, due: int, missed: bool)
    requires p.timeout > 0
    decreases |moves|
  {
    moves != [] ==>
      && OnTime(p, s, moves[0], due, missed)
      && Punctual(p, Do(p, s, moves[0]), moves[1..],
                  if moves[0].Renew? then due + p.interval else due, if moves[0].Renew? then !moves[0].ok else missed)
  }

  ghost function After(p: Plan, s: State, moves: seq<Move>, due: int, missed: bool): (t: State)
    requires p.timeout > 0 && Punctual(p, s, moves, due, missed)
    decreases |moves|
  {
    if moves == [] then s
    else After(p, Do(p, s, moves[0]), moves[1..],
               if moves[0].Renew? then due + p.interval else due, if moves[0].Renew? then !moves[0].ok else missed)
  }

  /** The lease runs past everything that can happen before the renewal after next. */
  ghost predicate Covered(p: Plan, s: State, due: int, missed: bool)
  {
    && Live(s, p.key, p.token)
    && s.now <= due + p.delay
    && s.leases[p.key].expiry > due + p.delay + if missed then 0 else p.interval
  }

  /** The condition for continuity. */
  predicate Ample(p: Plan)
    requires p.timeout > 0
  {
    2 * p.interval + p.delay < Granted(p.timeout)
  }

  lemma MoveCovered(p: Plan, s: State, move: Move, due: int, missed: bool)
    requires Sane(p) && Ample(p) && OnTime(p, s, move, due, missed) && Covered(p, s, due, missed)
    ensures Covered(p, Do(p, s, move), if move.Renew? then due + p.interval else due,
                    if move.Renew? then !move.ok else missed)
  {
    if move.Other? {
      Undisturbed(s, move.step, p.key, p.token);
    }
  }

  lemma {:induction false} RunCovered(p: Plan, s: State, moves: seq<Move>, due: int, missed: bool)
    requires Sane(p) && Ample(p) && Covered(p, s, due, missed) && Punctual(p, s, moves, due, missed)
    ensures Live(After(p, s, moves, due, missed), p.key, p.token)
    decreases |moves|
  {
    if moves != [] {
      MoveCovered(p, s, moves[0], due, missed);
      RunCovered(p, Do(p, s, moves[0]), moves[1..],
                 if moves[0].Renew? then due + p.interval else due, if moves[0].Renew? then !moves[0].ok else missed);
    }
  }

  /** The state in which a client has just acquired the key with the plan's token. */
  ghost predicate JustAcquired(p: Plan, s: State)
    requires p.timeout > 0
  {
    p.key in s.leases && s.leases[p.key] == Lease(p.token, s.now + Leased(p.timeout))
  }

  /** A punctual run from the acquisition on. */
  ghost predicate FromStart(p: Plan, s: State, moves: seq<Move>)
    requires p.timeout > 0
  {
    Punctual(p, s, moves, s.now + p.interval, false)
  }

  ghost predicate Kept(p: Plan, s: State, moves: seq<Move>)
    requires p.timeout > 0 && FromStart(p, s, moves)
  {
    Live(After(p, s, moves, s.now + p.interval, false), p.key, p.token)
  }

  /** A holder whose renewals come in time, never two missed in a row, keeps the lock
      through every run of the other clients, from the acquisition on. */
  lemma Continuity(p: Plan, s: State, moves: seq<Move>)
    requires Sane(p) && Ample(p) && JustAcquired(p, s) && FromStart(p, s, moves)
    ensures Kept(p, s, moves)
  {
    RunCovered(p, s, moves, s.now + p.interval, false);
  }

  /** For timeouts in whole milliseconds, delays under a third of the timeout suffice. */
  lemma DelayUnderThird(p: Plan)
    requires p.timeout > 0 && p.timeout % MILLISECOND == 0 && 3 * p.interval <= p.timeout && 3 * p.delay < p.timeout
    ensures Ample(p)
  {
    assert Granted(p.timeout) == p.timeout;
  }

  /** With the interval the lock chooses, whatever is configured, and a timeout in whole
      milliseconds: renewals that take effect within a third of the timeout, never two
      missed in a row, keep the lock. */
  lemma AutoRenewalKeeps(renewInterval: int, defaultTimeout: int, p: Plan, s: State, moves: seq<Move>)
    requires p.timeout > 0 && p.timeout % MILLISECOND == 0 && 3 * p.delay < p.timeout
    requires p.interval == Interval(Configured(renewInterval, defaultTimeout), p.timeout)
    requires JustAcquired(p, s) && FromStart(p, s, moves)
    ensures Kept(p, s, moves)
  {
    IntervalRule(renewInterval, defaultTimeout, p.timeout);
    DelayUnderThird(p);
    Continuity(p, s, moves);
  }

  /** The plan loses the lock: a renewal in time, the next one missed, the third late. */
  function Losing(p: Plan): (moves: seq<Move>)
    requires p.interval >= 0
  {
    [Other(Pass(p.interval)), Renew(true), Other(Pass(p.interval)), Renew(false), Other(Pass(p.interval + p.delay))]
  }

  lemma {:induction false} UnrollPunctual(p: Plan, s: State, move: Move, rest: seq<Move>, due: int, missed: bool)
    requires p.timeout > 0 && OnTime(p, s, move, due, missed)
    ensures var due' := if move.Renew? then due + p.interval else due;
            var missed' := if move.Renew? then !move.ok else missed;
            Punctual(p, Do(p, s, move), rest, due', missed') ==>
              && Punctual(p, s, [move] + rest, due, missed)
              && After(p, s, [move] + rest, due, missed) == After(p, Do(p, s, move), rest, due', missed')
  {
    assert ([move] + rest)[1..] == rest;
  }

  /** Without the condition a punctual run loses the lock. */
  lemma {:induction false} LosingRun(p: Plan, s: State)
    requires Sane(p) && !Ample(p) && 3 * p.interval <= p.timeout && JustAcquired(p, s)
    ensures FromStart(p, s, Losing(p)) && !Kept(p, s, Losing(p))
  {
    var a, i := s.now, p.interval;
    var s1 := Do(p, s, Other(Pass(i)));
    assert Live(s1, p.key, p.token);
    var s2 := Do(p, s1, Renew(true));
    assert s2.leases[p.key].expiry == a + i + Granted(p.timeout);
    var s3 := Do(p, s2, Other(Pass(i)));
    var s5 := Do(p, s3, Other(Pass(i + p.delay)));
    var m5 := [Other(Pass(i + p.delay))];
    UnrollPunctual(p, s3, Other(Pass(i + p.delay)), [], a + 3 * i, true);
    UnrollPunctual(p, s3, Renew(false), m5 + [], a + 2 * i, false);
    UnrollPunctual(p, s2, Other(Pass(i)), [Renew(false)] + (m5 + []), a + 2 * i, false);
    UnrollPunctual(p, s1, Renew(true), [Other(Pass(i))] + ([Renew(false)] + (m5 + [])), a + i, false);
    UnrollPunctual(p, s, Other(Pass(i)), [Renew(true)] + ([Other(Pass(i))] + ([Renew(false)] + (m5 + []))), a + i,
                   false);
    assert Losing(p) == [Other(Pass(i))] + ([Renew(true)] + ([Other(Pass(i))] + ([Renew(false)] + (m5 + []))));
  }

  /** Exactly then: no punctual run loses the lock if and only if two intervals and the
      delay are less than the whole milliseconds of the timeout. */
  lemma ContinuityIff(p: Plan, s: State)
    requires Sane(p) && 3 * p.interval <= p.timeout && JustAcquired(p, s)
    ensures Ample(p) <==> forall moves :: FromStart(p, s, moves) ==> Kept(p, s, moves)
  {
    if Ample(p) {
      forall moves | FromStart(p, s, moves) ensures Kept(p, s, moves) {
        Continuity(p, s, moves);
      }
    } else {
      LosingRun(p, s);
    }
  }

  /** Timeouts that are not whole milliseconds: delays under a third need not suffice. */
  lemma ThirdIsNotEnough()
    ensures var timeout := 3_999_999;
            var p := Plan("k", 0, timeout, Third(timeout), 1_333_332);
            3 * p.interval <= timeout && 3 * p.delay < timeout && !Ample(p)
  {
  }
}
