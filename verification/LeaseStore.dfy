/** Leases in a store with expiry times: what SET NX, and the compare-then-delete and
    compare-then-expire scripts do to it, and what the clients may believe. Times are
    integers in nanoseconds. */
module LeaseStore {
  type Token = nat

  datatype Lease = Lease(token: Token, expiry: int)

  /** `beliefs` are the clients' own records: which token took or refreshed which key,
      and until when the client counts on it. */
  datatype State = State(leases: map<string, Lease>, now: int, nextToken: Token, beliefs: map<(string, Token), int>)

  const MILLISECOND: int := 1_000_000

  predicate Live(s: State, key: string, token: Token)
  {
    key in s.leases && s.leases[key].token == token && s.now < s.leases[key].expiry
  }

  predicate Taken(s: State, key: string)
  {
    key in s.leases && s.now < s.leases[key].expiry
  }

  function Effective(timeout: int, default: int): (t: int)
  {
    if timeout <= 0 then default else timeout
  }

  /** Refresh sends whole milliseconds. */
  function Granted(timeout: int): (t: int)
    requires timeout > 0
    ensures 0 <= timeout - t < MILLISECOND && t % MILLISECOND == 0
  {
    timeout / MILLISECOND * MILLISECOND
  }

  /** What SET NX grants: the client library sends whole milliseconds too, one at least. */
  function Leased(timeout: int): (t: int)
    requires timeout > 0
    ensures t >= MILLISECOND && t % MILLISECOND == 0 && timeout - t < MILLISECOND
    ensures t <= timeout || (timeout < MILLISECOND && t == MILLISECOND)
  {
    if timeout < MILLISECOND then MILLISECOND else Granted(timeout)
  }

  /** A client may count the timeout it asked for, from the moment it sent the command,
      exactly when that is a whole number of milliseconds or less than one. */
  lemma CountingTimeoutIff(timeout: int)
    requires timeout > 0
    ensures timeout <= Leased(timeout) <==> timeout % MILLISECOND == 0 || timeout < MILLISECOND
  {
    assert timeout == Granted(timeout) + timeout % MILLISECOND;
  }

  /******* The three commands *******/

  function SetNX(s: State, key: string, timeout: int): (t: State)
    requires timeout > 0
  {
    if Taken(s, key) then s.(nextToken := s.nextToken + 1)
    else s.(leases := s.leases[key := Lease(s.nextToken, s.now + Leased(timeout))], nextToken := s.nextToken + 1)
  }

  function Delete(s: State, key: string, token: Token): (t: State)
  {
    if Live(s, key, token) then s.(leases := s.leases - {key}) else s
  }

  function Expire(s: State, key: string, token: Token, timeout: int): (t: State)
    requires timeout > 0
  {
    if Live(s, key, token) then s.(leases := s.leases[key := Lease(token, s.now + Granted(timeout))]) else s
  }

  /******* Steps of all clients and of the clock *******/

  /** A client counts the lease it was granted from `lag` before the command took effect,
      when it sent it; `heard` tells whether the answer reached the client. */
  datatype Step =
    | Pass(time: nat)
    | Acquire(key: string, timeout: int, lag: nat, heard: bool)
    | Release(key: string, token: Token)
    | Refresh(key: string, token: Token, timeout: int, lag: nat, heard: bool)

  predicate Enabled(step: Step)
  {
    match step
    case Pass(time) => true
    case Acquire(key, timeout, lag, heard) => timeout > 0
    case Release(key, token) => true
    case Refresh(key, token, timeout, lag, heard) => timeout > 0
  }

  function Min(a: int, b: int): (m: int)
  {
    if a < b then a else b
  }

  /** A client that hears nothing must reckon with both: that the command was not carried
      out, and that it was, which may have shortened the lease. So it counts on the earlier
      of the two ends. */
  function Believe(s: State, key: string, token: Token, until: int, heard: bool): (beliefs: map<(string, Token), int>)
  {
    if heard then s.beliefs[(key, token) := until]
    else if (key, token) in s.beliefs then s.beliefs[(key, token) := Min(s.beliefs[(key, token)], until)]
    else s.beliefs
  }

  function Apply(s: State, step: Step): (t: State)
    requires Enabled(step)
  {
    match step
    case Pass(time) => s.(now := s.now + time)
    case Acquire(key, timeout, lag, heard) =>
      if Taken(s, key) then SetNX(s, key, timeout)
      else SetNX(s, key, timeout).(beliefs := Believe(s, key, s.nextToken, s.now + Leased(timeout) - lag, heard))
    case Release(key, token) => Delete(s, key, token).(beliefs := s.beliefs - {(key, token)})
    case Refresh(key, token, timeout, lag, heard) =>
      if !Live(s, key, token) then s
      else Expire(s, key, token, timeout).(beliefs := Believe(s, key, token, s.now + Granted(timeout) - lag, heard))
  }

  /******* Mutual exclusion *******/

  /** A client that still counts on its lease has it. */
  ghost predicate Sound(s: State)
  {
    && (forall key, token :: (key, token) in s.beliefs && s.now < s.beliefs[(key, token)] ==>
          Live(s, key, token) && s.beliefs[(key, token)] <= s.leases[key].expiry)
    && (forall key, token :: (key, token) in s.beliefs ==> token < s.nextToken)
    && (forall key :: key in s.leases ==> s.leases[key].token < s.nextToken)
  }

  lemma StepSound(s: State, step: Step)
    requires Sound(s) && Enabled(step)
    ensures Sound(Apply(s, step))
  {
  }

  ghost predicate Legal(steps: seq<Step>)
  {
    forall i :: 0 <= i < |steps| ==> Enabled(steps[i])
  }

  function Run(s: State, steps: seq<Step>): (t: State)
    requires Legal(steps)
    decreases |steps|
  {
    if steps == [] then s else Run(Apply(s, steps[0]), steps[1..])
  }

  lemma {:induction false} RunSound(s: State, steps: seq<Step>)
    requires Sound(s) && Legal(steps)
    ensures Sound(Run(s, steps))
    decreases |steps|
  {
    if steps != [] {
      StepSound(s, steps[0]);
      RunSound(Apply(s, steps[0]), steps[1..]);
    }
  }

  /** The client of this token counts on its lease. */
  predicate Counts(s: State, key: string, token: Token)
  {
    (key, token) in s.beliefs && s.now < s.beliefs[(key, token)]
  }

  /** In every run of any clients, with answers delayed or lost, no two tokens are
      counted on for one key at one time. */
  lemma MutualExclusion(steps: seq<Step>, key: string, a: Token, b: Token)
    requires Legal(steps)
    ensures var s := Run(State(map[], 0, 0, map[]), steps);
            Counts(s, key, a) && Counts(s, key, b) ==> a == b
  {
    RunSound(State(map[], 0, 0, map[]), steps);
  }

  /******* Only the holder changes a lease *******/

  /** Acquiring succeeds, with a token never seen before, exactly when nobody holds the key. */
  lemma AcquireIff(s: State, key: string, timeout: int)
    requires timeout > 0 && Sound(s)
    ensures Live(SetNX(s, key, timeout), key, s.nextToken) <==> !Taken(s, key)
    ensures forall token :: Live(s, key, token) ==> SetNX(s, key, timeout).leases == s.leases && token != s.nextToken
  {
  }

  /** Release and Refresh with a token change the store exactly while it is the holder's,
      Refresh unless it grants what is left anyway; and they change no other key. */
  lemma HolderOnly(s: State, key: string, token: Token, timeout: int, other: string)
    requires timeout > 0 && other != key
    ensures Delete(s, key, token).leases != s.leases <==> Live(s, key, token)
    ensures Expire(s, key, token, timeout).leases != s.leases <==>
            Live(s, key, token) && s.leases[key].expiry != s.now + Granted(timeout)
    ensures forall x :: x in {Delete(s, key, token), Expire(s, key, token, timeout)} ==>
              (other in x.leases <==> other in s.leases) && (other in s.leases ==> x.leases[other] == s.leases[other])
  {
    if Live(s, key, token) {
      assert key !in Delete(s, key, token).leases;
      assert Expire(s, key, token, timeout).leases[key] == Lease(token, s.now + Granted(timeout));
      if s.leases[key].expiry == s.now + Granted(timeout) {
        assert Expire(s, key, token, timeout).leases == s.leases;
      }
    }
  }

  /** A refresh for less than a millisecond gives the lock up while reporting success. */
  lemma TinyRefreshLetsGo(s: State, key: string, token: Token, timeout: int)
    requires timeout > 0 && Live(s, key, token)
    ensures Live(Expire(s, key, token, timeout), key, token) <==> timeout >= MILLISECOND
  {
  }

  /******* Nobody else disturbs a lease *******/

  predicate By(step: Step, key: string, token: Token)
  {
    match step
    case Pass(time) => false
    case Acquire(k, timeout, lag, heard) => false
    case Release(k, t) => k == key && t == token
    case Refresh(k, t, timeout, lag, heard) => k == key && t == token
  }

  lemma Undisturbed(s: State, step: Step, key: string, token: Token)
    requires Enabled(step) && !By(step, key, token) && Live(s, key, token)
    ensures key in Apply(s, step).leases && Apply(s, step).leases[key] == s.leases[key]
    ensures Apply(s, step).now == s.now + if step.Pass? then step.time else 0
  {
  }

  /******* A lease ends *******/

  function Elapsed(steps: seq<Step>): (time: nat)
  {
    if steps == [] then 0 else (if steps[0].Pass? then steps[0].time else 0) + Elapsed(steps[1..])
  }

  predicate Refreshes(step: Step, key: string, token: Token)
  {
    step.Refresh? && step.key == key && step.token == token
  }

  /** What `token` has of the key, if anything, ends at `end` or earlier. */
  predicate EndsBy(s: State, key: string, token: Token, end: int)
  {
    token < s.nextToken && (key in s.leases && s.leases[key].token == token ==> s.leases[key].expiry <= end)
  }

  lemma StepEndsBy(s: State, step: Step, key: string, token: Token, end: int)
    requires Enabled(step) && !Refreshes(step, key, token) && EndsBy(s, key, token, end)
    ensures EndsBy(Apply(s, step), key, token, end)
    ensures Apply(s, step).now == s.now + if step.Pass? then step.time else 0
  {
  }

  lemma {:induction false} RunEndsBy(s: State, steps: seq<Step>, key: string, token: Token, end: int)
    requires Legal(steps) && EndsBy(s, key, token, end)
    requires forall i :: 0 <= i < |steps| ==> !Refreshes(steps[i], key, token)
    ensures EndsBy(Run(s, steps), key, token, end) && Run(s, steps).now == s.now + Elapsed(steps)
    decreases |steps|
  {
    if steps != [] {
      StepEndsBy(s, steps[0], key, token, end);
      RunEndsBy(Apply(s, steps[0]), steps[1..], key, token, end);
    }
  }

  /** A holder that does not refresh loses the lock when its timeout has passed, whatever it
      and the others do: then the key can be acquired, unless somebody else has done so. */
  lemma LeaseExpires(s: State, acquire: Step, steps: seq<Step>, next: Step)
    requires acquire.Acquire? && acquire.timeout >= MILLISECOND && !Taken(s, acquire.key)
    requires Legal(steps) && Elapsed(steps) >= acquire.timeout
    requires forall i :: 0 <= i < |steps| ==> !Refreshes(steps[i], acquire.key, s.nextToken)
    requires next.Acquire? && next.key == acquire.key && next.timeout > 0
    ensures var t := Run(Apply(s, acquire), steps);
            && !Live(t, acquire.key, s.nextToken)
            && (Live(Apply(t, next), next.key, t.nextToken) || Taken(t, next.key))
            && (Taken(t, next.key) ==> t.leases[next.key].token != s.nextToken)
  {
    RunEndsBy(Apply(s, acquire), steps, acquire.key, s.nextToken, s.now + acquire.timeout);
  }

  lemma {:induction false} RunUndisturbed(s: State, steps: seq<Step>, key: string, token: Token)
    requires Legal(steps) && Live(s, key, token) && s.now + Elapsed(steps) < s.leases[key].expiry
    requires forall i :: 0 <= i < |steps| ==> !By(steps[i], key, token)
    ensures Live(Run(s, steps), key, token)
    decreases |steps|
  {
    if steps != [] {
      Undisturbed(s, steps[0], key, token);
      RunUndisturbed(Apply(s, steps[0]), steps[1..], key, token);
    }
  }

  /** A holder that does nothing holds the lock exactly as long as the lease was granted for. */
  lemma HeldExactly(s: State, acquire: Step, steps: seq<Step>)
    requires acquire.Acquire? && acquire.timeout > 0 && !Taken(s, acquire.key) && Legal(steps)
    requires forall i :: 0 <= i < |steps| ==> !By(steps[i], acquire.key, s.nextToken)
    ensures Live(Run(Apply(s, acquire), steps), acquire.key, s.nextToken) <==>
            Elapsed(steps) < Leased(acquire.timeout)
  {
    var t := Apply(s, acquire);
    RunEndsBy(t, steps, acquire.key, s.nextToken, s.now + Leased(acquire.timeout));
    if Elapsed(steps) < Leased(acquire.timeout) {
      RunUndisturbed(t, steps, acquire.key, s.nextToken);
    }
  }
}
