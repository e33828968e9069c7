/** The renewers of one process: one goroutine per acquired lock, a table with one entry
    per key, and a queue of stop requests that name a key, not a token. Asking to stop is
    two steps: what gives the reason (a release that succeeded, a refresh that was refused)
    and the later send to the queue. */
module RenewerRegistry {
  import opened LeaseStore

  /** `running` are the renewers that have not ended, `told` those whose channel is closed,
      `asking` the keys whose stop request is still to be sent, `queue` those sent. */
  datatype Registry = Registry(
    active: map<string, Token>, running: set<(string, Token)>, told: set<(string, Token)>,
    asking: multiset<string>, queue: seq<string>)

  function Empty(): (s: Registry)
  {
    Registry(map[], {}, {}, multiset{}, [])
  }

  datatype Step =
    | Start(key: string, token: Token)     // startAutoRenew, some time after an acquisition
    | Deleted(key: string, token: Token)   // the script of a Release has succeeded
    | Refused(key: string, token: Token)   // a renewer's Refresh is refused; it will ask and end
    | Ask(key: string)                     // stopAutoRenew sends the key
    | Handle                               // handleStopRenewals takes one request
    | End(key: string, token: Token)       // a renewer finds its channel closed

  /** A renewer that was told to stop may still be in a refresh, or pick the tick. */
  predicate Enabled(s: Registry, step: Step)
  {
    match step
    case Start(key, token) => (key, token) !in s.running && (key, token) !in s.told
    case Deleted(key, token) => true
    case Refused(key, token) => (key, token) in s.running
    case Ask(key) => key in s.asking
    case Handle => s.queue != []
    case End(key, token) => (key, token) in s.running && (key, token) in s.told
  }

  function Stop(s: Registry, key: string): (t: Registry)
  {
    if key in s.active then s.(told := s.told + {(key, s.active[key])}, active := s.active - {key}) else s
  }

  function Apply(s: Registry, step: Step): (t: Registry)
    requires Enabled(s, step)
  {
    match step
    case Start(key, token) => s.(active := s.active[key := token], running := s.running + {(key, token)})
    case Deleted(key, token) => s.(asking := s.asking + multiset{key})
    case Refused(key, token) => s.(running := s.running - {(key, token)}, asking := s.asking + multiset{key})
    case Ask(key) => s.(asking := s.asking - multiset{key}, queue := s.queue + [key])
    case Handle => Stop(s, s.queue[0]).(queue := s.queue[1..])
    case End(key, token) => s.(running := s.running - {(key, token)})
  }

  /******* The table *******/

  /** The renewer of an entry of the table runs, or a request to stop the key is on its
      way; and its channel is open, so that closing it does not panic. */
  ghost predicate Known(s: Registry)
  {
    forall key :: key in s.active ==>
      && ((key, s.active[key]) in s.running || key in s.queue || key in s.asking)
      && (key, s.active[key]) !in s.told
  }

  lemma StepKnown(s: Registry, step: Step)
    requires Known(s) && Enabled(s, step)
    ensures Known(Apply(s, step))
  {
    if step.Handle? {
      assert s.queue == [s.queue[0]] + s.queue[1..];
    }
  }

  ghost predicate Legal(s: Registry, steps: seq<Step>)
    decreases |steps|
  {
    steps != [] ==> Enabled(s, steps[0]) && Legal(Apply(s, steps[0]), steps[1..])
  }

  ghost function Run(s: Registry, steps: seq<Step>): (t: Registry)
    requires Legal(s, steps)
    decreases |steps|
  {
    if steps == [] then s else Run(Apply(s, steps[0]), steps[1..])
  }

  /** In every run no entry outlives its renewer unnoticed, and no channel is closed twice. */
  lemma {:induction false} RunKnown(s: Registry, steps: seq<Step>)
    requires Legal(s, steps) && Known(s)
    ensures Known(Run(s, steps))
    decreases |steps|
  {
    if steps != [] {
      StepKnown(s, steps[0]);
      RunKnown(Apply(s, steps[0]), steps[1..]);
    }
  }

  /******* Who stops a renewer *******/

  /** What cannot happen while `token` holds the lock: a release of the key succeeding, or
      the holder's own refresh being refused. Everything decided earlier can still come:
      sends, requests waiting, older renewers, acquisitions whose renewer starts late. */
  predicate Foreign(step: Step, key: string, token: Token)
  {
    match step
    case Start(k, t) => true
    case Deleted(k, t) => k != key
    case Refused(k, t) => k != key || t != token
    case Ask(k) => true
    case Handle => true
    case End(k, t) => true
  }

  ghost predicate ForeignRun(s: Registry, steps: seq<Step>, key: string, token: Token)
  {
    Legal(s, steps) && forall i :: 0 <= i < |steps| ==> Foreign(steps[i], key, token)
  }

  predicate Renewing(s: Registry, key: string, token: Token)
  {
    (key, token) in s.running && (key, token) !in s.told
  }

  /** No other renewer of the key runs, nobody has asked to stop the key, and nobody is
      about to. */
  ghost predicate Alone(s: Registry, key: string, token: Token)
  {
    (forall t :: (key, t) in s.running ==> t == token) && key !in s.queue && key !in s.asking
  }

  /** The table does not lead to the renewer. */
  predicate Unlisted(s: Registry, key: string, token: Token)
  {
    key in s.active ==> s.active[key] != token
  }

  ghost predicate Safe(s: Registry, key: string, token: Token)
  {
    Renewing(s, key, token) && (Alone(s, key, token) || Unlisted(s, key, token))
  }

  lemma StepSafe(s: Registry, step: Step, key: string, token: Token)
    requires Enabled(s, step) && Foreign(step, key, token) && Safe(s, key, token)
    ensures Safe(Apply(s, step), key, token)
  {
    if step.Handle? && !Unlisted(s, key, token) {
      assert s.queue[0] in s.queue;
    }
  }

  lemma {:induction false} RunSafe(s: Registry, steps: seq<Step>, key: string, token: Token)
    requires ForeignRun(s, steps, key, token) && Safe(s, key, token)
    ensures Safe(Run(s, steps), key, token)
    decreases |steps|
  {
    if steps != [] {
      StepSafe(s, steps[0], key, token);
      RunSafe(Apply(s, steps[0]), steps[1..], key, token);
    }
  }

  lemma {:induction false} RunCons(s: Registry, step: Step, rest: seq<Step>, key: string, token: Token)
    requires Enabled(s, step) && Foreign(step, key, token) && ForeignRun(Apply(s, step), rest, key, token)
    ensures ForeignRun(s, [step] + rest, key, token) && Run(s, [step] + rest) == Run(Apply(s, step), rest)
  {
    assert ([step] + rest)[1..] == rest;
  }

  /** The steps that bring a stop about. */
  predicate Stopping(step: Step, key: string, token: Token)
  {
    step.Ask? || step.Handle? || (step.Refused? && step.key == key && step.token != token)
  }

  ghost predicate Stops(s: Registry, steps: seq<Step>, key: string, token: Token)
  {
    && ForeignRun(s, steps, key, token) && (key, token) in Run(s, steps).told
    && forall i :: 0 <= i < |steps| ==> Stopping(steps[i], key, token)
  }

  predicate Listed(s: Registry, key: string, token: Token)
  {
    Renewing(s, key, token) && key in s.active && s.active[key] == token
  }

  /** A queued request for the key stops whatever renewer the table has by then. */
  lemma {:induction false} RequestStops(s: Registry, key: string, token: Token) returns (steps: seq<Step>)
    requires Listed(s, key, token) && key in s.queue
    ensures Stops(s, steps, key, token)
    decreases |s.queue|
  {
    var t := Apply(s, Handle);
    var rest := [];
    if s.queue[0] != key {
      assert key in s.queue[1..];
      rest := RequestStops(t, key, token);
    }
    RunCons(s, Handle, rest, key, token);
    steps := [Handle] + rest;
  }

  lemma {:induction false} AskStops(s: Registry, key: string, token: Token) returns (steps: seq<Step>)
    requires Listed(s, key, token) && key in s.asking
    ensures Stops(s, steps, key, token)
  {
    var t := Apply(s, Ask(key));
    assert t.queue[|s.queue|] == key;
    var rest := RequestStops(t, key, token);
    RunCons(s, Ask(key), rest, key, token);
    steps := [Ask(key)] + rest;
  }

  lemma {:induction false} OlderStops(s: Registry, older: Token, key: string, token: Token) returns (steps: seq<Step>)
    requires Listed(s, key, token) && (key, older) in s.running && older != token
    ensures Stops(s, steps, key, token)
  {
    var t := Apply(s, Refused(key, older));
    assert key in t.asking;
    var rest := AskStops(t, key, token);
    RunCons(s, Refused(key, older), rest, key, token);
    steps := [Refused(key, older)] + rest;
  }

  /** Nothing older of the key is left in the process: no renewer that has not ended, no
      request waiting and no request still to be sent. */
  ghost predicate Clean(s: Registry, key: string)
  {
    (forall older :: (key, older) !in s.running) && key !in s.queue && key !in s.asking
  }

  lemma DirtyStops(s: Registry, key: string, token: Token) returns (steps: seq<Step>)
    requires Enabled(s, Start(key, token)) && !Clean(s, key)
    ensures Stops(Apply(s, Start(key, token)), steps, key, token)
  {
    var t := Apply(s, Start(key, token));
    if key in s.queue {
      steps := RequestStops(t, key, token);
    } else if key in s.asking {
      steps := AskStops(t, key, token);
    } else {
      var older :| (key, older) in s.running;
      steps := OlderStops(t, older, key, token);
    }
  }

  /** A renewer just started goes on until its own lock is released or its own renewal is
      refused, in every run, exactly when the process was clean of the key at its start. */
  lemma KeepsRenewingIff(s: Registry, key: string, token: Token)
    requires Enabled(s, Start(key, token))
    ensures var t := Apply(s, Start(key, token));
            Clean(s, key) <==> forall steps :: ForeignRun(t, steps, key, token) ==> Renewing(Run(t, steps), key, token)
  {
    var t := Apply(s, Start(key, token));
    if Clean(s, key) {
      forall steps | ForeignRun(t, steps, key, token) ensures Renewing(Run(t, steps), key, token) {
        RunSafe(t, steps, key, token);
      }
    } else {
      var steps := DirtyStops(s, key, token);
    }
  }

  /** Releasing a lock and acquiring it again at once is enough: the request of the old
      lock, sent or not, stops the renewer of the new one. */
  lemma ReacquiredTooSoon(key: string, first: Token, second: Token)
    requires first != second
    ensures var s := Apply(Apply(Empty(), Start(key, first)), Deleted(key, first));
            var t := Apply(Apply(s, Start(key, second)), Ask(key));
            var u := Apply(t, Handle);
            !Renewing(u, key, second) && Renewing(u, key, first) && key !in u.active
  {
  }

  /** A release that is slow to ask: the old renewer has been refused, has asked and has
      been stopped, nothing of it runs or waits, and the release still stops the new one. */
  lemma SlowRelease(key: string, first: Token, second: Token)
    requires first != second
    ensures var s := Apply(Apply(Apply(Empty(), Start(key, first)), Deleted(key, first)), Refused(key, first));
            var t := Apply(Apply(s, Ask(key)), Handle);
            && t.running == {} && t.queue == [] && !Clean(t, key)
            && !Renewing(Apply(Apply(Apply(t, Start(key, second)), Ask(key)), Handle), key, second)
  {
  }
}
