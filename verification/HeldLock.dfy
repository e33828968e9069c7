/** A held lock as a whole: the leases with all their clients, the renewers of the holder's
    process, and the holder's own renewals. The process uses one key for both. */
module HeldLock {
  import opened LeaseStore
  import opened RenewalSchedule
  import R = RenewerRegistry

  /** `due` is the holder's next tick; `missed` tells that its previous renewal was missed. */
  datatype World = World(store: State, registry: R.Registry, due: int, missed: bool)

  datatype Event =
    | Outside(command: Step)   // the clock, or a command of anybody with another token
    | Inside(step: R.Step)     // a step of the process's renewers and releases
    | Renewal(ok: bool)        // the holder's refresh taking effect, or failing to

  /** A release asks to stop only after it deleted a live lease, a renewer only after its
      lease was not live. The holder itself does not release. As long as it is not told to
      stop, its renewer ticks in time and does not miss twice in a row. */
  predicate Allowed(p: Plan, w: World, event: Event)
  {
    match event
    case Outside(step) =>
      && Enabled(step) && !By(step, p.key, p.token)
      && (step.Pass? && R.Renewing(w.registry, p.key, p.token) ==> w.store.now + step.time <= w.due + p.delay)
    case Inside(step) =>
      && R.Enabled(w.registry, step)
      && (step.Deleted? ==> Live(w.store, step.key, step.token) && (step.key, step.token) != (p.key, p.token))
      && (step.Refused? ==> !Live(w.store, step.key, step.token))
    case Renewal(ok) =>
      && (p.key, p.token) in w.registry.running && w.due <= w.store.now
      && (if ok then Live(w.store, p.key, p.token) else R.Renewing(w.registry, p.key, p.token) ==> !w.missed)
  }

  function Apply(p: Plan, w: World, event: Event): (v: World)
    requires p.timeout > 0 && Allowed(p, w, event)
  {
    match event
    case Outside(step) => w.(store := LeaseStore.Apply(w.store, step))
    case Inside(step) =>
      World(if step.Deleted? then LeaseStore.Apply(w.store, Release(step.key, step.token)) else w.store,
            R.Apply(w.registry, step), w.due, w.missed)
    case Renewal(ok) => World(Do(p, w.store, Renew(ok)), w.registry, w.due + p.interval, !ok)
  }

  ghost predicate Legal(p: Plan, w: World, events: seq<Event>)
    requires p.timeout > 0
    decreases |events|
  {
    events != [] ==> Allowed(p, w, events[0]) && Legal(p, Apply(p, w, events[0]), events[1..])
  }

  ghost function Run(p: Plan, w: World, events: seq<Event>): (v: World)
    requires p.timeout > 0 && Legal(p, w, events)
    decreases |events|
  {
    if events == [] then w else Run(p, Apply(p, w, events[0]), events[1..])
  }

  ghost predicate Holding(p: Plan, w: World)
  {
    Covered(p, w.store, w.due, w.missed) && R.Safe(w.registry, p.key, p.token)
  }

  /** The lease keeps others from stopping the renewer, the renewer keeps the lease. */
  lemma EventHolds(p: Plan, w: World, event: Event)
    requires Sane(p) && Ample(p) && Allowed(p, w, event) && Holding(p, w)
    ensures Holding(p, Apply(p, w, event))
  {
    match event
    case Outside(step) => MoveCovered(p, w.store, Other(step), w.due, w.missed);
    case Inside(step) =>
      R.StepSafe(w.registry, step, p.key, p.token);
      if step.Deleted? {
        Undisturbed(w.store, Release(step.key, step.token), p.key, p.token);
      }
    case Renewal(ok) => MoveCovered(p, w.store, Renew(ok), w.due, w.missed);
  }

  lemma {:induction false} RunHolds(p: Plan, w: World, events: seq<Event>)
    requires Sane(p) && Ample(p) && Holding(p, w) && Legal(p, w, events)
    ensures Holding(p, Run(p, w, events))
    decreases |events|
  {
    if events != [] {
      EventHolds(p, w, events[0]);
      RunHolds(p, Apply(p, w, events[0]), events[1..]);
    }
  }

  /** The world right after the holder acquired the key and its renewer started. */
  ghost function Acquired(p: Plan, s: State, before: R.Registry): (w: World)
    requires R.Enabled(before, R.Start(p.key, p.token))
  {
    World(s, R.Apply(before, R.Start(p.key, p.token)), s.now + p.interval, false)
  }

  /** A holder whose process was clean of the key, renewing in time, has its lease live and
      its renewer going through every run, until it releases the lock itself. */
  lemma HolderKeeps(p: Plan, s: State, before: R.Registry, events: seq<Event>)
    requires Sane(p) && Ample(p) && JustAcquired(p, s)
    requires R.Enabled(before, R.Start(p.key, p.token)) && R.Clean(before, p.key)
    requires Legal(p, Acquired(p, s, before), events)
    ensures var w := Run(p, Acquired(p, s, before), events);
            Live(w.store, p.key, p.token) && R.Renewing(w.registry, p.key, p.token)
  {
    RunHolds(p, Acquired(p, s, before), events);
  }

  lemma {:induction false} RunCons(p: Plan, w: World, event: Event, rest: seq<Event>)
    requires p.timeout > 0 && Allowed(p, w, event) && Legal(p, Apply(p, w, event), rest)
    ensures Legal(p, w, [event] + rest) && Run(p, w, [event] + rest) == Run(p, Apply(p, w, event), rest)
  {
    assert ([event] + rest)[1..] == rest;
  }

  /** Once its renewer is told to stop, time alone ends the lease. */
  lemma {:induction false} StoppedLoses(p: Plan, w: World, steps: seq<R.Step>) returns (events: seq<Event>)
    requires p.timeout > 0 && Live(w.store, p.key, p.token) && R.Stops(w.registry, steps, p.key, p.token)
    ensures Legal(p, w, events) && !Live(Run(p, w, events).store, p.key, p.token)
    decreases |steps|
  {
    if steps == [] {
      var wait := Outside(Pass(w.store.leases[p.key].expiry - w.store.now));
      RunCons(p, w, wait, []);
      events := [wait] + [];
    } else {
      assert R.Stopping(steps[0], p.key, p.token);
      var rest := StoppedLoses(p, Apply(p, w, Inside(steps[0])), steps[1..]);
      RunCons(p, w, Inside(steps[0]), rest);
      events := [Inside(steps[0])] + rest;
    }
  }

  /** Exactly then: with time enough between the renewals, no run loses the lock if and only
      if nothing older of the key was left in the holder's process. */
  lemma HolderKeepsIff(p: Plan, s: State, before: R.Registry)
    requires Sane(p) && Ample(p) && JustAcquired(p, s) && R.Enabled(before, R.Start(p.key, p.token))
    ensures var w := Acquired(p, s, before);
            R.Clean(before, p.key) <==>
            forall events :: Legal(p, w, events) ==> Live(Run(p, w, events).store, p.key, p.token)
  {
    var w := Acquired(p, s, before);
    if R.Clean(before, p.key) {
      forall events | Legal(p, w, events) ensures Live(Run(p, w, events).store, p.key, p.token) {
        HolderKeeps(p, s, before, events);
      }
    } else {
      var steps := R.DirtyStops(before, p.key, p.token);
      var events := StoppedLoses(p, w, steps);
    }
  }
}
