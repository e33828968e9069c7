/** Matching replies to calls. Callers, the goroutines that process responses and the
    timeouts interleave; a step is one critical section or one channel operation. */
module PendingCalls {
  import opened Bytes

  type CallId = nat

  datatype Reply = Reply(sequence: nat, error: string, body: seq<byte>)

  /** A call has drawn its number, is in the table of pending calls or was once, or has
      returned with a reply or an error. */
  datatype Phase = Numbered | Registered | Returned(reply: Option<Reply>)

  /** `response` is the channel with room for one reply, `sends` and `refused` count the
      sends that found room and those that did not, `closes` the closes of Done. */
  datatype Call = Call(sequence: nat, phase: Phase, response: Option<Reply>, sends: nat, refused: nat, closes: nat)

  /** A processing goroutine that took a call out of the table. */
  datatype Courier = Courier(call: CallId, reply: Reply, sent: bool)

  datatype State = State(seqno: nat, pending: map<nat, CallId>, calls: map<CallId, Call>, couriers: map<nat, Courier>,
                         nextCourier: nat)

  datatype Step =
    | Begin(call: CallId)                // the atomic increment at the start of Call
    | Register(call: CallId)
    | GiveUp(call: CallId)               // an error, a cancelled context or the timeout
    | Receive(reply: Reply)              // processResponse, looking up the call
    | Send(courier: nat)
    | Close(courier: nat)
    | Take(call: CallId)                 // the waiting Call receives and returns

  predicate Enabled(s: State, step: Step)
  {
    match step
    case Begin(c) => c !in s.calls
    case Register(c) => c in s.calls && s.calls[c].phase == Numbered
    case GiveUp(c) => c in s.calls && s.calls[c].phase == Registered
    case Receive(reply) => true
    case Send(k) => k in s.couriers && !s.couriers[k].sent && s.couriers[k].call in s.calls
    case Close(k) => k in s.couriers && s.couriers[k].sent && s.couriers[k].call in s.calls
    case Take(c) => c in s.calls && s.calls[c].phase == Registered && s.calls[c].response.Some?
  }

  function Offer(c: Call, reply: Reply): (d: Call)
  {
    if c.response.None? then c.(response := Some(reply), sends := c.sends + 1) else c.(refused := c.refused + 1)
  }

  function Apply(s: State, step: Step): (t: State)
    requires Enabled(s, step)
  {
    match step
    case Begin(c) => s.(seqno := s.seqno + 1, calls := s.calls[c := Call(s.seqno + 1, Numbered, None, 0, 0, 0)])
    case Register(c) =>
      s.(pending := s.pending[s.calls[c].sequence := c], calls := s.calls[c := s.calls[c].(phase := Registered)])
    case GiveUp(c) =>
      s.(pending := s.pending - {s.calls[c].sequence}, calls := s.calls[c := s.calls[c].(phase := Returned(None))])
    case Receive(reply) =>
      if reply.sequence !in s.pending then s
      else s.(pending := s.pending - {reply.sequence},
              couriers := s.couriers[s.nextCourier := Courier(s.pending[reply.sequence], reply, false)],
              nextCourier := s.nextCourier + 1)
    case Send(k) =>
      var courier := s.couriers[k];
      s.(calls := s.calls[courier.call := Offer(s.calls[courier.call], courier.reply)],
         couriers := s.couriers[k := courier.(sent := true)])
    case Close(k) =>
      var c := s.couriers[k].call;
      s.(calls := s.calls[c := s.calls[c].(closes := s.calls[c].closes + 1)], couriers := s.couriers - {k})
    case Take(c) =>
      s.(calls := s.calls[c := s.calls[c].(phase := Returned(s.calls[c].response), response := None)])
  }

  /******* What every step keeps *******/

  /** No two calls have one number, and none has a number still to be drawn. */
  ghost predicate Unique(s: State)
  {
    && (forall c :: c in s.calls ==> s.calls[c].sequence <= s.seqno)
    && (forall c, d :: c in s.calls && d in s.calls && s.calls[c].sequence == s.calls[d].sequence ==> c == d)
  }

  /** A pending call is registered and has had no reply. */
  predicate Awaits(s: State, n: nat, c: CallId)
  {
    && c in s.calls
    && s.calls[c].sequence == n && s.calls[c].phase == Registered
    && s.calls[c].response.None? && s.calls[c].sends == 0 && s.calls[c].closes == 0
  }

  ghost predicate Waiting(s: State)
  {
    forall n :: n in s.pending ==> Awaits(s, n, s.pending[n])
  }

  /** Nobody carries a reply to a call that is pending. */
  ghost predicate Expecting(s: State)
  {
    forall n, k :: n in s.pending && k in s.couriers ==> s.couriers[k].call != s.pending[n]
  }

  /** A courier carries the reply to the call with its number, and finds the channel
      empty and Done open. */
  predicate OnTheWay(s: State, courier: Courier)
  {
    && courier.call in s.calls
    && var c := s.calls[courier.call];
       && c.sequence == courier.reply.sequence && c.phase != Numbered && c.closes == 0
       && c.sends == (if courier.sent then 1 else 0)
       && (!courier.sent ==> c.response.None?)
  }

  ghost predicate Carried(s: State)
  {
    forall k :: k in s.couriers ==> k < s.nextCourier && OnTheWay(s, s.couriers[k])
  }

  /** No two couriers go to one call. */
  ghost predicate Apart(s: State)
  {
    forall k, l :: k in s.couriers && l in s.couriers && s.couriers[k].call == s.couriers[l].call ==> k == l
  }

  /** A call gets at most one reply, its own; Done is closed at most once; a call that is
      only numbered has nothing yet. */
  predicate Fine(c: Call)
  {
    && c.sends <= 1 && c.closes <= c.sends && c.refused == 0
    && (c.response.Some? ==> c.response.value.sequence == c.sequence && c.sends == 1)
    && (c.phase.Returned? && c.phase.reply.Some? ==> c.phase.reply.value.sequence == c.sequence && c.sends == 1)
    && (c.phase == Numbered ==> c.response.None? && c.sends == 0 && c.closes == 0)
  }

  ghost predicate Inv(s: State)
  {
    Unique(s) && Waiting(s) && Expecting(s) && Carried(s) && Apart(s) && forall c :: c in s.calls ==> Fine(s.calls[c])
  }

  lemma StepUnique(s: State, step: Step)
    requires Enabled(s, step) && Unique(s)
    ensures Unique(Apply(s, step))
  {
  }

  lemma StepAwaits(s: State, step: Step, n: nat)
    requires Enabled(s, step) && Inv(s) && n in Apply(s, step).pending
    ensures Awaits(Apply(s, step), n, Apply(s, step).pending[n])
  {
    if n in s.pending {
      assert Awaits(s, n, s.pending[n]);
    }
  }

  lemma StepExpecting(s: State, step: Step, n: nat, k: nat)
    requires Enabled(s, step) && Inv(s) && n in Apply(s, step).pending && k in Apply(s, step).couriers
    ensures Apply(s, step).couriers[k].call != Apply(s, step).pending[n]
  {
    if n in s.pending {
      assert Awaits(s, n, s.pending[n]);
    }
    if k in s.couriers {
      assert OnTheWay(s, s.couriers[k]);
    }
  }

  lemma StepWaiting(s: State, step: Step)
    requires Enabled(s, step) && Inv(s)
    ensures Waiting(Apply(s, step)) && Expecting(Apply(s, step))
  {
    var t := Apply(s, step);
    forall n | n in t.pending ensures Awaits(t, n, t.pending[n]) {
      StepAwaits(s, step, n);
    }
    forall n, k | n in t.pending && k in t.couriers ensures t.couriers[k].call != t.pending[n] {
      StepExpecting(s, step, n, k);
    }
  }

  lemma StepOnTheWay(s: State, step: Step, k: nat)
    requires Enabled(s, step) && Inv(s) && k in s.couriers && k in Apply(s, step).couriers
    ensures OnTheWay(Apply(s, step), Apply(s, step).couriers[k])
  {
    assert OnTheWay(s, s.couriers[k]);
  }

  lemma StepCarried(s: State, step: Step)
    requires Enabled(s, step) && Inv(s)
    ensures Carried(Apply(s, step))
  {
    var t := Apply(s, step);
    forall k | k in t.couriers ensures k < t.nextCourier && OnTheWay(t, t.couriers[k]) {
      if k in s.couriers {
        StepOnTheWay(s, step, k);
      }
    }
  }

  lemma StepApart(s: State, step: Step)
    requires Enabled(s, step) && Apart(s) && Expecting(s)
    ensures Apart(Apply(s, step))
  {
  }

  lemma StepFine(s: State, step: Step, c: CallId)
    requires Enabled(s, step) && Inv(s) && c in Apply(s, step).calls
    ensures Fine(Apply(s, step).calls[c])
  {
  }

  lemma StepKeeps(s: State, step: Step)
    requires Enabled(s, step) && Inv(s)
    ensures Inv(Apply(s, step))
  {
    StepUnique(s, step);
    StepWaiting(s, step);
    StepCarried(s, step);
    StepApart(s, step);
    forall c | c in Apply(s, step).calls ensures Fine(Apply(s, step).calls[c]) {
      StepFine(s, step, c);
    }
  }

  ghost predicate Legal(s: State, steps: seq<Step>)
    decreases |steps|
  {
    steps != [] ==> Enabled(s, steps[0]) && Legal(Apply(s, steps[0]), steps[1..])
  }

  ghost function Run(s: State, steps: seq<Step>): (t: State)
    requires Legal(s, steps)
    decreases |steps|
  {
    if steps == [] then s else Run(Apply(s, steps[0]), steps[1..])
  }

  lemma {:induction false} RunKeeps(s: State, steps: seq<Step>)
    requires Legal(s, steps) && Inv(s)
    ensures Inv(Run(s, steps))
    decreases |steps|
  {
    if steps != [] {
      StepKeeps(s, steps[0]);
      RunKeeps(Apply(s, steps[0]), steps[1..]);
    }
  }

  function Idle(): (s: State)
  {
    State(0, map[], map[], map[], 0)
  }

  /** In every run, for every call: what it returns is the reply with its own number; it
      is sent at most one reply, which always finds room; Done is closed at most once;
      and once it has returned its number is not pending. */
  lemma Correlation(steps: seq<Step>, c: CallId)
    requires Legal(Idle(), steps) && c in Run(Idle(), steps).calls
    ensures var call := Run(Idle(), steps).calls[c];
            && (call.phase.Returned? && call.phase.reply.Some? ==> call.phase.reply.value.sequence == call.sequence)
            && call.sends <= 1 && call.refused == 0 && call.closes <= 1
            && (call.phase.Returned? ==> call.sequence !in Run(Idle(), steps).pending)
  {
    RunKeeps(Idle(), steps);
    var s := Run(Idle(), steps);
    assert Fine(s.calls[c]);
  }

  /** A reply on its way to its call: still with its courier, for whom the channel is
      empty; in the channel; or returned by the call. */
  predicate Arriving(s: State, c: CallId, k: nat, reply: Reply)
  {
    && c in s.calls
    && var call := s.calls[c];
       || (call.phase == Registered && call.response.None? && k in s.couriers
           && s.couriers[k] == Courier(c, reply, false))
       || (call.phase == Registered && call.response == Some(reply))
       || call.phase == Returned(Some(reply))
  }

  lemma StepArriving(s: State, step: Step, c: CallId, k: nat, reply: Reply)
    requires Enabled(s, step) && Inv(s) && Arriving(s, c, k, reply) && step != GiveUp(c)
    ensures Arriving(Apply(s, step), c, k, reply)
  {
    assert Fine(s.calls[c]);
    if step.Send? {
      assert OnTheWay(s, s.couriers[step.courier]);
    }
  }

  lemma {:induction false} RunArriving(s: State, steps: seq<Step>, c: CallId, k: nat, reply: Reply)
    requires Legal(s, steps) && Inv(s) && Arriving(s, c, k, reply) && GiveUp(c) !in steps
    ensures Arriving(Run(s, steps), c, k, reply) && Inv(Run(s, steps))
    decreases |steps|
  {
    if steps != [] {
      StepArriving(s, steps[0], c, k, reply);
      StepKeeps(s, steps[0]);
      RunArriving(Apply(s, steps[0]), steps[1..], c, k, reply);
    }
  }

  /** Once a reply was looked up for its call, in every run in which the call does not give
      up: the reply is with its courier, in the channel or returned; the send that is left
      finds room, and what the call then takes and returns is exactly this reply. */
  lemma ReceivedArrives(s: State, reply: Reply, steps: seq<Step>)
    requires Inv(s) && reply.sequence in s.pending
    requires Legal(Apply(s, Receive(reply)), steps) && GiveUp(s.pending[reply.sequence]) !in steps
    ensures var c, k := s.pending[reply.sequence], s.nextCourier;
            var t := Run(Apply(s, Receive(reply)), steps);
            && c in t.calls
            && (t.calls[c].phase != Returned(Some(reply)) ==>
                  if t.calls[c].response.None? then
                    Enabled(t, Send(k)) && Apply(t, Send(k)).calls[c].response == Some(reply)
                  else
                    Enabled(t, Take(c)) && Apply(t, Take(c)).calls[c].phase == Returned(Some(reply)))
  {
    StepKeeps(s, Receive(reply));
    assert Awaits(s, reply.sequence, s.pending[reply.sequence]);
    RunArriving(Apply(s, Receive(reply)), steps, s.pending[reply.sequence], s.nextCourier, reply);
  }

  /** The number of a call that was registered and is no longer pending. */
  predicate Spent(s: State, c: CallId)
  {
    c in s.calls && s.calls[c].phase != Numbered && s.calls[c].sequence !in s.pending
  }

  lemma StepSpent(s: State, step: Step, c: CallId)
    requires Enabled(s, step) && Unique(s) && Spent(s, c)
    ensures Spent(Apply(s, step), c) && Apply(s, step).calls[c].sequence == s.calls[c].sequence
  {
  }

  /** A number never becomes pending again, so a second reply to it finds no call. */
  lemma {:induction false} SpentForGood(s: State, steps: seq<Step>, c: CallId)
    requires Legal(s, steps) && Inv(s) && Spent(s, c)
    ensures s.calls[c].sequence !in Run(s, steps).pending
    ensures forall reply: Reply :: reply.sequence == s.calls[c].sequence ==>
            Apply(Run(s, steps), Receive(reply)) == Run(s, steps)
    decreases |steps|
  {
    if steps != [] {
      StepSpent(s, steps[0], c);
      StepKeeps(s, steps[0]);
      SpentForGood(Apply(s, steps[0]), steps[1..], c);
    }
  }

  /******* The client's methods *******/

  class SimpleCall {
    const sequence: nat
    var response: Option<Reply>
    var done: bool

    constructor (sequence: nat)
      ensures this.sequence == sequence && response == None && !done
    {
      this.sequence := sequence;
      response, done := None, false;
    }

    /** Closing Done a second time would panic. */
    method CloseDone()
      requires !done
      modifies `done
      ensures done
    {
      done := true;
    }
  }

  class SimpleClient {
    var seqno: nat
    var pending: map<nat, SimpleCall>

    constructor ()
      ensures Valid() && seqno == 0 && pending == map[]
    {
      seqno, pending := 0, map[];
    }

    /** Every pending call is under its own number and has had nothing yet. */
    ghost predicate Valid()
      reads this, pending.Values
    {
      forall n :: n in pending ==>
        n <= seqno && pending[n].sequence == n && pending[n].response == None && !pending[n].done
    }

    /** The start of Call, up to its registration. */
    method Open() returns (call: SimpleCall)
      requires Valid()
      modifies this
      ensures Valid() && fresh(call) && seqno == old(seqno) + 1
      ensures call.sequence == seqno && call.sequence !in old(pending)
      ensures pending == old(pending)[call.sequence := call]
    {
      seqno := seqno + 1;
      call := new SimpleCall(seqno);
      pending := pending[seqno := call];
    }

    /** What every failing path of Call does before it returns. */
    method Drop(sequence: nat)
      requires Valid()
      modifies `pending
      ensures Valid() && pending == old(pending) - {sequence}
    {
      pending := pending - {sequence};
    }

    /** A reply goes to the pending call with its number, into an empty channel; one for
        any other number changes nothing. No pending call but that one is touched. */
    method ProcessResponse(reply: Reply) returns (known: bool)
      requires Valid()
      modifies `pending, pending.Values
      ensures Valid()
      ensures known <==> reply.sequence in old(pending)
      ensures pending == old(pending) - {reply.sequence}
      ensures known ==> old(pending)[reply.sequence].response == Some(reply) && old(pending)[reply.sequence].done
      ensures forall n :: n in old(pending) && n != reply.sequence ==> unchanged(old(pending)[n])
    {
      if reply.sequence !in pending {
        assert pending - {reply.sequence} == pending;
        return false;
      }
      var call := pending[reply.sequence];
      pending := pending - {reply.sequence};
      if call.response == None {
        call.response := Some(reply);
      }
      call.CloseDone();
      known := true;
    }
  }
}
