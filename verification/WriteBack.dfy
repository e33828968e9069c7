/** Deferred write-back under concurrency. Writes put entries into the dirty table, any
    number of flushes claim the new ones, store them and take them out again; each step
    is one critical section or one database statement. */
module WriteBack {
  import opened Bytes
  import opened EntityKeys
  import opened FlushBatches

  /** The database: one opaque row per entity. */
  type Table = map<Id, Row>

  function Stored(db: Table, id: Id): (data: Option<Row>)
  {
    if id in db then Some(db[id]) else None
  }

  function Write(db: Table, id: Id, data: Option<Row>): (after: Table)
  {
    if data.Some? then db[id := data.value] else db - {id}
  }

  lemma WriteReads(db: Table, id: Id, data: Option<Row>, other: Id)
    ensures Stored(Write(db, id, data), other) == if other == id then data else Stored(db, other)
  {
  }

  /** A claimed entry on its way to the database, in the batch numbered `batch`. */
  datatype Flying = Flying(entry: Entry, batch: nat, written: bool)

  datatype State = State(
    dirty: map<string, Entry>, db: Table, flying: set<Flying>, nextBatch: nat, nextStamp: nat, claimed: set<nat>)

  function Start(db: Table): (s: State)
  {
    State(map[], db, {}, 0, 0, {})
  }

  /** What a reader should see: the dirty entry over the database row. */
  function Look(dirty: map<string, Entry>, db: Table, id: Id): (data: Option<Row>)
  {
    if DirtyKey(id) in dirty then dirty[DirtyKey(id)].data else Stored(db, id)
  }

  function Mark(e: Entry): (marked: Entry)
  {
    e.(status := Pending)
  }

  function NewKeys(dirty: map<string, Entry>): (keys: set<string>)
  {
    set k | k in dirty && dirty[k].status == New
  }

  function MarkAll(dirty: map<string, Entry>): (marked: map<string, Entry>)
  {
    map k | k in dirty :: Mark(dirty[k])
  }

  function KeyOf(x: Flying): (key: string)
  {
    DirtyKey(x.entry.id)
  }

  function InBatch(flying: set<Flying>, batch: nat): (xs: set<Flying>)
  {
    set x | x in flying && x.batch == batch
  }

  function KeysOf(xs: set<Flying>): (keys: set<string>)
  {
    set x | x in xs :: KeyOf(x)
  }

  datatype Step =
    | Put(id: Id, data: Option<Row>)              // Set or Delete, deferred
    | Claim(assign: map<string, nat>, next: nat)  // the critical section at the start of Flush
    | Store(x: Flying)                            // one row written or deleted
    | Fail(batch: nat)                            // flushBatch gives up
    | Remove(batch: nat)                          // the critical section at the end of flushBatch

  ghost predicate Enabled(s: State, step: Step)
  {
    match step
    case Put(id, data) => true
    case Claim(assign, next) =>
      && assign.Keys == NewKeys(s.dirty) && s.nextBatch <= next
      && forall k :: k in assign ==> s.nextBatch <= assign[k] < next
    case Store(x) => x in s.flying && !x.written
    case Fail(batch) => true
    case Remove(batch) => forall x :: x in InBatch(s.flying, batch) ==> x.written
  }

  function Dirtied(dirty: map<string, Entry>, id: Id, data: Option<Row>, stamp: nat): (after: map<string, Entry>)
  {
    dirty[DirtyKey(id) := Entry(id, data, New, stamp)]
  }

  function Launch(dirty: map<string, Entry>, assign: map<string, nat>): (xs: set<Flying>)
    requires assign.Keys <= dirty.Keys
  {
    set k | k in assign :: Flying(Mark(dirty[k]), assign[k], false)
  }

  function StampsOf(dirty: map<string, Entry>, keys: set<string>): (stamps: set<nat>)
    requires keys <= dirty.Keys
  {
    set k | k in keys :: dirty[k].stamp
  }

  function Apply(s: State, step: Step): (t: State)
    requires Enabled(s, step)
  {
    match step
    case Put(id, data) => s.(dirty := Dirtied(s.dirty, id, data, s.nextStamp), nextStamp := s.nextStamp + 1)
    case Claim(assign, next) =>
      s.(dirty := MarkAll(s.dirty), flying := s.flying + Launch(s.dirty, assign), nextBatch := next,
         claimed := s.claimed + StampsOf(s.dirty, NewKeys(s.dirty)))
    case Store(x) =>
      s.(db := Write(s.db, x.entry.id, x.entry.data), flying := s.flying - {x} + {x.(written := true)})
    case Fail(batch) => s.(flying := s.flying - InBatch(s.flying, batch))
    case Remove(batch) =>
      s.(dirty := s.dirty - KeysOf(InBatch(s.flying, batch)), flying := s.flying - InBatch(s.flying, batch))
  }

  /******* No entry is claimed twice *******/

  ghost predicate Fresh(s: State)
  {
    && (forall k :: k in s.dirty ==> s.dirty[k].stamp < s.nextStamp)
    && (forall k :: k in NewKeys(s.dirty) ==> s.dirty[k].stamp !in s.claimed)
    && (forall n :: n in s.claimed ==> n < s.nextStamp)
  }

  lemma StepFresh(s: State, step: Step)
    requires Enabled(s, step) && Fresh(s)
    ensures Fresh(Apply(s, step)) && s.claimed <= Apply(s, step).claimed
  {
  }

  /******* Flushing is invisible *******/

  ghost predicate Homed(dirty: map<string, Entry>)
  {
    forall k :: k in dirty ==> DirtyKey(dirty[k].id) == k
  }

  ghost predicate Keyed(kinds: set<string>, dirty: map<string, Entry>)
  {
    forall k :: k in dirty ==> DirtyKey(dirty[k].id) == k && dirty[k].id.kind in kinds
  }

  /** What is in flight is still in the table, unchanged, and in flight once; what was
      written is in the database. */
  ghost predicate Backed(s: State)
  {
    && (forall x :: x in s.flying ==> KeyOf(x) in s.dirty && s.dirty[KeyOf(x)] == x.entry && x.entry.status == Pending)
    && (forall x, y :: x in s.flying && y in s.flying && KeyOf(x) == KeyOf(y) ==> x == y)
    && (forall x :: x in s.flying && x.written ==> Stored(s.db, x.entry.id) == x.entry.data)
  }

  /** The condition on writers: none writes an entity whose entry is in flight. */
  ghost predicate Patient(s: State, step: Step)
  {
    step.Put? ==> forall x :: x in s.flying ==> KeyOf(x) != DirtyKey(step.id)
  }

  ghost predicate InKinds(kinds: set<string>, step: Step)
  {
    step.Put? ==> step.id.kind in kinds
  }

  lemma StepKeyed(kinds: set<string>, s: State, step: Step)
    requires Enabled(s, step) && InKinds(kinds, step) && Keyed(kinds, s.dirty)
    ensures Keyed(kinds, Apply(s, step).dirty)
  {
  }

  lemma PutBacked(s: State, id: Id, data: Option<Row>)
    requires Patient(s, Put(id, data)) && Backed(s)
    ensures Backed(Apply(s, Put(id, data)))
  {
  }

  lemma ClaimBacked(kinds: set<string>, s: State, step: Step)
    requires step.Claim? && Enabled(s, step) && Keyed(kinds, s.dirty) && Backed(s)
    ensures Backed(Apply(s, step))
  {
  }

  lemma StoreBacked(s: State, x: Flying)
    requires Enabled(s, Store(x)) && Backed(s)
    ensures Backed(Apply(s, Store(x)))
  {
  }

  lemma EndBacked(s: State, step: Step)
    requires (step.Fail? || step.Remove?) && Enabled(s, step) && Backed(s)
    ensures Backed(Apply(s, step))
  {
  }

  ghost predicate Inv(kinds: set<string>, s: State)
  {
    Keyed(kinds, s.dirty) && Backed(s) && Fresh(s)
  }

  lemma StepKeeps(kinds: set<string>, s: State, step: Step)
    requires Enabled(s, step) && InKinds(kinds, step) && Patient(s, step) && Inv(kinds, s)
    ensures Inv(kinds, Apply(s, step))
  {
    StepKeyed(kinds, s, step);
    StepFresh(s, step);
    match step
    case Put(id, data) => PutBacked(s, id, data);
    case Claim(assign, next) => ClaimBacked(kinds, s, step);
    case Store(x) => StoreBacked(s, x);
    case Fail(batch) => EndBacked(s, step);
    case Remove(batch) => EndBacked(s, step);
  }

  /** The reference: one plain table, written at once. */
  function Model(ref: Table, step: Step): (after: Table)
  {
    match step
    case Put(id, data) => Write(ref, id, data)
    case _ => ref
  }

  /** A reader of the dirty table over the database sees the reference table. */
  ghost predicate Agrees(kinds: set<string>, dirty: map<string, Entry>, db: Table, ref: Table)
  {
    forall id: Id :: (if id.kind in kinds then Look(dirty, db, id) else Stored(db, id)) == Stored(ref, id)
  }

  lemma SameId(kinds: set<string>, a: Id, b: Id)
    requires Separate(kinds) && a.kind in kinds && b.kind in kinds
    ensures DirtyKey(a) == DirtyKey(b) <==> a == b
  {
    KeysTellApartIff(kinds);
  }

  /** A deferred write changes what is seen at its own entity and nowhere else. */
  lemma PutLook(kinds: set<string>, dirty: map<string, Entry>, db: Table, id: Id, data: Option<Row>, stamp: nat,
                other: Id)
    requires Separate(kinds) && id.kind in kinds && other.kind in kinds
    ensures Look(Dirtied(dirty, id, data, stamp), db, other) == if other == id then data else Look(dirty, db, other)
  {
    SameId(kinds, id, other);
  }

  lemma StoreLook(kinds: set<string>, s: State, x: Flying, other: Id)
    requires Separate(kinds) && Inv(kinds, s) && Enabled(s, Store(x)) && other.kind in kinds
    ensures Look(s.dirty, Apply(s, Store(x)).db, other) == Look(s.dirty, s.db, other)
  {
    SameId(kinds, x.entry.id, other);
    WriteReads(s.db, x.entry.id, x.entry.data, other);
  }

  lemma RemoveLook(kinds: set<string>, s: State, batch: nat, other: Id)
    requires Separate(kinds) && Inv(kinds, s) && Enabled(s, Remove(batch)) && other.kind in kinds
    ensures Look(Apply(s, Remove(batch)).dirty, s.db, other) == Look(s.dirty, s.db, other)
  {
    var xs := InBatch(s.flying, batch);
    if DirtyKey(other) in KeysOf(xs) {
      var x :| x in xs && KeyOf(x) == DirtyKey(other);
      SameId(kinds, x.entry.id, other);
    }
  }

  /** Each step does to what is seen exactly what the reference does: flushing nothing. */
  lemma StepAgrees(kinds: set<string>, s: State, step: Step, ref: Table)
    requires Separate(kinds) && Enabled(s, step) && InKinds(kinds, step) && Inv(kinds, s)
    requires Agrees(kinds, s.dirty, s.db, ref)
    ensures Agrees(kinds, Apply(s, step).dirty, Apply(s, step).db, Model(ref, step))
  {
    var t := Apply(s, step);
    forall id: Id
      ensures (if id.kind in kinds then Look(t.dirty, t.db, id) else Stored(t.db, id)) == Stored(Model(ref, step), id)
    {
      assert (if id.kind in kinds then Look(s.dirty, s.db, id) else Stored(s.db, id)) == Stored(ref, id);
      match step
      case Put(w, data) =>
        WriteReads(ref, w, data, id);
        if id.kind in kinds {
          PutLook(kinds, s.dirty, s.db, w, data, s.nextStamp, id);
        }
      case Claim(assign, next) =>
      case Store(x) =>
        if id.kind in kinds {
          StoreLook(kinds, s, x, id);
        } else {
          WriteReads(s.db, x.entry.id, x.entry.data, id);
        }
      case Fail(batch) =>
      case Remove(batch) =>
        if id.kind in kinds {
          RemoveLook(kinds, s, batch, id);
        }
    }
  }

  ghost predicate Legal(kinds: set<string>, s: State, steps: seq<Step>)
    decreases |steps|
  {
    steps != [] ==>
      && Enabled(s, steps[0]) && InKinds(kinds, steps[0]) && Patient(s, steps[0])
      && Legal(kinds, Apply(s, steps[0]), steps[1..])
  }

  ghost function Run(kinds: set<string>, s: State, steps: seq<Step>): (t: State)
    requires Legal(kinds, s, steps)
    decreases |steps|
  {
    if steps == [] then s else Run(kinds, Apply(s, steps[0]), steps[1..])
  }

  function Replay(ref: Table, steps: seq<Step>): (after: Table)
    decreases |steps|
  {
    if steps == [] then ref else Replay(Model(ref, steps[0]), steps[1..])
  }

  lemma {:induction false} RunAgrees(kinds: set<string>, s: State, steps: seq<Step>, ref: Table)
    requires Separate(kinds) && Legal(kinds, s, steps) && Inv(kinds, s) && Agrees(kinds, s.dirty, s.db, ref)
    ensures var t := Run(kinds, s, steps);
            Inv(kinds, t) && Agrees(kinds, t.dirty, t.db, Replay(ref, steps))
    decreases |steps|
  {
    if steps != [] {
      StepAgrees(kinds, s, steps[0], ref);
      StepKeeps(kinds, s, steps[0]);
      RunAgrees(kinds, Apply(s, steps[0]), steps[1..], Model(ref, steps[0]));
    }
  }

  /** Whatever flushes run and fail in between, once nothing is dirty the database is all
      the writes replayed in order. */
  lemma FlushedIsReplay(kinds: set<string>, base: Table, steps: seq<Step>)
    requires Separate(kinds) && Legal(kinds, Start(base), steps) && Run(kinds, Start(base), steps).dirty == map[]
    ensures Run(kinds, Start(base), steps).db == Replay(base, steps)
  {
    RunAgrees(kinds, Start(base), steps, base);
    SameTable(Run(kinds, Start(base), steps).db, Replay(base, steps));
  }

  lemma SameTable(a: Table, b: Table)
    requires forall id :: Stored(a, id) == Stored(b, id)
    ensures a == b
  {
    forall id ensures id in a <==> id in b {
      assert Stored(a, id) == Stored(b, id);
    }
    forall id | id in a ensures a[id] == b[id] {
      assert Stored(a, id) == Stored(b, id);
    }
  }

  /******* Every run, patient or not *******/

  ghost predicate LegalAny(s: State, steps: seq<Step>)
    decreases |steps|
  {
    steps != [] ==> Enabled(s, steps[0]) && LegalAny(Apply(s, steps[0]), steps[1..])
  }

  ghost function RunAny(s: State, steps: seq<Step>): (t: State)
    requires LegalAny(s, steps)
    decreases |steps|
  {
    if steps == [] then s else RunAny(Apply(s, steps[0]), steps[1..])
  }

  lemma {:induction false} RunFresh(s: State, steps: seq<Step>)
    requires LegalAny(s, steps) && Fresh(s)
    ensures Fresh(RunAny(s, steps)) && s.claimed <= RunAny(s, steps).claimed
    decreases |steps|
  {
    if steps != [] {
      StepFresh(s, steps[0]);
      RunFresh(Apply(s, steps[0]), steps[1..]);
    }
  }

  /** Two flushes never claim the same entry, whatever happens between their claims. */
  lemma ClaimsDisjoint(s: State, first: Step, between: seq<Step>)
    requires Fresh(s) && first.Claim? && Enabled(s, first) && LegalAny(Apply(s, first), between)
    ensures var t := RunAny(Apply(s, first), between);
            StampsOf(s.dirty, NewKeys(s.dirty)) !! StampsOf(t.dirty, NewKeys(t.dirty))
  {
    StepFresh(s, first);
    RunFresh(Apply(s, first), between);
  }

  /** A pending entry that is not in flight: its batch failed. */
  ghost predicate Stuck(s: State, key: string)
  {
    key in s.dirty && s.dirty[key].status == Pending && forall x :: x in s.flying ==> KeyOf(x) != key
  }

  lemma StepStuck(s: State, step: Step, key: string)
    requires Enabled(s, step) && Stuck(s, key) && !(step.Put? && DirtyKey(step.id) == key)
    requires Homed(s.dirty)
    ensures Stuck(Apply(s, step), key) && Apply(s, step).dirty[key] == s.dirty[key] && Homed(Apply(s, step).dirty)
  {
  }

  /** No later flush retries it: until its entity is written again the entry stays, and
      the table never becomes empty. */
  lemma {:induction false} NeverRetried(s: State, steps: seq<Step>, key: string)
    requires LegalAny(s, steps) && Stuck(s, key)
    requires forall i :: 0 <= i < |steps| && steps[i].Put? ==> DirtyKey(steps[i].id) != key
    requires Homed(s.dirty)
    ensures key in RunAny(s, steps).dirty && RunAny(s, steps).dirty[key] == s.dirty[key]
    decreases |steps|
  {
    if steps != [] {
      StepStuck(s, steps[0], key);
      NeverRetried(Apply(s, steps[0]), steps[1..], key);
    }
  }

  /******* When a write survives *******/

  /** A run in which nobody writes under this key. */
  ghost predicate Untouched(s: State, steps: seq<Step>, key: string)
  {
    LegalAny(s, steps) && forall i :: 0 <= i < |steps| && steps[i].Put? ==> DirtyKey(steps[i].id) != key
  }

  /** The entity has this value, or will have it: in the table if it is there, in every
      copy in flight, and in the database as soon as one was written or none is left. */
  ghost predicate Settled(s: State, id: Id, data: Option<Row>)
  {
    var k := DirtyKey(id);
    && Homed(s.dirty)
    && (if k in s.dirty then s.dirty[k].id == id && s.dirty[k].data == data else Stored(s.db, id) == data)
    && forall x :: x in s.flying && KeyOf(x) == k ==>
         x.entry.id == id && x.entry.data == data && (x.written ==> Stored(s.db, id) == data)
  }

  lemma StepSettled(s: State, step: Step, id: Id, data: Option<Row>)
    requires Enabled(s, step) && Settled(s, id, data) && !(step.Put? && DirtyKey(step.id) == DirtyKey(id))
    ensures Settled(Apply(s, step), id, data)
  {
    if step.Store? {
      WriteReads(s.db, step.x.entry.id, step.x.entry.data, id);
    }
  }

  lemma {:induction false} RunSettled(s: State, steps: seq<Step>, id: Id, data: Option<Row>)
    requires Untouched(s, steps, DirtyKey(id)) && Settled(s, id, data)
    ensures Settled(RunAny(s, steps), id, data)
    decreases |steps|
  {
    if steps != [] {
      StepSettled(s, steps[0], id, data);
      RunSettled(Apply(s, steps[0]), steps[1..], id, data);
    }
  }

  lemma {:induction false} RunCons(s: State, step: Step, rest: seq<Step>, key: string)
    requires Enabled(s, step) && Untouched(Apply(s, step), rest, key) && !step.Put?
    ensures Untouched(s, [step] + rest, key) && RunAny(s, [step] + rest) == RunAny(Apply(s, step), rest)
  {
    assert ([step] + rest)[1..] == rest;
  }

  function Unwritten(s: State, batch: nat): (xs: set<Flying>)
  {
    set x | x in s.flying && x.batch == batch && !x.written
  }

  /** A copy in flight, the only one of its entity. */
  ghost predicate Carries(s: State, x: Flying, id: Id)
  {
    && x in s.flying && x.entry.id == id && (x.written ==> Stored(s.db, id) == x.entry.data)
    && forall y, z :: y in s.flying && z in s.flying && KeyOf(y) == KeyOf(z) ==> y == z
  }

  function Done(y: Flying): (z: Flying)
  {
    y.(written := true)
  }

  lemma StoreCarries(s: State, x: Flying, y: Flying, id: Id)
    requires Carries(s, x, id) && Enabled(s, Store(y))
    ensures Carries(Apply(s, Store(y)), if y == x then Done(x) else x, id)
  {
    WriteReads(s.db, y.entry.id, y.entry.data, id);
  }

  lemma StoreLess(s: State, y: Flying)
    requires Enabled(s, Store(y))
    ensures |Unwritten(Apply(s, Store(y)), y.batch)| < |Unwritten(s, y.batch)|
  {
    assert Unwritten(Apply(s, Store(y)), y.batch) == Unwritten(s, y.batch) - {y};
  }

  /** Its batch can be stored and taken out, and with it whatever the table has by then. */
  lemma {:induction false} CarriedWins(s: State, x: Flying, id: Id) returns (steps: seq<Step>)
    requires Carries(s, x, id)
    ensures Untouched(s, steps, DirtyKey(id))
    ensures var t := RunAny(s, steps); Look(t.dirty, t.db, id) == x.entry.data
    decreases |Unwritten(s, x.batch)|
  {
    if Unwritten(s, x.batch) == {} {
      forall y | y in InBatch(s.flying, x.batch) ensures y.written {
        assert y !in Unwritten(s, x.batch);
      }
      assert x in InBatch(s.flying, x.batch) && KeyOf(x) in KeysOf(InBatch(s.flying, x.batch));
      RunCons(s, Remove(x.batch), [], DirtyKey(id));
      steps := [Remove(x.batch)] + [];
    } else {
      var y :| y in Unwritten(s, x.batch);
      StoreCarries(s, x, y, id);
      StoreLess(s, y);
      var rest := CarriedWins(Apply(s, Store(y)), if y == x then Done(x) else x, id);
      RunCons(s, Store(y), rest, DirtyKey(id));
      steps := [Store(y)] + rest;
    }
  }

  /** The condition a writer can check: a copy of the entity in flight, if there is one,
      says the same. */
  ghost predicate Agreeable(s: State, id: Id, data: Option<Row>)
  {
    forall x :: x in s.flying && KeyOf(x) == DirtyKey(id) ==> x.entry.data == data
  }

  /** A deferred write stays visible through every run of flushes and of other writes
      exactly when no other value of its entity is in flight when it is made. */
  lemma WriteSurvivesIff(kinds: set<string>, s: State, id: Id, data: Option<Row>)
    requires Separate(kinds) && Inv(kinds, s) && id.kind in kinds
    ensures var t := Apply(s, Put(id, data));
            Agreeable(s, id, data) <==>
            forall steps :: Untouched(t, steps, DirtyKey(id)) ==>
              Look(RunAny(t, steps).dirty, RunAny(t, steps).db, id) == data
  {
    var t := Apply(s, Put(id, data));
    forall x | x in s.flying && KeyOf(x) == DirtyKey(id) ensures x.entry.id == id {
      SameId(kinds, x.entry.id, id);
    }
    if Agreeable(s, id, data) {
      forall steps | Untouched(t, steps, DirtyKey(id))
        ensures Look(RunAny(t, steps).dirty, RunAny(t, steps).db, id) == data
      {
        RunSettled(t, steps, id, data);
      }
    } else {
      var x :| x in s.flying && KeyOf(x) == DirtyKey(id) && x.entry.data != data;
      var steps := CarriedWins(t, x, id);
    }
  }

  lemma LaunchOne(dirty: map<string, Entry>, key: string, batch: nat)
    requires key in dirty
    ensures Launch(dirty, map[key := batch]) == {Flying(Mark(dirty[key]), batch, false)}
  {
    var assign := map[key := batch];
    assert key in assign;
    assert Flying(Mark(dirty[key]), assign[key], false) in Launch(dirty, assign);
  }

  /** A write that lands between the claim of its entity and the removal is lost. */
  lemma LostUpdate(id: Id, first: Row, newer: Row) returns (steps: seq<Step>)
    requires first != newer
    ensures var claim := Claim(map[DirtyKey(id) := 0], 1);
            var s := Apply(Start(map[]), Put(id, Some(first)));
            && Enabled(s, claim)
            && var t := Apply(Apply(s, claim), Put(id, Some(newer)));
               Untouched(t, steps, DirtyKey(id)) && Look(RunAny(t, steps).dirty, RunAny(t, steps).db, id) == Some(first)
  {
    var claim := Claim(map[DirtyKey(id) := 0], 1);
    var s := Apply(Start(map[]), Put(id, Some(first)));
    assert Enabled(s, claim);
    LaunchOne(s.dirty, DirtyKey(id), 0);
    var x := Flying(Mark(s.dirty[DirtyKey(id)]), 0, false);
    assert Apply(s, claim).flying == {x};
    steps := CarriedWins(Apply(Apply(s, claim), Put(id, Some(newer))), x, id);
  }
}
