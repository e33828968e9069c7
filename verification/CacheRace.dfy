/** Reads and writes of one entity that overlap. What is behind the cache is the dirty entry
    over the database row, which flushes do not change. A read that the cache does not answer
    takes its row from behind and writes it into the cache later; a write changes the cache
    first and what is behind it later. Reads of a deleted entity before its flush, and deletes
    that the cache refuses, are in `CacheSync`. */
module CacheRace {
  import opened Bytes
  import opened FlushBatches

  /** `readers` are the reads that have a row for the cache, `writers` the writes that have
      changed the cache only; a write without a row is a delete. */
  datatype State = State(
    cache: Option<Row>, behind: Option<Row>, readers: map<nat, Option<Row>>, writers: map<nat, Option<Row>>)

  datatype Step =
    | Miss(reader: nat)                      // Get has its answer from the dirty table or the database
    | Fill(reader: nat)                      // and writes it into the cache
    | Begin(writer: nat, data: Option<Row>)  // Set or Delete at the cache
    | Enter(writer: nat)                     // and at the dirty table
    | Expire

  /** Whether a read and a write of the entity may overlap, and whether two writes may. */
  datatype Policy = Policy(readInWrite: bool, writeInWrite: bool)

  predicate Enabled(s: State, step: Step)
  {
    match step
    case Miss(k) => k !in s.readers
    case Fill(k) => k in s.readers
    case Begin(w, data) => w !in s.writers
    case Enter(w) => w in s.writers
    case Expire => true
  }

  predicate Permits(p: Policy, s: State, step: Step)
  {
    match step
    case Miss(k) => s.writers != map[] ==> p.readInWrite
    case Begin(w, data) => (s.readers != map[] ==> p.readInWrite) && (s.writers != map[] ==> p.writeInWrite)
    case _ => true
  }

  function Apply(s: State, step: Step): (t: State)
    requires Enabled(s, step)
  {
    match step
    case Miss(k) => s.(readers := s.readers[k := s.behind])
    case Fill(k) => s.(cache := if s.readers[k].Some? then s.readers[k] else s.cache, readers := s.readers - {k})
    case Begin(w, data) => s.(cache := data, writers := s.writers[w := data])
    case Enter(w) => s.(behind := s.writers[w], writers := s.writers - {w})
    case Expire => s.(cache := None)
  }

  ghost predicate Legal(p: Policy, s: State, steps: seq<Step>)
    decreases |steps|
  {
    steps != [] ==> Enabled(s, steps[0]) && Permits(p, s, steps[0]) && Legal(p, Apply(s, steps[0]), steps[1..])
  }

  ghost function Run(p: Policy, s: State, steps: seq<Step>): (t: State)
    requires Legal(p, s, steps)
    decreases |steps|
  {
    if steps == [] then s else Run(p, Apply(s, steps[0]), steps[1..])
  }

  /** The cache has no row or the right one. */
  predicate Coherent(s: State)
  {
    s.cache.Some? ==> s.cache == s.behind
  }

  /** Without a write under way the cache and all rows on their way to it are right; with
      one there is no other, and the cache has no row or the one being written. */
  ghost predicate Inv(s: State)
  {
    if s.writers == map[] then
      Coherent(s) && forall k :: k in s.readers ==> s.readers[k] == s.behind
    else
      && s.readers == map[] && |s.writers| == 1
      && forall w :: w in s.writers ==> s.cache == None || s.cache == s.writers[w]
  }

  const STRICT := Policy(false, false)

  lemma OneWriter(writers: map<nat, Option<Row>>, w: nat)
    requires |writers| == 1 && w in writers
    ensures writers - {w} == map[]
  {
    assert (writers - {w}).Keys == writers.Keys - {w} && |writers.Keys - {w}| == 0;
  }

  lemma FirstWriter(w: nat, data: Option<Row>)
    ensures var writers: map<nat, Option<Row>> := map[]; |writers[w := data]| == 1
  {
    var writers: map<nat, Option<Row>> := map[];
    assert writers[w := data].Keys == {w};
  }

  lemma StepKeeps(s: State, step: Step)
    requires Inv(s) && Enabled(s, step) && Permits(STRICT, s, step)
    ensures Inv(Apply(s, step))
  {
    match step
    case Miss(k) =>
    case Fill(k) =>
    case Begin(w, data) => FirstWriter(w, data);
    case Enter(w) => OneWriter(s.writers, w);
    case Expire =>
  }

  lemma {:induction false} RunKeeps(s: State, steps: seq<Step>)
    requires Inv(s) && Legal(STRICT, s, steps)
    ensures Inv(Run(STRICT, s, steps))
    decreases |steps|
  {
    if steps != [] {
      StepKeeps(s, steps[0]);
      RunKeeps(Apply(s, steps[0]), steps[1..]);
    }
  }

  function Start(behind: Option<Row>): (s: State)
  {
    State(None, behind, map[], map[])
  }

  /** A run from a cold cache that ends with nothing under way and a wrong row cached. */
  ghost predicate GoesWrong(p: Policy, behind: Option<Row>, steps: seq<Step>)
  {
    && Legal(p, Start(behind), steps)
    && var t := Run(p, Start(behind), steps);
       t.readers == map[] && t.writers == map[] && !Coherent(t)
  }

  lemma {:induction false} RunCons(p: Policy, s: State, step: Step, rest: seq<Step>)
    requires Enabled(s, step) && Permits(p, s, step) && Legal(p, Apply(s, step), rest)
    ensures Legal(p, s, [step] + rest) && Run(p, s, [step] + rest) == Run(p, Apply(s, step), rest)
  {
    assert ([step] + rest)[1..] == rest;
  }

  /** Get reads the old row, Set writes a new one, and Get puts the old one over it. */
  lemma StaleFill(p: Policy, earlier: Row, newer: Row) returns (steps: seq<Step>)
    requires p.readInWrite && earlier != newer
    ensures GoesWrong(p, Some(earlier), steps)
  {
    var s := Start(Some(earlier));
    var s1 := Apply(s, Miss(0));
    var s2 := Apply(s1, Begin(0, Some(newer)));
    var s3 := Apply(s2, Enter(0));
    var s4 := Apply(s3, Fill(0));
    assert s3.writers == map[] && s4.readers == map[];
    RunCons(p, s3, Fill(0), []);
    RunCons(p, s2, Enter(0), [Fill(0)] + []);
    RunCons(p, s1, Begin(0, Some(newer)), [Enter(0)] + ([Fill(0)] + []));
    RunCons(p, s, Miss(0), [Begin(0, Some(newer))] + ([Enter(0)] + ([Fill(0)] + [])));
    steps := [Miss(0)] + ([Begin(0, Some(newer))] + ([Enter(0)] + ([Fill(0)] + [])));
  }

  /** Two writes reach the cache in one order and the dirty table in the other. */
  lemma CrossedWrites(p: Policy, one: Row, two: Row) returns (steps: seq<Step>)
    requires p.writeInWrite && one != two
    ensures GoesWrong(p, None, steps)
  {
    var s := Start(None);
    var s1 := Apply(s, Begin(0, Some(one)));
    var s2 := Apply(s1, Begin(1, Some(two)));
    var s3 := Apply(s2, Enter(1));
    var s4 := Apply(s3, Enter(0));
    assert s3.writers == map[0 := Some(one)] && s4.writers == map[];
    RunCons(p, s3, Enter(0), []);
    RunCons(p, s2, Enter(1), [Enter(0)] + []);
    RunCons(p, s1, Begin(1, Some(two)), [Enter(1)] + ([Enter(0)] + []));
    RunCons(p, s, Begin(0, Some(one)), [Begin(1, Some(two))] + ([Enter(1)] + ([Enter(0)] + [])));
    steps := [Begin(0, Some(one))] + ([Begin(1, Some(two))] + ([Enter(1)] + ([Enter(0)] + [])));
  }

  /** The cache is right whenever nothing is under way, in every permitted run, if and only
      if neither a read nor another write of the entity may overlap a write of it. */
  lemma CoherentIffStrict(p: Policy)
    ensures p == STRICT <==> forall behind, steps :: !GoesWrong(p, behind, steps)
  {
    if p == STRICT {
      forall behind, steps ensures !GoesWrong(p, behind, steps) {
        if Legal(STRICT, Start(behind), steps) {
          RunKeeps(Start(behind), steps);
        }
      }
    } else if p.readInWrite {
      var steps := StaleFill(p, "a", "b");
    } else {
      var steps := CrossedWrites(p, "a", "b");
    }
  }
}
