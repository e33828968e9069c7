/** The synchroniser as its callers see it: a cache in front, dirty entries behind it,
    the database behind those. */
module CacheSync {
  import opened Bytes
  import opened Counting
  import opened EntityKeys
  import opened FlushBatches
  import opened WriteBack

  datatype Layers = Layers(cache: map<string, Row>, dirty: map<string, Entry>, db: Table, nextStamp: nat)

  function View(s: Layers, id: Id): (data: Option<Row>)
  {
    Look(s.dirty, s.db, id)
  }

  /******* Writes *******/

  function SetDeferred(s: Layers, id: Id, row: Row): (t: Layers)
  {
    Layers(s.cache[CacheKey(id) := row], Dirtied(s.dirty, id, Some(row), s.nextStamp), s.db, s.nextStamp + 1)
  }

  function SetImmediate(s: Layers, id: Id, row: Row): (t: Layers)
  {
    s.(cache := s.cache[CacheKey(id) := row], db := Write(s.db, id, Some(row)))
  }

  /** `dropped` tells whether the cache did drop the row: Delete ignores that it did not. */
  function DeleteDeferred(s: Layers, id: Id, dropped: bool): (t: Layers)
  {
    Layers(if dropped then s.cache - {CacheKey(id)} else s.cache,
           Dirtied(s.dirty, id, None, s.nextStamp), s.db, s.nextStamp + 1)
  }

  /******* Reads *******/

  /** `readable` tells whether the cache can be asked: an error counts as a miss. */
  function Answer(s: Layers, id: Id, readable: bool): (data: Option<Row>)
  {
    if readable && CacheKey(id) in s.cache then Some(s.cache[CacheKey(id)])
    else if DirtyKey(id) in s.dirty && s.dirty[DirtyKey(id)].data.Some? then s.dirty[DirtyKey(id)].data
    else Stored(s.db, id)
  }

  /** Get leaves what it found in the cache, unless it found it there; that the cache
      refuses it, when it is not `writable`, is ignored. */
  function AfterRead(s: Layers, id: Id, readable: bool, writable: bool): (t: Layers)
  {
    if !(readable && CacheKey(id) in s.cache) && Answer(s, id, readable).Some? && writable then
      s.(cache := s.cache[CacheKey(id) := Answer(s, id, readable).value])
    else s
  }

  function Evict(s: Layers, keys: set<string>): (t: Layers)
  {
    s.(cache := s.cache - keys)
  }

  /******* Flushes *******/

  /** The row of `id` after the entries under `keys` were stored. */
  function Resulting(db: Table, dirty: map<string, Entry>, keys: set<string>, id: Id): (data: Option<Row>)
  {
    var k := DirtyKey(id);
    if k in keys && k in dirty && dirty[k].id == id then dirty[k].data else Stored(db, id)
  }

  function StoreKeys(db: Table, dirty: map<string, Entry>, keys: set<string>): (after: Table)
  {
    map id | id in db.Keys + (set k | k in dirty && k in keys :: dirty[k].id) && Resulting(db, dirty, keys, id).Some? ::
      Resulting(db, dirty, keys, id).value
  }

  lemma StoreKeysReads(db: Table, dirty: map<string, Entry>, keys: set<string>, id: Id)
    ensures Stored(StoreKeys(db, dirty, keys), id) == Resulting(db, dirty, keys, id)
  {
    var k := DirtyKey(id);
    if k in keys && k in dirty && dirty[k].id == id {
      assert id in set k | k in dirty && k in keys :: dirty[k].id;
    }
  }

  /** One whole Flush: every new entry is claimed; `stored` reached the database, and
      `removed` are those whose batch succeeded. */
  function Flushed(s: Layers, stored: set<string>, removed: set<string>): (t: Layers)
  {
    s.(dirty := MarkAll(s.dirty) - removed, db := StoreKeys(s.db, s.dirty, stored))
  }

  ghost predicate Outcome(s: Layers, stored: set<string>, removed: set<string>)
  {
    removed <= stored <= NewKeys(s.dirty)
  }

  lemma FlushInvisible(kinds: set<string>, s: Layers, stored: set<string>, removed: set<string>, id: Id)
    requires Separate(kinds) && Keyed(kinds, s.dirty) && id.kind in kinds && Outcome(s, stored, removed)
    ensures View(Flushed(s, stored, removed), id) == View(s, id)
  {
    StoreKeysReads(s.db, s.dirty, stored, id);
    if DirtyKey(id) in s.dirty {
      SameId(kinds, s.dirty[DirtyKey(id)].id, id);
    }
  }

  /** After a flush nothing is dirty exactly when every batch succeeded and no earlier
      flush had left an entry pending. */
  lemma FlushEmptiesIff(s: Layers, stored: set<string>, removed: set<string>)
    requires Outcome(s, stored, removed)
    ensures Flushed(s, stored, removed).dirty == map[] <==>
            removed == NewKeys(s.dirty) && NewKeys(s.dirty) == s.dirty.Keys
  {
    var t := Flushed(s, stored, removed);
    assert t.dirty.Keys == s.dirty.Keys - removed;
    assert t.dirty == map[] <==> t.dirty.Keys == {};
    if t.dirty.Keys == {} {
      forall k | k in s.dirty ensures k in removed {
        assert k !in s.dirty.Keys - removed;
      }
    }
  }

  /** After any patient concurrent run, a last flush that finds no entry left pending and
      succeeds leaves the database equal to all the writes replayed in order. */
  lemma LastFlush(kinds: set<string>, base: Table, steps: seq<Step>)
    requires Separate(kinds) && WriteBack.Legal(kinds, Start(base), steps)
    requires var t := WriteBack.Run(kinds, Start(base), steps); NewKeys(t.dirty) == t.dirty.Keys
    ensures var t := WriteBack.Run(kinds, Start(base), steps);
            var s := Flushed(Layers(map[], t.dirty, t.db, t.nextStamp), t.dirty.Keys, t.dirty.Keys);
            s.dirty == map[] && s.db == WriteBack.Replay(base, steps)
  {
    var t, ref := WriteBack.Run(kinds, Start(base), steps), WriteBack.Replay(base, steps);
    RunAgrees(kinds, Start(base), steps, base);
    FlushEmptiesIff(Layers(map[], t.dirty, t.db, t.nextStamp), t.dirty.Keys, t.dirty.Keys);
    AllStored(kinds, t.dirty, t.db, ref);
  }

  lemma AllStored(kinds: set<string>, dirty: map<string, Entry>, db: Table, ref: Table)
    requires Separate(kinds) && Keyed(kinds, dirty) && Agrees(kinds, dirty, db, ref)
    ensures StoreKeys(db, dirty, dirty.Keys) == ref
  {
    forall id ensures Stored(StoreKeys(db, dirty, dirty.Keys), id) == Stored(ref, id) {
      StoreKeysReads(db, dirty, dirty.Keys, id);
      assert (if id.kind in kinds then Look(dirty, db, id) else Stored(db, id)) == Stored(ref, id);
      if id.kind in kinds && DirtyKey(id) in dirty {
        SameId(kinds, dirty[DirtyKey(id)].id, id);
      }
    }
    SameTable(StoreKeys(db, dirty, dirty.Keys), ref);
  }

  /******* Coherence *******/

  ghost predicate Coherent(kinds: set<string>, s: Layers)
  {
    forall id: Id :: id.kind in kinds && CacheKey(id) in s.cache ==> View(s, id) == Some(s.cache[CacheKey(id)])
  }

  /** The read that goes wrong: not answered by the cache, deleted, and the row still in the
      database. */
  predicate StaleRead(s: Layers, id: Id, readable: bool)
  {
    && !(readable && CacheKey(id) in s.cache)
    && DirtyKey(id) in s.dirty && s.dirty[DirtyKey(id)].data.None?
    && id in s.db
  }

  lemma SameCacheKey(kinds: set<string>, a: Id, b: Id)
    requires Separate(kinds) && a.kind in kinds && b.kind in kinds
    ensures CacheKey(a) == CacheKey(b) <==> a == b
  {
    SameId(kinds, a, b);
    CacheKeySame(a, b);
  }

  /** Get answers what was written last exactly when it is not such a read. */
  lemma ReadIff(kinds: set<string>, s: Layers, id: Id, readable: bool)
    requires id.kind in kinds && Coherent(kinds, s)
    ensures Answer(s, id, readable) == View(s, id) <==> !StaleRead(s, id, readable)
  {
  }

  /** It leaves the cache coherent exactly when it is not such a read, or the cache refuses
      the row. */
  lemma ReadKeepsIff(kinds: set<string>, s: Layers, id: Id, readable: bool, writable: bool)
    requires Separate(kinds) && id.kind in kinds && Coherent(kinds, s)
    ensures Coherent(kinds, AfterRead(s, id, readable, writable)) <==> !(StaleRead(s, id, readable) && writable)
  {
    var t := AfterRead(s, id, readable, writable);
    if !(StaleRead(s, id, readable) && writable) {
      forall x: Id | x.kind in kinds && CacheKey(x) in t.cache ensures View(t, x) == Some(t.cache[CacheKey(x)]) {
        SameCacheKey(kinds, id, x);
      }
    } else {
      assert CacheKey(id) in t.cache && View(t, id) == None;
    }
  }

  lemma SetCoherent(kinds: set<string>, s: Layers, id: Id, row: Row)
    requires Separate(kinds) && id.kind in kinds && Coherent(kinds, s)
    ensures Coherent(kinds, SetDeferred(s, id, row))
  {
    var t := SetDeferred(s, id, row);
    forall x: Id | x.kind in kinds && CacheKey(x) in t.cache ensures View(t, x) == Some(t.cache[CacheKey(x)]) {
      SameCacheKey(kinds, id, x);
      PutLook(kinds, s.dirty, s.db, id, Some(row), s.nextStamp, x);
    }
  }

  /** A deferred delete keeps the cache coherent exactly when the cache dropped the row,
      or had none. */
  lemma DeleteCoherentIff(kinds: set<string>, s: Layers, id: Id, dropped: bool)
    requires Separate(kinds) && id.kind in kinds && Coherent(kinds, s)
    ensures Coherent(kinds, DeleteDeferred(s, id, dropped)) <==> dropped || CacheKey(id) !in s.cache
  {
    var t := DeleteDeferred(s, id, dropped);
    if dropped || CacheKey(id) !in s.cache {
      forall x: Id | x.kind in kinds && CacheKey(x) in t.cache ensures View(t, x) == Some(t.cache[CacheKey(x)]) {
        SameCacheKey(kinds, id, x);
        PutLook(kinds, s.dirty, s.db, id, None, s.nextStamp, x);
      }
    } else {
      assert CacheKey(id) in t.cache && View(t, id) == None;
    }
  }

  lemma FlushCoherent(kinds: set<string>, s: Layers, stored: set<string>, removed: set<string>)
    requires Separate(kinds) && Keyed(kinds, s.dirty) && Outcome(s, stored, removed) && Coherent(kinds, s)
    ensures Coherent(kinds, Flushed(s, stored, removed))
  {
    forall id: Id | id.kind in kinds ensures View(Flushed(s, stored, removed), id) == View(s, id) {
      FlushInvisible(kinds, s, stored, removed, id);
    }
  }

  /******* Immediate writes *******/

  /** An immediate write takes effect exactly when no older dirty entry says otherwise. */
  lemma ImmediateIff(kinds: set<string>, s: Layers, id: Id, row: Row)
    requires Separate(kinds) && id.kind in kinds
    ensures View(SetImmediate(s, id, row), id) == Some(row)
            <==> DirtyKey(id) !in s.dirty || s.dirty[DirtyKey(id)].data == Some(row)
    ensures forall x: Id :: x.kind in kinds && x != id ==> View(SetImmediate(s, id, row), x) == View(s, x)
  {
    forall x: Id | x.kind in kinds && x != id ensures View(SetImmediate(s, id, row), x) == View(s, x) {
      WriteReads(s.db, id, Some(row), x);
    }
  }

  /** The cache stays coherent under the same condition. */
  lemma ImmediateCoherentIff(kinds: set<string>, s: Layers, id: Id, row: Row)
    requires Separate(kinds) && id.kind in kinds && Coherent(kinds, s)
    ensures Coherent(kinds, SetImmediate(s, id, row)) <==>
            DirtyKey(id) !in s.dirty || s.dirty[DirtyKey(id)].data == Some(row)
  {
    var t := SetImmediate(s, id, row);
    ImmediateIff(kinds, s, id, row);
    if View(t, id) == Some(row) {
      forall x: Id | x.kind in kinds && CacheKey(x) in t.cache ensures View(t, x) == Some(t.cache[CacheKey(x)]) {
        SameCacheKey(kinds, id, x);
      }
    } else {
      assert CacheKey(id) in t.cache;
    }
  }

  /** The older entry comes back: the next flush puts it over the row. */
  lemma ImmediateUndone(s: Layers, id: Id, row: Row, stored: set<string>, removed: set<string>)
    requires DirtyKey(id) in NewKeys(s.dirty) && s.dirty[DirtyKey(id)].id == id
    requires Outcome(SetImmediate(s, id, row), stored, removed) && DirtyKey(id) in stored
    ensures Stored(Flushed(SetImmediate(s, id, row), stored, removed).db, id) == s.dirty[DirtyKey(id)].data
  {
    StoreKeysReads(SetImmediate(s, id, row).db, s.dirty, stored, id);
  }

  /******* Sequential runs *******/

  datatype Call =
    | CallSet(id: Id, row: Row)
    | CallDelete(id: Id, dropped: bool)
    | CallGet(id: Id, readable: bool, writable: bool)
    | Expire(keys: set<string>)
    | CallFlush(stored: set<string>, removed: set<string>)

  function Apply(s: Layers, call: Call): (t: Layers)
  {
    match call
    case CallSet(id, row) => SetDeferred(s, id, row)
    case CallDelete(id, dropped) => DeleteDeferred(s, id, dropped)
    case CallGet(id, readable, writable) => AfterRead(s, id, readable, writable)
    case Expire(keys) => Evict(s, keys)
    case CallFlush(stored, removed) => Flushed(s, stored, removed)
  }

  function Model(ref: Table, call: Call): (after: Table)
  {
    match call
    case CallSet(id, row) => Write(ref, id, Some(row))
    case CallDelete(id, dropped) => Write(ref, id, None)
    case _ => ref
  }

  /** The conditions: a delete reaches the cache, and no row is read into the cache while it
      is deleted but not flushed. */
  ghost predicate Allowed(kinds: set<string>, s: Layers, call: Call)
  {
    match call
    case CallSet(id, row) => id.kind in kinds
    case CallDelete(id, dropped) => id.kind in kinds && (dropped || CacheKey(id) !in s.cache)
    case CallGet(id, readable, writable) => id.kind in kinds && !(StaleRead(s, id, readable) && writable)
    case Expire(keys) => true
    case CallFlush(stored, removed) => Outcome(s, stored, removed)
  }

  ghost predicate Inv(kinds: set<string>, s: Layers, ref: Table)
  {
    && Keyed(kinds, s.dirty)
    && Coherent(kinds, s)
    && forall id: Id :: id.kind in kinds ==> View(s, id) == Stored(ref, id)
  }

  lemma CallKeeps(kinds: set<string>, s: Layers, call: Call, ref: Table)
    requires Separate(kinds) && Allowed(kinds, s, call) && Inv(kinds, s, ref)
    ensures Inv(kinds, Apply(s, call), Model(ref, call))
  {
    CallCoherent(kinds, s, call);
    forall id: Id | id.kind in kinds ensures View(Apply(s, call), id) == Stored(Model(ref, call), id) {
      CallView(kinds, s, call, ref, id);
    }
  }

  lemma CallCoherent(kinds: set<string>, s: Layers, call: Call)
    requires Separate(kinds) && Allowed(kinds, s, call) && Keyed(kinds, s.dirty) && Coherent(kinds, s)
    ensures Coherent(kinds, Apply(s, call)) && Keyed(kinds, Apply(s, call).dirty)
  {
    match call
    case CallSet(id, row) => SetCoherent(kinds, s, id, row);
    case CallDelete(id, dropped) => DeleteCoherentIff(kinds, s, id, dropped);
    case CallGet(id, readable, writable) => ReadKeepsIff(kinds, s, id, readable, writable);
    case Expire(keys) =>
    case CallFlush(stored, removed) => FlushCoherent(kinds, s, stored, removed);
  }

  lemma CallView(kinds: set<string>, s: Layers, call: Call, ref: Table, x: Id)
    requires Separate(kinds) && Allowed(kinds, s, call) && Keyed(kinds, s.dirty)
    requires x.kind in kinds && View(s, x) == Stored(ref, x)
    ensures View(Apply(s, call), x) == Stored(Model(ref, call), x)
  {
    match call
    case CallSet(id, row) => PutLook(kinds, s.dirty, s.db, id, Some(row), s.nextStamp, x);
    case CallDelete(id, dropped) => PutLook(kinds, s.dirty, s.db, id, None, s.nextStamp, x);
    case CallGet(id, readable, writable) =>
    case Expire(keys) =>
    case CallFlush(stored, removed) => FlushInvisible(kinds, s, stored, removed, x);
  }

  ghost predicate Legal(kinds: set<string>, s: Layers, calls: seq<Call>)
    decreases |calls|
  {
    calls != [] ==> Allowed(kinds, s, calls[0]) && Legal(kinds, Apply(s, calls[0]), calls[1..])
  }

  function Run(s: Layers, calls: seq<Call>): (t: Layers)
    decreases |calls|
  {
    if calls == [] then s else Run(Apply(s, calls[0]), calls[1..])
  }

  function Replay(ref: Table, calls: seq<Call>): (after: Table)
    decreases |calls|
  {
    if calls == [] then ref else Replay(Model(ref, calls[0]), calls[1..])
  }

  lemma {:induction false} RunKeeps(kinds: set<string>, s: Layers, calls: seq<Call>, ref: Table)
    requires Separate(kinds) && Legal(kinds, s, calls) && Inv(kinds, s, ref)
    ensures Inv(kinds, Run(s, calls), Replay(ref, calls))
    decreases |calls|
  {
    if calls != [] {
      CallKeeps(kinds, s, calls[0], ref);
      RunKeeps(kinds, Apply(s, calls[0]), calls[1..], Model(ref, calls[0]));
    }
  }

  /** After any sequence of deferred writes, reads, evictions and flushes, successful or
      not, Get answers the last value written, unless it reads an unflushed delete. */
  lemma GetAnswersLastWrite(kinds: set<string>, base: Table, calls: seq<Call>, id: Id, readable: bool)
    requires Separate(kinds) && Legal(kinds, Layers(map[], map[], base, 0), calls) && id.kind in kinds
    ensures var s := Run(Layers(map[], map[], base, 0), calls);
            Answer(s, id, readable) == Stored(Replay(base, calls), id) <==> !StaleRead(s, id, readable)
  {
    RunKeeps(kinds, Layers(map[], map[], base, 0), calls, base);
    ReadIff(kinds, Run(Layers(map[], map[], base, 0), calls), id, readable);
  }

  /******* Several entities at once *******/

  /** Writes of one type, in the order of `names`. */
  function DirtiedAll(dirty: map<string, Entry>, kind: string, names: seq<string>, data: map<string, Option<Row>>,
                      stamp: nat)
    : (after: map<string, Entry>)
    requires forall i :: 0 <= i < |names| ==> names[i] in data
  {
    if names == [] then dirty
    else
      var n := |names| - 1;
      Dirtied(DirtiedAll(dirty, kind, names[..n], data, stamp), Id(kind, names[n]), data[names[n]], stamp + n)
  }

  /** SetMulti and DeleteMulti change what is seen at the entities they name, to what
      they say, whatever the order and however often a name occurs. */
  lemma {:induction false} DirtiedAllLook(kinds: set<string>, dirty: map<string, Entry>, db: Table, kind: string,
                                          names: seq<string>,
                                          data: map<string, Option<Row>>, stamp: nat, x: Id)
    requires Separate(kinds) && kind in kinds && x.kind in kinds
    requires forall i :: 0 <= i < |names| ==> names[i] in data
    ensures Look(DirtiedAll(dirty, kind, names, data, stamp), db, x) ==
            if x.kind == kind && x.name in names then data[x.name] else Look(dirty, db, x)
    decreases |names|
  {
    if names != [] {
      var n := |names| - 1;
      DirtiedAllLook(kinds, dirty, db, kind, names[..n], data, stamp, x);
      PutLook(kinds, DirtiedAll(dirty, kind, names[..n], data, stamp), db, Id(kind, names[n]), data[names[n]],
              stamp + n, x);
      assert names == names[..n] + [names[n]];
    }
  }

  function CachedAll(cache: map<string, Row>, kind: string, names: seq<string>,
                     rows: map<string, Row>): (after: map<string, Row>)
    requires forall i :: 0 <= i < |names| ==> names[i] in rows
  {
    if names == [] then cache
    else
      var n := |names| - 1;
      CachedAll(cache, kind, names[..n], rows)[CacheKey(Id(kind, names[n])) := rows[names[n]]]
  }

  lemma SameKindSameKey(kind: string, a: string, b: string)
    ensures CacheKey(Id(kind, a)) == CacheKey(Id(kind, b)) <==> a == b
  {
    CacheKeySame(Id(kind, a), Id(kind, b));
    SameKeyIff(Id(kind, a), Id(kind, b));
  }

  /** Each of the rows is in the cache under its entity's key, and nothing else has changed. */
  lemma {:induction false} CachedAllReads(cache: map<string, Row>, kind: string, names: seq<string>,
                                          rows: map<string, Row>, x: string)
    requires forall i :: 0 <= i < |names| ==> names[i] in rows
    ensures var key, after := CacheKey(Id(kind, x)), CachedAll(cache, kind, names, rows);
            if x in names then key in after && after[key] == rows[x]
            else (key in after <==> key in cache) && (key in cache ==> after[key] == cache[key])
    decreases |names|
  {
    if names != [] {
      var n := |names| - 1;
      CachedAllReads(cache, kind, names[..n], rows, x);
      SameKindSameKey(kind, names[n], x);
      assert names == names[..n] + [names[n]];
    }
  }

  function Changes(rows: map<string, Row>): (data: map<string, Option<Row>>)
  {
    map name | name in rows :: Some(rows[name])
  }

  /** The cache keys of the names, without those that the cache does not drop. */
  function CacheKeys(kind: string, names: seq<string>, stuck: set<string>): (keys: set<string>)
  {
    set i | 0 <= i < |names| && names[i] !in stuck :: CacheKey(Id(kind, names[i]))
  }

  function Deletions(names: seq<string>): (data: map<string, Option<Row>>)
  {
    map name | name in names :: None
  }

  function DeletedMulti(s: Layers, kind: string, names: seq<string>, stuck: set<string>): (t: Layers)
  {
    Layers(s.cache - CacheKeys(kind, names, stuck), DirtiedAll(s.dirty, kind, names, Deletions(names), s.nextStamp),
           s.db, s.nextStamp + |names|)
  }

  /** A deferred delete of several entities keeps the cache coherent exactly when none of
      them stays in the cache. */
  lemma DeleteMultiCoherentIff(kinds: set<string>, s: Layers, kind: string, names: seq<string>, stuck: set<string>)
    requires Separate(kinds) && kind in kinds && Coherent(kinds, s)
    ensures Coherent(kinds, DeletedMulti(s, kind, names, stuck)) <==>
            forall i :: 0 <= i < |names| && names[i] in stuck ==> CacheKey(Id(kind, names[i])) !in s.cache
  {
    var t := DeletedMulti(s, kind, names, stuck);
    forall x: Id | x.kind in kinds
      ensures View(t, x) == if x.kind == kind && x.name in names then None else View(s, x)
    {
      DirtiedAllLook(kinds, s.dirty, s.db, kind, names, Deletions(names), s.nextStamp, x);
    }
    if forall i :: 0 <= i < |names| && names[i] in stuck ==> CacheKey(Id(kind, names[i])) !in s.cache {
      forall x: Id | x.kind in kinds && CacheKey(x) in t.cache ensures View(t, x) == Some(t.cache[CacheKey(x)]) {
        if x.kind == kind && x.name in names {
          NotDropped(s.cache, kind, names, stuck, x);
        }
      }
    } else {
      var i :| 0 <= i < |names| && names[i] in stuck && CacheKey(Id(kind, names[i])) in s.cache;
      StillThere(kinds, s.cache, kind, names, stuck, i);
      assert View(t, Id(kind, names[i])) == None;
    }
  }

  lemma NotDropped(cache: map<string, Row>, kind: string, names: seq<string>, stuck: set<string>, x: Id)
    requires CacheKey(x) in cache - CacheKeys(kind, names, stuck) && x.kind == kind && x.name in names
    ensures exists i :: 0 <= i < |names| && names[i] in stuck && CacheKey(Id(kind, names[i])) in cache
  {
    var i :| 0 <= i < |names| && names[i] == x.name;
    assert x == Id(kind, names[i]);
    KeyDropped(kind, names, stuck, i);
  }

  lemma KeyDropped(kind: string, names: seq<string>, stuck: set<string>, i: nat)
    requires i < |names|
    ensures names[i] in stuck || CacheKey(Id(kind, names[i])) in CacheKeys(kind, names, stuck)
  {
  }

  lemma StillThere(kinds: set<string>, cache: map<string, Row>, kind: string, names: seq<string>, stuck: set<string>,
                   i: nat)
    requires Separate(kinds) && kind in kinds && i < |names| && names[i] in stuck
    requires CacheKey(Id(kind, names[i])) in cache
    ensures CacheKey(Id(kind, names[i])) in cache - CacheKeys(kind, names, stuck)
  {
    forall j | 0 <= j < |names| && names[j] !in stuck
      ensures CacheKey(Id(kind, names[j])) != CacheKey(Id(kind, names[i]))
    {
      SameCacheKey(kinds, Id(kind, names[j]), Id(kind, names[i]));
    }
  }

  /** Rows of one type written at once, in the order of `names`. */
  function WrittenAll(db: Table, kind: string, names: seq<string>, data: map<string, Option<Row>>): (after: Table)
    requires forall i :: 0 <= i < |names| ==> names[i] in data
  {
    if names == [] then db
    else
      var n := |names| - 1;
      Write(WrittenAll(db, kind, names[..n], data), Id(kind, names[n]), data[names[n]])
  }

  lemma {:induction false} WrittenAllReads(db: Table, kind: string, names: seq<string>, data: map<string, Option<Row>>,
                                           x: Id)
    requires forall i :: 0 <= i < |names| ==> names[i] in data
    ensures Stored(WrittenAll(db, kind, names, data), x) ==
            if x.kind == kind && x.name in names then data[x.name] else Stored(db, x)
    decreases |names|
  {
    if names != [] {
      var n := |names| - 1;
      WrittenAllReads(db, kind, names[..n], data, x);
      WriteReads(WrittenAll(db, kind, names[..n], data), Id(kind, names[n]), data[names[n]], x);
      assert names == names[..n] + [names[n]];
    }
  }

  /** Immediate writes of several entities take effect exactly where no older dirty entry
      says otherwise, and nowhere else. */
  lemma ImmediateMultiIff(s: Layers, kind: string, names: seq<string>, data: map<string, Option<Row>>, x: Id)
    requires forall i :: 0 <= i < |names| ==> names[i] in data
    ensures var after := Look(s.dirty, WrittenAll(s.db, kind, names, data), x);
            if x.kind == kind && x.name in names then
              after == data[x.name] <==> DirtyKey(x) !in s.dirty || s.dirty[DirtyKey(x)].data == data[x.name]
            else after == View(s, x)
  {
    WrittenAllReads(s.db, kind, names, data, x);
  }

  /** A write of several entities keeps the cache coherent. */
  lemma {:induction false} SetMultiCoherent(kinds: set<string>, s: Layers, kind: string, names: seq<string>,
                                            rows: map<string, Row>)
    requires Separate(kinds) && kind in kinds && Coherent(kinds, s)
    requires forall i :: 0 <= i < |names| ==> names[i] in rows
    ensures Coherent(kinds, Layers(CachedAll(s.cache, kind, names, rows),
                                   DirtiedAll(s.dirty, kind, names, Changes(rows), s.nextStamp),
                                   s.db, s.nextStamp + |names|))
    decreases |names|
  {
    if names != [] {
      var n := |names| - 1;
      SetMultiCoherent(kinds, s, kind, names[..n], rows);
      SetCoherent(kinds, Layers(CachedAll(s.cache, kind, names[..n], rows),
                                DirtiedAll(s.dirty, kind, names[..n], Changes(rows), s.nextStamp),
                                s.db, s.nextStamp + n),
                  Id(kind, names[n]), rows[names[n]]);
    }
  }

  /******* Storing a batch *******/

  lemma StoreNone(db: Table, dirty: map<string, Entry>)
    ensures StoreKeys(db, dirty, {}) == db
  {
    forall id ensures Stored(StoreKeys(db, dirty, {}), id) == Stored(db, id) {
      StoreKeysReads(db, dirty, {}, id);
    }
    SameTable(StoreKeys(db, dirty, {}), db);
  }

  lemma StoreOneMore(db: Table, dirty: map<string, Entry>, keys: set<string>, key: string)
    requires key in dirty && DirtyKey(dirty[key].id) == key
    ensures Write(StoreKeys(db, dirty, keys), dirty[key].id, dirty[key].data) == StoreKeys(db, dirty, keys + {key})
  {
    var a, b := Write(StoreKeys(db, dirty, keys), dirty[key].id, dirty[key].data), StoreKeys(db, dirty, keys + {key});
    forall id ensures Stored(a, id) == Stored(b, id) {
      StoreKeysReads(db, dirty, keys, id);
      StoreKeysReads(db, dirty, keys + {key}, id);
      WriteReads(StoreKeys(db, dirty, keys), dirty[key].id, dirty[key].data, id);
    }
    SameTable(a, b);
  }

  lemma StoreMore(db: Table, dirty: map<string, Entry>, gone: set<string>, keys: set<string>, more: set<string>)
    requires more !! gone
    ensures StoreKeys(StoreKeys(db, dirty, keys), dirty - gone, more) == StoreKeys(db, dirty, keys + more)
  {
    var mid := StoreKeys(db, dirty, keys);
    var a, b := StoreKeys(mid, dirty - gone, more), StoreKeys(db, dirty, keys + more);
    forall id ensures Stored(a, id) == Stored(b, id) {
      StoreKeysReads(mid, dirty - gone, more, id);
      StoreKeysReads(db, dirty, keys, id);
      StoreKeysReads(db, dirty, keys + more, id);
    }
    SameTable(a, b);
  }

  lemma StoreMarked(db: Table, dirty: map<string, Entry>, keys: set<string>)
    ensures StoreKeys(db, MarkAll(dirty), keys) == StoreKeys(db, dirty, keys)
  {
    var a, b := StoreKeys(db, MarkAll(dirty), keys), StoreKeys(db, dirty, keys);
    forall id ensures Stored(a, id) == Stored(b, id) {
      StoreKeysReads(db, MarkAll(dirty), keys, id);
      StoreKeysReads(db, dirty, keys, id);
    }
    SameTable(a, b);
  }

  /******* The batches of one flush *******/

  /** The entries are those the table holds for their keys. */
  ghost predicate Held(dirty: map<string, Entry>, entries: seq<Entry>)
  {
    forall i :: 0 <= i < |entries| ==> DirtyKey(entries[i].id) in dirty && dirty[DirtyKey(entries[i].id)] == entries[i]
  }

  ghost function EntryKeys(entries: seq<Entry>): (keys: set<string>)
  {
    set i | 0 <= i < |entries| :: DirtyKey(entries[i].id)
  }

  ghost predicate Once(entries: seq<Entry>)
  {
    forall e :: Times(entries, e) <= 1
  }

  lemma {:induction false} FlattenAt(batches: seq<seq<Entry>>, i: nat)
    requires i < |batches|
    ensures Flatten(batches[..i + 1]) == Flatten(batches[..i]) + batches[i]
    ensures Flatten(batches) == Flatten(batches[..i + 1]) + Flatten(batches[i + 1..])
  {
    assert batches[..i + 1] == batches[..i] + [batches[i]];
    FlattenConcat(batches[..i], [batches[i]]);
    assert [batches[i]][1..] == [] && batches[i] + [] == batches[i];
    assert batches == batches[..i + 1] + batches[i + 1..];
    FlattenConcat(batches[..i + 1], batches[i + 1..]);
  }

  /** What comes later in a list without repetitions has other keys. */
  lemma LaterApart(dirty: map<string, Entry>, done: seq<Entry>, next: seq<Entry>, rest: seq<Entry>)
    requires Held(dirty, done + next + rest) && Once(done + next + rest)
    ensures Held(dirty, done) && Held(dirty, next) && EntryKeys(done) !! EntryKeys(next)
  {
    var all := done + next + rest;
    forall i | 0 <= i < |done| ensures DirtyKey(done[i].id) in dirty && dirty[DirtyKey(done[i].id)] == done[i] {
      assert all[i] == done[i];
    }
    forall i | 0 <= i < |next| ensures DirtyKey(next[i].id) in dirty && dirty[DirtyKey(next[i].id)] == next[i] {
      assert all[|done| + i] == next[i];
    }
    if k :| k in EntryKeys(done) && k in EntryKeys(next) {
      var i :| 0 <= i < |done| && k == DirtyKey(done[i].id);
      var j :| 0 <= j < |next| && k == DirtyKey(next[j].id);
      TwiceAt(done, next, rest, i, j);
    }
  }

  ghost predicate Clear(entries: seq<Entry>, down: set<Id>)
  {
    forall i :: 0 <= i < |entries| ==> entries[i].id !in down
  }

  lemma ClaimedHeld(dirty: map<string, Entry>, entries: seq<Entry>, order: seq<string>, keys: set<string>)
    requires Homed(dirty) && Enumerates(order, keys) && |entries| == |order|
    requires forall i :: 0 <= i < |order| ==> order[i] in dirty && entries[i] == dirty[order[i]]
    ensures Held(dirty, entries) && Once(entries) && EntryKeys(entries) == keys
  {
    assert forall i :: 0 <= i < |order| ==> DirtyKey(entries[i].id) == order[i];
    forall e ensures Times(entries, e) <= 1 {
      TimesOnce(entries, e);
    }
    forall k | k in keys ensures k in EntryKeys(entries) {
      var i :| 0 <= i < |order| && order[i] == k;
      assert DirtyKey(entries[i].id) == k;
    }
  }

  lemma SameEntries(dirty: map<string, Entry>, a: seq<Entry>, b: seq<Entry>, down: set<Id>)
    requires Held(dirty, a) && Once(a) && forall e :: Times(b, e) == Times(a, e)
    ensures Held(dirty, b) && Once(b) && EntryKeys(b) == EntryKeys(a) && (Clear(b, down) <==> Clear(a, down))
  {
    forall e ensures Times(b, e) <= 1 && (e in a <==> e in b) {
      assert Times(b, e) == Times(a, e) && Times(a, e) <= 1;
      TimesIn(a, e);
      TimesIn(b, e);
    }
    forall k ensures k in EntryKeys(a) <==> k in EntryKeys(b) {
      KeyAmong(a, b, k);
      KeyAmong(b, a, k);
    }
    Among(dirty, a, b, down);
    Among(dirty, b, a, down);
  }

  lemma Among(dirty: map<string, Entry>, a: seq<Entry>, b: seq<Entry>, down: set<Id>)
    requires forall e :: e in a ==> e in b
    ensures Held(dirty, b) ==> Held(dirty, a)
    ensures Clear(b, down) ==> Clear(a, down)
  {
    forall i | 0 <= i < |a| ensures exists j :: 0 <= j < |b| && b[j] == a[i] {
      assert a[i] in b;
    }
  }

  lemma KeyAmong(a: seq<Entry>, b: seq<Entry>, k: string)
    requires forall e :: e in a ==> e in b
    ensures k in EntryKeys(a) ==> k in EntryKeys(b)
  {
    if k in EntryKeys(a) {
      var i :| 0 <= i < |a| && k == DirtyKey(a[i].id);
      assert a[i] in b;
      var j :| 0 <= j < |b| && b[j] == a[i];
      assert k == DirtyKey(b[j].id);
    }
  }

  lemma TwiceAt(done: seq<Entry>, next: seq<Entry>, rest: seq<Entry>, i: nat, j: nat)
    requires i < |done| && j < |next| && done[i] == next[j]
    ensures Times(done + next + rest, done[i]) >= 2
  {
    TimesConcat(done + next, rest, done[i]);
    TimesConcat(done, next, done[i]);
    TimesIn(done, done[i]);
    TimesIn(next, done[i]);
  }

  lemma EntryKeysNext(entries: seq<Entry>, i: nat)
    requires i < |entries|
    ensures EntryKeys(entries[..i + 1]) == EntryKeys(entries[..i]) + {DirtyKey(entries[i].id)}
  {
  }

  /** The keys of all batches in which every entity can be stored. */
  ghost function Storable(batches: seq<seq<Entry>>, down: set<Id>): (keys: set<string>)
  {
    if batches == [] then {}
    else
      var n := |batches| - 1;
      Storable(batches[..n], down) + if Clear(batches[n], down) then EntryKeys(batches[n]) else {}
  }

  ghost predicate Wanted(entry: Entry, deletes: bool)
  {
    deletes == entry.data.None?
  }

  class CacheSynchroniser {
    const batchSize: nat
    var cache: map<string, Row>
    var dirtyEntries: map<string, Entry>
    var db: Table
    var nextStamp: nat

    constructor (batchSize: nat, db: Table)
      requires batchSize > 0
      ensures Valid() && Contents() == Layers(map[], map[], db, 0) && this.batchSize == batchSize
    {
      this.batchSize := batchSize;
      this.db := db;
      cache, dirtyEntries, nextStamp := map[], map[], 0;
    }

    ghost predicate Valid()
      reads this
    {
      batchSize > 0 && Homed(dirtyEntries)
    }

    function Contents(): (s: Layers)
      reads this
    {
      Layers(cache, dirtyEntries, db, nextStamp)
    }

    /** `cacheUp` and `dbUp` tell whether the cache and the database accept the write. */
    method Set(id: Id, row: Row, immediate: bool, cacheUp: bool, dbUp: bool) returns (ok: bool)
      requires Valid()
      modifies `cache, `dirtyEntries, `db, `nextStamp
      ensures Valid()
      ensures ok <==> cacheUp && (immediate ==> dbUp)
      ensures !cacheUp ==> Contents() == old(Contents())
      ensures ok ==> Contents() == if immediate then SetImmediate(old(Contents()), id, row)
                                   else SetDeferred(old(Contents()), id, row)
      ensures cacheUp && !ok ==> Contents() == old(Contents()).(cache := old(cache)[CacheKey(id) := row])
      ensures cache == if cacheUp then old(cache)[CacheKey(id) := row] else old(cache)
      ensures db == if ok && immediate then old(db)[id := row] else old(db)
      ensures dirtyEntries == if ok && !immediate then
                                old(dirtyEntries)[DirtyKey(id) := Entry(id, Some(row), New, old(nextStamp))]
                              else old(dirtyEntries)
    {
      if !cacheUp {
        return false;
      }
      cache := cache[CacheKey(id) := row];
      if immediate {
        if !dbUp {
          return false;
        }
        db := Write(db, id, Some(row));
        return true;
      }
      dirtyEntries := dirtyEntries[DirtyKey(id) := Entry(id, Some(row), New, nextStamp)];
      nextStamp := nextStamp + 1;
      ok := true;
    }

    /** `names` is the order in which it walked `rows`; an entity in `down` cannot be
        written. The immediate form stops at the first such one. */
    method SetMulti(kind: string, rows: map<string, Row>, immediate: bool, cacheUp: bool, down: set<Id>)
      returns (ok: bool, ghost names: seq<string>, ghost n: nat)
      requires Valid()
      modifies `cache, `dirtyEntries, `db, `nextStamp
      ensures Valid() && Enumerates(names, rows.Keys) && n <= |names|
      ensures ok <==>
              rows == map[] || (cacheUp && (immediate ==> forall i :: 0 <= i < |names| ==> Id(kind, names[i]) !in down))
      ensures !cacheUp || rows == map[] ==> Contents() == old(Contents())
      ensures cacheUp && !immediate ==>
                Contents() == Layers(CachedAll(old(cache), kind, names, rows),
                                     DirtiedAll(old(dirtyEntries), kind, names, Changes(rows), old(nextStamp)),
                                     old(db), old(nextStamp) + |names|)
      ensures cacheUp && immediate ==>
                && Contents() == Layers(CachedAll(old(cache), kind, names, rows), old(dirtyEntries),
                                        WrittenAll(old(db), kind, names[..n], Changes(rows)), old(nextStamp))
                && (ok ==> n == |names|)
    {
      var order := NamesOf(rows);
      names, n := order, 0;
      if |rows| == 0 {
        assert rows == map[];
        return true, names, n;
      }
      if !cacheUp {
        return false, names, n;
      }
      CacheRows(kind, order, rows);
      if immediate {
        ok, n := WriteRows(kind, order, Changes(rows), down);
        return;
      }
      AddDirty(kind, order, Changes(rows));
      ok := true;
    }

    /** The statements of flushEntities, one by one. */
    method WriteRows(kind: string, names: seq<string>, data: map<string, Option<Row>>, down: set<Id>)
      returns (ok: bool, ghost n: nat)
      requires forall i :: 0 <= i < |names| ==> names[i] in data
      modifies `db
      ensures n <= |names| && db == WrittenAll(old(db), kind, names[..n], data) && (ok ==> n == |names|)
      ensures ok <==> forall i :: 0 <= i < |names| ==> Id(kind, names[i]) !in down
    {
      n := 0;
      for i := 0 to |names|
        invariant n == i && db == WrittenAll(old(db), kind, names[..i], data)
        invariant forall j :: 0 <= j < i ==> Id(kind, names[j]) !in down
      {
        if Id(kind, names[i]) in down {
          return false, n;
        }
        assert names[..i + 1][..i] == names[..i];
        db := Write(db, Id(kind, names[i]), data[names[i]]);
        n := i + 1;
      }
      ok := true;
    }

    method CacheRows(kind: string, names: seq<string>, rows: map<string, Row>)
      requires forall i :: 0 <= i < |names| ==> names[i] in rows
      modifies `cache
      ensures cache == CachedAll(old(cache), kind, names, rows)
    {
      for i := 0 to |names|
        invariant cache == CachedAll(old(cache), kind, names[..i], rows)
      {
        assert names[..i + 1][..i] == names[..i];
        cache := cache[CacheKey(Id(kind, names[i])) := rows[names[i]]];
      }
      assert names[..|names|] == names;
    }

    method DropRows(kind: string, names: seq<string>, stuck: set<string>)
      modifies `cache
      ensures cache == old(cache) - CacheKeys(kind, names, stuck)
    {
      for i := 0 to |names|
        invariant cache == old(cache) - CacheKeys(kind, names[..i], stuck)
      {
        assert CacheKeys(kind, names[..i + 1], stuck) ==
               CacheKeys(kind, names[..i], stuck) + if names[i] in stuck then {} else {CacheKey(Id(kind, names[i]))};
        if names[i] !in stuck {
          cache := cache - {CacheKey(Id(kind, names[i]))};
        }
      }
      assert names[..|names|] == names;
    }

    /** The critical section of SetMulti and DeleteMulti. */
    method AddDirty(kind: string, names: seq<string>, data: map<string, Option<Row>>)
      requires Valid() && forall i :: 0 <= i < |names| ==> names[i] in data
      modifies `dirtyEntries, `nextStamp
      ensures Valid() && nextStamp == old(nextStamp) + |names|
      ensures dirtyEntries == DirtiedAll(old(dirtyEntries), kind, names, data, old(nextStamp))
    {
      for i := 0 to |names|
        invariant Valid() && nextStamp == old(nextStamp) + i
        invariant dirtyEntries == DirtiedAll(old(dirtyEntries), kind, names[..i], data, old(nextStamp))
      {
        assert names[..i + 1][..i] == names[..i];
        var id := Id(kind, names[i]);
        dirtyEntries := dirtyEntries[DirtyKey(id) := Entry(id, data[names[i]], New, nextStamp)];
        nextStamp := nextStamp + 1;
      }
      assert names[..|names|] == names;
    }

    method NamesOf(rows: map<string, Row>) returns (names: seq<string>)
      ensures Enumerates(names, rows.Keys)
    {
      names := [];
      var left := rows.Keys;
      while left != {}
        invariant left <= rows.Keys && Enumerates(names, rows.Keys - left)
      {
        var name :| name in left;
        EnumeratesMore(names, rows.Keys, left, name);
        names := names + [name];
        left := left - {name};
      }
    }

    method Delete(id: Id, immediate: bool, cacheUp: bool, dbUp: bool) returns (ok: bool)
      requires Valid()
      modifies `cache, `dirtyEntries, `db, `nextStamp
      ensures Valid()
      ensures ok <==> (immediate ==> dbUp)
      ensures !immediate ==> Contents() == DeleteDeferred(old(Contents()), id, cacheUp)
      ensures immediate ==>
                && dirtyEntries == old(dirtyEntries) && nextStamp == old(nextStamp)
                && cache == (if cacheUp then old(cache) - {CacheKey(id)} else old(cache))
                && db == if dbUp then Write(old(db), id, None) else old(db)
      ensures cache == if cacheUp then old(cache) - {CacheKey(id)} else old(cache)
      ensures db == if immediate && dbUp then old(db) - {id} else old(db)
      ensures dirtyEntries == if immediate then old(dirtyEntries)
                              else old(dirtyEntries)[DirtyKey(id) := Entry(id, None, New, old(nextStamp))]
    {
      if cacheUp {
        cache := cache - {CacheKey(id)};
      }
      if immediate {
        if dbUp {
          db := Write(db, id, None);
        }
        return dbUp;
      }
      dirtyEntries := dirtyEntries[DirtyKey(id) := Entry(id, None, New, nextStamp)];
      nextStamp := nextStamp + 1;
      ok := true;
    }

    /** The cache does not drop the names in `stuck`, which is ignored. The immediate form
        is one statement. */
    method DeleteMulti(kind: string, names: seq<string>, immediate: bool, stuck: set<string>, dbUp: bool)
        returns (ok: bool)
      requires Valid()
      modifies `cache, `dirtyEntries, `db, `nextStamp
      ensures Valid()
      ensures ok <==> (immediate && names != [] ==> dbUp)
      ensures !immediate ==> Contents() == DeletedMulti(old(Contents()), kind, names, stuck)
      ensures immediate ==>
                Contents() == Layers(old(cache) - CacheKeys(kind, names, stuck), old(dirtyEntries),
                                     if dbUp then WrittenAll(old(db), kind, names, Deletions(names)) else old(db),
                                     old(nextStamp))
    {
      if |names| == 0 {
        assert cache - CacheKeys(kind, names, stuck) == cache;
        return true;
      }
      DropRows(kind, names, stuck);
      if immediate {
        if dbUp {
          ghost var n;
          ok, n := WriteRows(kind, names, Deletions(names), {});
          assert names[..n] == names;
        }
        return dbUp;
      }
      AddDirty(kind, names, Deletions(names));
      ok := true;
    }

    /** A row that is not there is an error, here None; so is a query that fails, when the
        database is not `dbUp`. */
    method Get(id: Id, readable: bool, writable: bool, dbUp: bool) returns (data: Option<Row>, failed: bool)
      modifies `cache
      ensures failed ==> !dbUp && data == None && Contents() == old(Contents())
      ensures failed <==> !dbUp && !(readable && CacheKey(id) in old(cache)) &&
                          !(DirtyKey(id) in dirtyEntries && dirtyEntries[DirtyKey(id)].data.Some?)
      ensures !failed ==> data == Answer(old(Contents()), id, readable)
      ensures !failed ==> Contents() == AfterRead(old(Contents()), id, readable, writable)
      ensures data.Some? && (writable || (readable && CacheKey(id) in old(cache))) ==>
                CacheKey(id) in cache && cache[CacheKey(id)] == data.value
      ensures cache - {CacheKey(id)} == old(cache) - {CacheKey(id)}
      ensures readable && CacheKey(id) in old(cache) ==> data == Some(old(cache)[CacheKey(id)])
      ensures !(readable && CacheKey(id) in old(cache)) && !failed ==>
                if DirtyKey(id) in dirtyEntries && dirtyEntries[DirtyKey(id)].data.Some? then
                  data == dirtyEntries[DirtyKey(id)].data
                else if id in db then data == Some(db[id]) else data == None
    {
      failed := false;
      var cacheKey := CacheKey(id);
      if readable && cacheKey in cache {
        return Some(cache[cacheKey]), false;
      }
      var dirtyKey := DirtyKey(id);
      if dirtyKey in dirtyEntries {
        if dirtyEntries[dirtyKey].data.Some? {
          var row := dirtyEntries[dirtyKey].data.value;
          if writable {
            cache := cache[cacheKey := row];
          }
          return Some(row), false;
        }
      }
      if !dbUp {
        return None, true;
      }
      if id !in db {
        return None, false;
      }
      if writable {
        cache := cache[cacheKey := db[id]];
      }
      data := Some(db[id]);
    }

    /** The critical section at the start of Flush. */
    method ClaimEntries() returns (entries: seq<Entry>, ghost order: seq<string>)
      modifies `dirtyEntries
      ensures dirtyEntries == MarkAll(old(dirtyEntries)) && Enumerates(order, NewKeys(old(dirtyEntries)))
      ensures |entries| == |order|
      ensures forall i :: 0 <= i < |order| ==> order[i] in dirtyEntries && entries[i] == dirtyEntries[order[i]]
    {
      entries, order := [], [];
      var left := dirtyEntries.Keys;
      ghost var all := NewKeys(dirtyEntries);
      while left != {}
        invariant dirtyEntries.Keys == old(dirtyEntries).Keys && left <= dirtyEntries.Keys
        invariant forall k :: k in dirtyEntries ==>
                    dirtyEntries[k] == if k in left then old(dirtyEntries)[k] else Mark(old(dirtyEntries)[k])
        invariant Enumerates(order, all - left) && |entries| == |order|
        invariant forall i :: 0 <= i < |order| ==> order[i] in dirtyEntries && entries[i] == dirtyEntries[order[i]]
      {
        var key :| key in left;
        if dirtyEntries[key].status == New {
          EnumeratesMore(order, all, left * all, key);
          assert all - left == all - left * all && all - (left - {key}) == all - (left * all - {key});
          dirtyEntries := dirtyEntries[key := dirtyEntries[key].(status := Pending)];
          entries := entries + [dirtyEntries[key]];
          order := order + [key];
        } else {
          assert all - (left - {key}) == all - left;
        }
        left := left - {key};
      }
    }

    /** Either the updates or the deletes of a batch; an entity in `down` cannot be stored. */
    method StoreSome(entries: seq<Entry>, deletes: bool, down: set<Id>) returns (ok: bool, ghost stored: set<string>)
      requires Homed(dirtyEntries) && Held(dirtyEntries, entries)
      modifies `db
      ensures stored <= EntryKeys(entries) && db == StoreKeys(old(db), dirtyEntries, stored)
      ensures ok <==> forall i :: 0 <= i < |entries| && Wanted(entries[i], deletes) ==> entries[i].id !in down
      ensures ok ==> forall i :: 0 <= i < |entries| && Wanted(entries[i], deletes) ==> DirtyKey(entries[i].id) in stored
    {
      stored := {};
      StoreNone(db, dirtyEntries);
      for i := 0 to |entries|
        invariant stored <= EntryKeys(entries) && db == StoreKeys(old(db), dirtyEntries, stored)
        invariant forall j :: 0 <= j < i && Wanted(entries[j], deletes) ==>
                    entries[j].id !in down && DirtyKey(entries[j].id) in stored
      {
        var entry := entries[i];
        if entry.data.None? == deletes {
          if entry.id in down {
            assert Wanted(entries[i], deletes);
            return false, stored;
          }
          StoreOneMore(old(db), dirtyEntries, stored, DirtyKey(entry.id));
          db := Write(db, entry.id, entry.data);
          stored := stored + {DirtyKey(entry.id)};
        }
      }
      ok := true;
    }

    method RemoveEntries(entries: seq<Entry>)
      modifies `dirtyEntries
      ensures dirtyEntries == old(dirtyEntries) - EntryKeys(entries)
    {
      for i := 0 to |entries|
        invariant dirtyEntries == old(dirtyEntries) - EntryKeys(entries[..i])
      {
        EntryKeysNext(entries, i);
        dirtyEntries := dirtyEntries - {DirtyKey(entries[i].id)};
      }
      assert entries[..|entries|] == entries;
    }

    /** A batch leaves the dirty table only when all of it was stored. */
    method FlushBatch(entries: seq<Entry>, down: set<Id>) returns (ok: bool, ghost stored: set<string>)
      requires Homed(dirtyEntries) && Held(dirtyEntries, entries)
      modifies `db, `dirtyEntries
      ensures stored <= EntryKeys(entries) && db == StoreKeys(old(db), old(dirtyEntries), stored)
      ensures ok <==> Clear(entries, down)
      ensures ok ==> stored == EntryKeys(entries) && dirtyEntries == old(dirtyEntries) - stored
      ensures !ok ==> dirtyEntries == old(dirtyEntries)
    {
      ok, stored := StoreSome(entries, false, down);
      if !ok {
        return;
      }
      if exists i :: 0 <= i < |entries| && entries[i].data.None? && entries[i].id in down {
        return false, stored;
      }
      ghost var deleted;
      assert dirtyEntries - {} == dirtyEntries;
      ghost var updated := stored;
      ok, deleted := StoreSome(entries, true, down);
      StoreMore(old(db), dirtyEntries, {}, updated, deleted);
      stored := updated + deleted;
      assert stored == EntryKeys(entries) by {
        forall k | k in EntryKeys(entries) ensures k in stored {
          var i :| 0 <= i < |entries| && k == DirtyKey(entries[i].id);
          assert Wanted(entries[i], true) || Wanted(entries[i], false);
        }
      }
      RemoveEntries(entries);
    }

    method FlushAll(batches: seq<seq<Entry>>, down: set<Id>)
        returns (ok: bool, ghost stored: set<string>, ghost removed: set<string>)
      requires Homed(dirtyEntries) && Held(dirtyEntries, Flatten(batches)) && Once(Flatten(batches))
      modifies `db, `dirtyEntries
      ensures removed <= stored <= EntryKeys(Flatten(batches))
      ensures dirtyEntries == old(dirtyEntries) - removed && db == StoreKeys(old(db), old(dirtyEntries), stored)
      ensures ok <==> removed == EntryKeys(Flatten(batches))
      ensures ok <==> Clear(Flatten(batches), down)
      ensures removed == Storable(batches, down)
    {
      ok, stored, removed := true, {}, {};
      StoreNone(db, dirtyEntries);
      for i := 0 to |batches|
        invariant Tracked(Flatten(batches[..i]), down, ok, stored, removed) && removed == Storable(batches[..i], down)
        invariant dirtyEntries == old(dirtyEntries) - removed && db == StoreKeys(old(db), old(dirtyEntries), stored)
      {
        var batch := batches[i];
        ghost var done := Flatten(batches[..i]);
        BatchReady(old(dirtyEntries), batches, i, removed);
        assert batches[..i + 1][..i] == batches[..i];
        ghost var more;
        var fine;
        fine, more := FlushBatch(batch, down);
        TrackedMore(done, batch, down, ok, stored, removed, fine, more);
        StoreMore(old(db), old(dirtyEntries), removed, stored, more);
        Minus(old(dirtyEntries), removed, more);
        stored := stored + more;
        if fine {
          removed := removed + more;
        } else {
          ok := false;
        }
      }
      assert batches[..|batches|] == batches;
    }

    /** One whole flush. Every batch is tried, whatever becomes of the others. It fails
        exactly when an entity it claims cannot be stored, and succeeds exactly when
        everything it claims leaves the dirty table. */
    method Flush(down: set<Id>)
      returns (ok: bool, ghost stored: set<string>, ghost removed: set<string>, ghost batches: seq<seq<Entry>>)
      requires Valid()
      modifies `db, `dirtyEntries
      ensures Valid()
      ensures Outcome(old(Contents()), stored, removed)
      ensures Contents() == Flushed(old(Contents()), stored, removed)
      ensures removed == Storable(batches, down) && EntryKeys(Flatten(batches)) == NewKeys(old(dirtyEntries))
      ensures forall b: seq<Entry> :: b in batches ==> b != [] && SizedBatch(b, b[0].id.kind, batchSize)
      ensures FilledInTurn(batches, batchSize)
      ensures ok <==> removed == NewKeys(old(dirtyEntries))
      ensures ok <==> forall k :: k in NewKeys(old(dirtyEntries)) ==> old(dirtyEntries)[k].id !in down
    {
      ghost var before := dirtyEntries;
      ghost var order;
      var entries;
      entries, order := ClaimEntries();
      ClaimedHeld(dirtyEntries, entries, order, NewKeys(before));
      ClearKeys(before, entries, order, down);
      StoreMarked(db, before, {});
      StoreNone(db, before);
      if |entries| == 0 {
        assert dirtyEntries - {} == dirtyEntries;
        return true, {}, {}, [];
      }
      var parts := Split(entries, batchSize);
      batches := parts;
      SameEntries(dirtyEntries, entries, Flatten(parts), down);
      ok, stored, removed := FlushAll(parts, down);
      StoreMarked(old(db), before, stored);
    }
  }

  /** Where a flush stands after the entries `done`. */
  ghost predicate Tracked(done: seq<Entry>, down: set<Id>, ok: bool, stored: set<string>, removed: set<string>)
  {
    && removed <= stored <= EntryKeys(done)
    && (ok <==> Clear(done, down))
    && (ok <==> removed == EntryKeys(done))
  }

  lemma Minus(m: map<string, Entry>, a: set<string>, b: set<string>)
    ensures m - a - b == m - (a + b)
  {
  }

  lemma BatchReady(before: map<string, Entry>, batches: seq<seq<Entry>>, i: nat, removed: set<string>)
    requires Homed(before) && Held(before, Flatten(batches)) && Once(Flatten(batches))
    requires i < |batches| && removed <= EntryKeys(Flatten(batches[..i]))
    ensures Flatten(batches[..i + 1]) == Flatten(batches[..i]) + batches[i]
    ensures EntryKeys(Flatten(batches[..i])) !! EntryKeys(batches[i])
    ensures Homed(before - removed) && Held(before - removed, batches[i])
  {
    FlattenAt(batches, i);
    LaterApart(before, Flatten(batches[..i]), batches[i], Flatten(batches[i + 1..]));
    forall j | 0 <= j < |batches[i]| ensures DirtyKey(batches[i][j].id) !in removed {
      assert DirtyKey(batches[i][j].id) in EntryKeys(batches[i]);
    }
  }

  lemma TrackedMore(done: seq<Entry>, batch: seq<Entry>, down: set<Id>, ok: bool, stored: set<string>,
                    removed: set<string>,
                    fine: bool, more: set<string>)
    requires Tracked(done, down, ok, stored, removed) && EntryKeys(done) !! EntryKeys(batch)
    requires more <= EntryKeys(batch) && (fine <==> Clear(batch, down)) && (fine ==> more == EntryKeys(batch))
    ensures Tracked(done + batch, down, ok && fine, stored + more, if fine then removed + more else removed)
  {
    AppendKeys(done, batch, down);
    if !fine {
      var i :| 0 <= i < |batch| && batch[i].id in down;
      assert DirtyKey(batch[i].id) in EntryKeys(batch);
    } else if !ok {
      var k :| k in EntryKeys(done) && k !in removed;
      assert k !in removed + more;
    }
  }

  lemma AppendKeys(a: seq<Entry>, b: seq<Entry>, down: set<Id>)
    ensures EntryKeys(a + b) == EntryKeys(a) + EntryKeys(b)
    ensures Clear(a + b, down) <==> Clear(a, down) && Clear(b, down)
  {
    forall k | k in EntryKeys(a) + EntryKeys(b) ensures k in EntryKeys(a + b) {
      KeyAmong(a, a + b, k);
      KeyAmong(b, a + b, k);
    }
    Among(map[], a, a + b, down);
    Among(map[], b, a + b, down);
  }

  lemma ClearKeys(before: map<string, Entry>, entries: seq<Entry>, order: seq<string>, down: set<Id>)
    requires Enumerates(order, NewKeys(before)) && |entries| == |order|
    requires forall i :: 0 <= i < |order| ==> order[i] in before && entries[i] == Mark(before[order[i]])
    ensures Clear(entries, down) <==> forall k :: k in NewKeys(before) ==> before[k].id !in down
  {
    forall k | k in NewKeys(before) ensures exists i :: 0 <= i < |order| && order[i] == k {
      assert k in order;
    }
  }
}
