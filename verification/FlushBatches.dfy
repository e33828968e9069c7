/** How a flush cuts the dirty entries it claimed into batches: by entity type, then into
    slices of bounded length. */
module FlushBatches {
  import opened Bytes
  import opened Counting
  import opened EntityKeys

  type Row = string

  datatype Status = New | Pending

  /** `data` is absent for a delete; `stamp` tells apart the entries that successive
      writes of one entity create. */
  datatype Entry = Entry(id: Id, data: Option<Row>, status: Status, stamp: nat)

  /******* Slices *******/

  function Slices(entries: seq<Entry>, size: nat): (batches: seq<seq<Entry>>)
    requires size > 0
    decreases |entries|
  {
    if entries == [] then []
    else if |entries| <= size then [entries]
    else [entries[..size]] + Slices(entries[size..], size)
  }

  function Flatten(batches: seq<seq<Entry>>): (entries: seq<Entry>)
  {
    if batches == [] then [] else batches[0] + Flatten(batches[1..])
  }

  /** The slices are the entries in order. */
  lemma {:induction false} SlicesCover(entries: seq<Entry>, size: nat)
    requires size > 0
    ensures Flatten(Slices(entries, size)) == entries
    decreases |entries|
  {
    if |entries| > size {
      SlicesCover(entries[size..], size);
      assert Slices(entries, size)[1..] == Slices(entries[size..], size);
      assert entries[..size] + entries[size..] == entries;
    } else if entries != [] {
      assert Slices(entries, size)[1..] == [];
      assert entries + [] == entries;
    }
  }

  ghost predicate SizedBatch(b: seq<Entry>, kind: string, size: nat)
  {
    0 < |b| <= size && forall i :: 0 <= i < |b| ==> b[i].id.kind == kind
  }

  lemma {:induction false} SlicesSized(entries: seq<Entry>, kind: string, size: nat)
    requires size > 0 && forall i :: 0 <= i < |entries| ==> entries[i].id.kind == kind
    ensures forall i :: 0 <= i < |Slices(entries, size)| ==> SizedBatch(Slices(entries, size)[i], kind, size)
    decreases |entries|
  {
    if |entries| > size {
      SlicesSized(entries[size..], kind, size);
      assert SizedBatch(entries[..size], kind, size);
    } else if entries != [] {
      assert SizedBatch(entries, kind, size);
    }
  }

  function Count(n: nat, size: nat): (c: nat)
    requires size > 0
  {
    (n + size - 1) / size
  }

  /** The count rounds up: the last slice starts inside and ends at or after the end. */
  lemma CountBounds(n: nat, size: nat, i: nat)
    requires size > 0
    ensures i < Count(n, size) <==> i * size < n
  {
    var c := Count(n, size);
    assert c * size <= n + size - 1 < c * size + size;
    if i < c {
      Scaled(i + 1, c, size);
    } else {
      Scaled(c, i, size);
    }
  }

  lemma Scaled(a: nat, b: nat, size: nat)
    requires a <= b
    ensures a * size <= b * size && (a + 1) * size == a * size + size
  {
  }

  /** A further slice after k full ones. */
  lemma {:induction false} SlicesSnoc(k: nat, done: seq<Entry>, rest: seq<Entry>, size: nat)
    requires size > 0 && rest != [] && |done| == k * size
    ensures Slices(done + rest, size) == Slices(done, size) + Slices(rest, size)
    decreases k
  {
    if k == 0 {
      assert done + rest == rest;
    } else {
      Scaled(k - 1, k, size);
      assert (done + rest)[..size] == done[..size];
      assert (done + rest)[size..] == done[size..] + rest;
      SlicesSnoc(k - 1, done[size..], rest, size);
      FirstSlice(done, size);
    }
  }

  lemma FirstSlice(entries: seq<Entry>, size: nat)
    requires 0 < size <= |entries|
    ensures Slices(entries, size) == [entries[..size]] + Slices(entries[size..], size)
  {
    if |entries| == size {
      assert entries[..size] == entries && entries[size..] == [];
    }
  }

  method Slice(entries: seq<Entry>, size: nat) returns (batches: seq<seq<Entry>>)
    requires size > 0
    ensures batches == Slices(entries, size)
  {
    batches := [];
    var batchCount := (|entries| + size - 1) / size;
    var i := 0;
    CountBounds(|entries|, size, 0);
    while i < batchCount
      invariant i <= batchCount
      invariant i < batchCount <==> i * size < |entries|
      invariant i < batchCount ==> batches == Slices(entries[..i * size], size)
      invariant i >= batchCount ==> batches == Slices(entries, size)
    {
      var start := i * size;
      var end := start + size;
      if end > |entries| {
        end := |entries|;
      }
      SlicesSnoc(i, entries[..start], entries[start..end], size);
      assert entries[..start] + entries[start..end] == entries[..end];
      batches := batches + [entries[start..end]];
      i := i + 1;
      CountBounds(|entries|, size, i);
      Scaled(i - 1, i, size);
      assert end == |entries| ==> entries[..end] == entries;
    }
  }

  /******* Grouping by type *******/

  function OfKind(entries: seq<Entry>, kind: string): (group: seq<Entry>)
  {
    if entries == [] then []
    else
      var front, last := entries[..|entries| - 1], entries[|entries| - 1];
      if last.id.kind == kind then OfKind(front, kind) + [last] else OfKind(front, kind)
  }

  lemma {:induction false} OfKindTimes(entries: seq<Entry>, kind: string, e: Entry)
    ensures Times(OfKind(entries, kind), e) == if e.id.kind == kind then Times(entries, e) else 0
    decreases |entries|
  {
    if entries != [] {
      var front, last := entries[..|entries| - 1], entries[|entries| - 1];
      OfKindTimes(front, kind, e);
      TimesSnoc(OfKind(front, kind), last, e);
    }
  }

  lemma {:induction false} OfKindKind(entries: seq<Entry>, kind: string)
    ensures forall i :: 0 <= i < |OfKind(entries, kind)| ==> OfKind(entries, kind)[i].id.kind == kind
    decreases |entries|
  {
    if entries != [] {
      OfKindKind(entries[..|entries| - 1], kind);
    }
  }

  ghost predicate Grouped(groups: map<string, seq<Entry>>, entries: seq<Entry>)
  {
    && (forall kind :: kind in groups ==> groups[kind] == OfKind(entries, kind))
    && (forall i :: 0 <= i < |entries| ==> entries[i].id.kind in groups)
    && (forall kind :: kind !in groups ==> OfKind(entries, kind) == [])
  }

  function Append(groups: map<string, seq<Entry>>, entry: Entry): (more: map<string, seq<Entry>>)
  {
    var kind := entry.id.kind;
    groups[kind := (if kind in groups then groups[kind] else []) + [entry]]
  }

  lemma GroupedSnoc(groups: map<string, seq<Entry>>, front: seq<Entry>, entry: Entry)
    requires Grouped(groups, front)
    ensures Grouped(Append(groups, entry), front + [entry])
  {
    assert (front + [entry])[..|front|] == front;
  }

  method GroupByType(entries: seq<Entry>) returns (groups: map<string, seq<Entry>>)
    ensures Grouped(groups, entries)
  {
    groups := map[];
    for i := 0 to |entries|
      invariant Grouped(groups, entries[..i])
    {
      var entry := entries[i];
      var kind := entry.id.kind;
      GroupedSnoc(groups, entries[..i], entry);
      assert entries[..i + 1] == entries[..i] + [entry];
      groups := groups[kind := (if kind in groups then groups[kind] else []) + [entry]];
    }
    assert entries[..|entries|] == entries;
  }

  /******* All the batches *******/

  function Batch(entries: seq<Entry>, kinds: seq<string>, size: nat): (batches: seq<seq<Entry>>)
    requires size > 0
  {
    if kinds == [] then []
    else Batch(entries, kinds[..|kinds| - 1], size) + Slices(OfKind(entries, kinds[|kinds| - 1]), size)
  }

  lemma {:induction false} FlattenConcat(a: seq<seq<Entry>>, b: seq<seq<Entry>>)
    ensures Flatten(a + b) == Flatten(a) + Flatten(b)
    decreases |a|
  {
    if a == [] {
      assert a + b == b;
    } else {
      FlattenConcat(a[1..], b);
      assert (a + b)[1..] == a[1..] + b;
    }
  }

  lemma {:induction false} BatchTimes(entries: seq<Entry>, kinds: seq<string>, size: nat, e: Entry)
    requires size > 0 && NoDuplicates(kinds)
    ensures Times(Flatten(Batch(entries, kinds, size)), e) == if e.id.kind in kinds then Times(entries, e) else 0
    decreases |kinds|
  {
    if kinds != [] {
      var front, kind := kinds[..|kinds| - 1], kinds[|kinds| - 1];
      BatchTimes(entries, front, size, e);
      assert kind !in front && kinds == front + [kind];
      SlicesCover(OfKind(entries, kind), size);
      FlattenConcat(Batch(entries, front, size), Slices(OfKind(entries, kind), size));
      TimesConcat(Flatten(Batch(entries, front, size)), OfKind(entries, kind), e);
      OfKindTimes(entries, kind, e);
    }
  }

  lemma {:induction false} BatchSized(entries: seq<Entry>, kinds: seq<string>, size: nat)
    requires size > 0
    ensures forall b: seq<Entry> :: b in Batch(entries, kinds, size) ==> b != [] && SizedBatch(b, b[0].id.kind, size)
    decreases |kinds|
  {
    if kinds != [] {
      var kind := kinds[|kinds| - 1];
      BatchSized(entries, kinds[..|kinds| - 1], size);
      OfKindKind(entries, kind);
      SlicesSized(OfKind(entries, kind), kind, size);
    }
  }

  lemma {:induction false} SlicesFull(entries: seq<Entry>, size: nat)
    requires size > 0
    ensures forall i :: 0 <= i < |Slices(entries, size)| - 1 ==> |Slices(entries, size)[i]| == size
    decreases |entries|
  {
    if |entries| > size {
      SlicesFull(entries[size..], size);
    }
  }

  predicate SameKind(a: seq<Entry>, b: seq<Entry>)
  {
    a != [] && b != [] && a[0].id.kind == b[0].id.kind
  }

  /** Of the batches of one type only the last can have room left. */
  ghost predicate FilledInTurn(batches: seq<seq<Entry>>, size: nat)
  {
    forall i, j :: 0 <= i < j < |batches| && SameKind(batches[i], batches[j]) ==> |batches[i]| == size
  }

  ghost predicate KindsIn(batches: seq<seq<Entry>>, kinds: seq<string>)
  {
    forall i :: 0 <= i < |batches| ==> batches[i] != [] && batches[i][0].id.kind in kinds
  }

  lemma FilledConcat(a: seq<seq<Entry>>, b: seq<seq<Entry>>, kinds: seq<string>, kind: string, size: nat)
    requires FilledInTurn(a, size) && KindsIn(a, kinds) && KindsIn(b, [kind]) && kind !in kinds
    requires forall i :: 0 <= i < |b| - 1 ==> |b[i]| == size
    ensures FilledInTurn(a + b, size) && KindsIn(a + b, kinds + [kind])
  {
  }

  lemma {:induction false} BatchFilled(entries: seq<Entry>, kinds: seq<string>, size: nat)
    requires size > 0 && NoDuplicates(kinds)
    ensures FilledInTurn(Batch(entries, kinds, size), size) && KindsIn(Batch(entries, kinds, size), kinds)
    decreases |kinds|
  {
    if kinds != [] {
      var front, kind := kinds[..|kinds| - 1], kinds[|kinds| - 1];
      BatchFilled(entries, front, size);
      OfKindKind(entries, kind);
      SlicesSized(OfKind(entries, kind), kind, size);
      SlicesFull(OfKind(entries, kind), size);
      FilledConcat(Batch(entries, front, size), Slices(OfKind(entries, kind), size), front, kind, size);
      assert front + [kind] == kinds;
    }
  }

  /** Every entry is in one batch, of its own type and of at most `size` entries, and no
      batch is begun before those of its type are full. */
  ghost predicate Partition(entries: seq<Entry>, size: nat, batches: seq<seq<Entry>>)
  {
    && (forall e :: Times(Flatten(batches), e) == Times(entries, e))
    && (forall b: seq<Entry> :: b in batches ==> b != [] && SizedBatch(b, b[0].id.kind, size))
    && FilledInTurn(batches, size)
  }

  lemma BatchPartition(entries: seq<Entry>, kinds: seq<string>, size: nat)
    requires size > 0 && NoDuplicates(kinds) && forall i :: 0 <= i < |entries| ==> entries[i].id.kind in kinds
    ensures Partition(entries, size, Batch(entries, kinds, size))
  {
    BatchSized(entries, kinds, size);
    BatchFilled(entries, kinds, size);
    forall e ensures Times(Flatten(Batch(entries, kinds, size)), e) == Times(entries, e) {
      BatchTimes(entries, kinds, size, e);
      TimesIn(entries, e);
    }
  }

  /** The batches of a flush, in the order in which the flush takes them. */
  method Split(entries: seq<Entry>, size: nat) returns (batches: seq<seq<Entry>>)
    requires size > 0
    ensures Partition(entries, size, batches)
  {
    var groups := GroupByType(entries);
    var left := groups.Keys;
    var kinds := [];
    batches := [];
    while left != {}
      invariant left <= groups.Keys && Enumerates(kinds, groups.Keys - left)
      invariant batches == Batch(entries, kinds, size)
    {
      var kind :| kind in left;
      var slices := Slice(groups[kind], size);
      EnumeratesMore(kinds, groups.Keys, left, kind);
      assert (kinds + [kind])[..|kinds|] == kinds;
      kinds := kinds + [kind];
      batches := batches + slices;
      left := left - {kind};
    }
    BatchPartition(entries, kinds, size);
  }
}
