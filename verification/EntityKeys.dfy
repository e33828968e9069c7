/** The strings under which the cache and the table of dirty entries know an entity. */
module EntityKeys {
  datatype Id = Id(kind: string, name: string)

  function DirtyKey(id: Id): (key: string)
  {
    id.kind + ":" + id.name
  }

  function CacheKey(id: Id): (key: string)
  {
    "entity:" + id.kind + ":" + id.name
  }

  /** One entity type is another one followed by a colon and anything. */
  predicate Extends(longer: string, shorter: string)
  {
    |longer| > |shorter| && longer[..|shorter|] == shorter && longer[|shorter|] == ':'
  }

  lemma SameKeyExtends(a: Id, b: Id)
    requires DirtyKey(a) == DirtyKey(b) && |a.kind| < |b.kind|
    ensures Extends(b.kind, a.kind)
  {
    var n := |a.kind|;
    assert DirtyKey(a)[n] == ':' && DirtyKey(a)[..n] == a.kind;
    assert DirtyKey(b)[n] == b.kind[n] && DirtyKey(b)[..n] == b.kind[..n];
  }

  lemma SameLengthSame(a: Id, b: Id)
    requires DirtyKey(a) == DirtyKey(b) && |a.kind| == |b.kind|
    ensures a == b
  {
    var n := |a.kind|;
    assert DirtyKey(a)[..n] == a.kind && DirtyKey(b)[..n] == b.kind;
    assert DirtyKey(a)[n + 1..] == a.name && DirtyKey(b)[n + 1..] == b.name;
  }

  /** Different entities share a key exactly when one type extends the other and the
      names make up for the difference. */
  lemma SameKeyIff(a: Id, b: Id)
    ensures DirtyKey(a) == DirtyKey(b) <==>
            a == b || Overlap(a, b) || Overlap(b, a)
  {
    if DirtyKey(a) == DirtyKey(b) {
      if |a.kind| == |b.kind| {
        SameLengthSame(a, b);
      } else if |a.kind| < |b.kind| {
        SameKeyExtends(a, b);
        NamesMakeUp(b, a);
      } else {
        SameKeyExtends(b, a);
        NamesMakeUp(a, b);
      }
    }
    if Overlap(a, b) {
      OverlapSame(a, b);
    }
    if Overlap(b, a) {
      OverlapSame(b, a);
    }
  }

  predicate Overlap(longer: Id, shorter: Id)
  {
    Extends(longer.kind, shorter.kind) && shorter.name == longer.kind[|shorter.kind| + 1..] + ":" + longer.name
  }

  lemma NamesMakeUp(longer: Id, shorter: Id)
    requires DirtyKey(longer) == DirtyKey(shorter) && Extends(longer.kind, shorter.kind)
    ensures Overlap(longer, shorter)
  {
    var n := |shorter.kind| + 1;
    assert DirtyKey(shorter)[n..] == shorter.name;
    assert DirtyKey(longer)[n..] == longer.kind[n..] + ":" + longer.name;
  }

  lemma OverlapSame(longer: Id, shorter: Id)
    requires Overlap(longer, shorter)
    ensures DirtyKey(longer) == DirtyKey(shorter)
  {
    var n := |shorter.kind|;
    assert longer.kind == shorter.kind + ":" + longer.kind[n + 1..];
  }

  ghost predicate Separate(kinds: set<string>)
  {
    forall k, l :: k in kinds && l in kinds ==> !Extends(k, l)
  }

  /** Keys tell the entities of a set of types apart exactly when no type of the set
      extends another; types without colons are such a set. */
  lemma KeysTellApartIff(kinds: set<string>)
    ensures Separate(kinds) <==>
            forall a: Id, b: Id :: a.kind in kinds && b.kind in kinds && DirtyKey(a) == DirtyKey(b) ==> a == b
  {
    if Separate(kinds) {
      forall a: Id, b: Id | a.kind in kinds && b.kind in kinds && DirtyKey(a) == DirtyKey(b) ensures a == b {
        SameKeyIff(a, b);
      }
    } else {
      var k, l :| k in kinds && l in kinds && Extends(k, l);
      var a, b := Id(k, ""), Id(l, k[|l| + 1..] + ":" + "");
      OverlapSame(a, b);
      assert a.kind in kinds && b.kind in kinds && a != b;
    }
  }

  lemma ColonFreeSeparate(kinds: set<string>)
    requires forall k, i :: k in kinds && 0 <= i < |k| ==> k[i] != ':'
    ensures Separate(kinds)
  {
  }

  lemma KeyForms()
    ensures DirtyKey(Id("player", "7")) == "player:7" && CacheKey(Id("player", "7")) == "entity:player:7"
  {
  }

  lemma CacheKeySame(a: Id, b: Id)
    ensures CacheKey(a) == CacheKey(b) <==> DirtyKey(a) == DirtyKey(b)
  {
    assert CacheKey(a) == "entity:" + DirtyKey(a) && CacheKey(b) == "entity:" + DirtyKey(b);
    assert CacheKey(a)[7..] == DirtyKey(a) && CacheKey(b)[7..] == DirtyKey(b);
  }
}
