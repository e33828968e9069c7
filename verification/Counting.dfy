/** How often a value occurs in a sequence. */
module Counting {
  function Times<T(==)>(s: seq<T>, x: T): (n: nat)
  {
    if s == [] then 0 else (if s[|s| - 1] == x then 1 else 0) + Times(s[..|s| - 1], x)
  }

  lemma {:induction false} TimesConcat<T>(a: seq<T>, c: seq<T>, x: T)
    ensures Times(a + c, x) == Times(a, x) + Times(c, x)
    decreases |c|
  {
    if c == [] {
      assert a + c == a;
    } else {
      var n := |c| - 1;
      TimesConcat(a, c[..n], x);
      assert (a + c)[..|a + c| - 1] == a + c[..n];
    }
  }

  lemma TimesSnoc<T>(a: seq<T>, last: T, x: T)
    ensures Times(a + [last], x) == Times(a, x) + if last == x then 1 else 0
  {
    assert (a + [last])[..|a|] == a;
  }

  lemma TimesFirst<T>(a: seq<T>, x: T)
    requires a != []
    ensures Times(a, x) == (if a[0] == x then 1 else 0) + Times(a[1..], x)
  {
    TimesConcat(a[..1], a[1..], x);
    assert a == a[..1] + a[1..] && a[..1] == [] + [a[0]];
    TimesSnoc([], a[0], x);
  }

  lemma {:induction false} TimesIn<T>(a: seq<T>, x: T)
    ensures x in a <==> Times(a, x) > 0
    decreases |a|
  {
    if a != [] {
      TimesIn(a[..|a| - 1], x);
      assert a == a[..|a| - 1] + [a[|a| - 1]];
    }
  }

  lemma {:induction false} TimesRemoved<T>(a: seq<T>, i: nat, x: T)
    requires i < |a|
    ensures Times(a[..i] + a[i + 1..], x) == Times(a, x) - if a[i] == x then 1 else 0
  {
    TimesConcat(a[..i], a[i + 1..], x);
    TimesConcat(a[..i], a[i..], x);
    TimesFirst(a[i..], x);
    assert a == a[..i] + a[i..] && a[i..][1..] == a[i + 1..];
  }

  lemma {:induction false} FewerOccurrences<T>(a: seq<T>, c: seq<T>)
    requires forall x :: Times(a, x) <= Times(c, x)
    ensures |a| <= |c|
    decreases |a|
  {
    if a != [] {
      var n := |a| - 1;
      TimesIn(a, a[n]);
      TimesIn(c, a[n]);
      var i :| 0 <= i < |c| && c[i] == a[n];
      forall x ensures Times(a[..n], x) <= Times(c[..i] + c[i + 1..], x) {
        TimesRemoved(c, i, x);
        assert Times(a, x) <= Times(c, x);
      }
      FewerOccurrences(a[..n], c[..i] + c[i + 1..]);
    }
  }

  ghost predicate NoDuplicates<T>(s: seq<T>)
  {
    forall i, j :: 0 <= i < j < |s| ==> s[i] != s[j]
  }

  /** An order in which a walk over a map meets each of its keys once. */
  ghost predicate Enumerates<T(!new)>(order: seq<T>, keys: set<T>)
  {
    NoDuplicates(order) && forall k :: k in keys <==> k in order
  }

  lemma EnumeratesMore<T(!new)>(order: seq<T>, keys: set<T>, left: set<T>, key: T)
    requires left <= keys && key in left && Enumerates(order, keys - left)
    ensures Enumerates(order + [key], keys - (left - {key}))
  {
    forall k ensures k in keys - (left - {key}) <==> k in order + [key] {
      assert k in keys - left <==> k in order;
    }
  }

  lemma {:induction false} TimesOnce<T>(s: seq<T>, x: T)
    requires NoDuplicates(s)
    ensures Times(s, x) <= 1
    decreases |s|
  {
    if s != [] {
      TimesOnce(s[..|s| - 1], x);
      TimesIn(s[..|s| - 1], x);
    }
  }

  lemma SplitLast<T>(s: seq<T>, t: seq<T>)
    requires t != []
    ensures s + t == (s + t[..|t| - 1]) + [t[|t| - 1]]
  {
  }

  lemma Reassociated<T>(r: seq<T>, s: seq<T>, t: seq<T>)
    ensures (r + s) + t == r + (s + t)
  {
  }

  lemma Regroup<T>(s: seq<T>, t: seq<T>)
    requires s != []
    ensures s + t == [s[0]] + (s[1..] + t)
  {
  }
}
