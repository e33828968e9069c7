/** Choosing by a running total of weights, and how often each choice comes up.
    Every load balancer of the server is an instance of this scan. */
module CumulativeScan {

  function Sum(ws: seq<int>): (n: int)
  {
    if ws == [] then 0 else ws[0] + Sum(ws[1..])
  }

  ghost predicate NonNegative(ws: seq<int>)
  {
    forall i :: 0 <= i < |ws| ==> ws[i] >= 0
  }

  /** The first index at which the running total exceeds `target`, or `|ws|`. */
  function Scan(ws: seq<int>, target: int): (i: nat)
    ensures i <= |ws|
  {
    if ws == [] || target < ws[0] then 0 else 1 + Scan(ws[1..], target - ws[0])
  }

  /** How many targets in `[lo, hi)` the scan sends to index `i`. */
  function Hits(ws: seq<int>, lo: int, hi: int, i: nat): (n: nat)
    decreases hi - lo
  {
    if lo >= hi then 0 else Hits(ws, lo, hi - 1, i) + if Scan(ws, hi - 1) == i then 1 else 0
  }

  lemma {:induction false} HitsSplit(ws: seq<int>, lo: int, mid: int, hi: int, i: nat)
    requires lo <= mid <= hi
    ensures Hits(ws, lo, hi, i) == Hits(ws, lo, mid, i) + Hits(ws, mid, hi, i)
    decreases hi - mid
  {
    if mid < hi { HitsSplit(ws, lo, mid, hi - 1, i); }
  }

  lemma {:induction false} HitsOfFirst(ws: seq<int>, hi: int, i: nat)
    requires ws != [] && 0 <= hi <= ws[0]
    ensures Hits(ws, 0, hi, i) == if i == 0 then hi else 0
    decreases hi
  {
    if hi > 0 { HitsOfFirst(ws, hi - 1, i); }
  }

  lemma {:induction false} HitsOfRest(ws: seq<int>, hi: int, i: nat)
    requires ws != [] && ws[0] <= hi
    ensures Hits(ws, ws[0], hi, i) == if i == 0 then 0 else Hits(ws[1..], 0, hi - ws[0], i - 1)
    decreases hi - ws[0]
  {
    if ws[0] < hi { HitsOfRest(ws, hi - 1, i); }
  }

  lemma {:induction false} SumNonNegative(ws: seq<int>)
    requires NonNegative(ws)
    ensures Sum(ws) >= 0
  {
    if ws != [] { SumNonNegative(ws[1..]); }
  }

  /** Of the targets below the total, exactly `ws[i]` reach index `i`, and none
      falls off the end. */
  lemma {:induction false} HitsAreWeights(ws: seq<int>, i: nat)
    requires NonNegative(ws) && i <= |ws|
    ensures Hits(ws, 0, Sum(ws), i) == if i < |ws| then ws[i] else 0
    decreases |ws|
  {
    if ws != [] {
      var total := Sum(ws);
      SumNonNegative(ws[1..]);
      HitsSplit(ws, 0, ws[0], total, i);
      HitsOfFirst(ws, ws[0], i);
      HitsOfRest(ws, total, i);
      if i > 0 { HitsAreWeights(ws[1..], i - 1); }
    }
  }

  /** The scan stops where the running total passes the target: not before, not later. */
  lemma {:induction false} ScanBrackets(ws: seq<int>, target: int)
    requires NonNegative(ws) && 0 <= target < Sum(ws)
    ensures var i := Scan(ws, target); i < |ws| && Sum(ws[..i]) <= target < Sum(ws[..i + 1])
  {
    assert ws[..1][1..] == [];
    if target >= ws[0] {
      ScanBrackets(ws[1..], target - ws[0]);
      var i := Scan(ws, target);
      assert ws[..i][1..] == ws[1..][..i - 1] && ws[..i + 1][1..] == ws[1..][..i];
    }
  }

  /** A target below the total never falls off the end. */
  lemma {:induction false} ScanFinds(ws: seq<int>, target: int)
    requires NonNegative(ws) && 0 <= target < Sum(ws)
    ensures Scan(ws, target) < |ws| && ws[Scan(ws, target)] > 0
  {
    if target >= ws[0] { ScanFinds(ws[1..], target - ws[0]); }
  }

  /******* Consecutive choices of a counter taken modulo the total *******/

  /** How many of the `n` choices made from counter value `c` on go to `i`. */
  function Picks(ws: seq<int>, c: nat, n: nat, i: nat): (k: nat)
    requires Sum(ws) > 0
    decreases n
  {
    if n == 0 then 0 else Picks(ws, c, n - 1, i) + if Scan(ws, (c + n - 1) % Sum(ws)) == i then 1 else 0
  }

  lemma {:induction false} PicksFromZero(ws: seq<int>, n: nat, i: nat)
    requires Sum(ws) > 0 && n <= Sum(ws)
    ensures Picks(ws, 0, n, i) == Hits(ws, 0, n, i)
    decreases n
  {
    if n > 0 {
      PicksFromZero(ws, n - 1, i);
      DivisionUnique(n - 1, Sum(ws), 0, n - 1);
    }
  }

  lemma {:induction false} PicksSplit(ws: seq<int>, c: nat, m: nat, n: nat, i: nat)
    requires Sum(ws) > 0
    ensures Picks(ws, c, m + n, i) == Picks(ws, c, m, i) + Picks(ws, c + m, n, i)
    decreases n
  {
    if n > 0 { PicksSplit(ws, c, m, n - 1, i); }
  }

  lemma {:induction false} PicksOfPeriod(ws: seq<int>, c: nat, i: nat)
    requires NonNegative(ws) && Sum(ws) > 0 && i <= |ws|
    ensures Picks(ws, c, Sum(ws), i) == if i < |ws| then ws[i] else 0
    decreases c
  {
    var total := Sum(ws);
    if c == 0 {
      PicksFromZero(ws, total, i);
      HitsAreWeights(ws, i);
    } else {
      PicksOfPeriod(ws, c - 1, i);
      PicksSplit(ws, c - 1, 1, total - 1, i);
      PicksSplit(ws, c, total - 1, 1, i);
      assert (c - 1 + total) % total == (c - 1) % total by { OneRound(c - 1 + total, total); }
      assert Picks(ws, c - 1, 1, i) == Picks(ws, c + (total - 1), 1, i);
    }
  }

  lemma AtLeastOnce(k: int, d: int)
    requires k >= 1 && d >= 0
    ensures k * d >= d
  {
    assert k * d == (k - 1) * d + d;
    assert (k - 1) * d >= 0;
  }

  lemma DivisionUnique(a: int, d: int, q: int, r: int)
    requires d > 0 && a == q * d + r && 0 <= r < d
    ensures a / d == q && a % d == r
  {
    var p, s := a / d, a % d;
    assert (q - p) * d == q * d - p * d == s - r;
    assert (p - q) * d == p * d - q * d == r - s;
    if p < q {
      AtLeastOnce(q - p, d);
    } else if q < p {
      AtLeastOnce(p - q, d);
    }
  }

  /** Taking away one full round. */
  lemma OneRound(n: nat, total: nat)
    requires total > 0 && n >= total
    ensures n / total == (n - total) / total + 1 && n % total == (n - total) % total
  {
    var q, r := (n - total) / total, (n - total) % total;
    assert n == q * total + total + r == (q + 1) * total + r;
    DivisionUnique(n, total, q + 1, r);
  }

  /** Fairness over any stretch of choices: after `n` of them, from any counter
      value, index `i` has had its weight once for each full round, and less than
      one round more. With `n` a multiple of the total the count is exact. */
  lemma {:induction false} Fairness(ws: seq<int>, c: nat, n: nat, i: nat)
    requires NonNegative(ws) && Sum(ws) > 0 && i < |ws|
    ensures n / Sum(ws) * ws[i] <= Picks(ws, c, n, i) <= (n / Sum(ws) + 1) * ws[i]
    ensures n % Sum(ws) == 0 ==> Picks(ws, c, n, i) == n / Sum(ws) * ws[i]
    decreases n
  {
    var total := Sum(ws);
    PicksOfPeriod(ws, c, i);
    if n < total {
      PicksSplit(ws, c, n, total - n, i);
      DivisionUnique(n, total, 0, n);
    } else {
      Fairness(ws, c + total, n - total, i);
      PicksSplit(ws, c, total, n - total, i);
      OneRound(n, total);
      var q := (n - total) / total;
      Distribute(q, ws[i]);
      Distribute(q + 1, ws[i]);
    }
  }

  lemma Distribute(q: int, w: int)
    ensures (q + 1) * w == q * w + w
  {
  }

  /** Equal shares: with every weight 1 the scan is the counter itself, so round
      robin is the weighted rule for equal weights. */
  lemma {:induction false} UnitWeights(ws: seq<int>, target: int)
    requires forall i :: 0 <= i < |ws| ==> ws[i] == 1
    ensures Sum(ws) == |ws|
    ensures 0 <= target < |ws| ==> Scan(ws, target) == target
    decreases |ws|
  {
    if ws != [] { UnitWeights(ws[1..], target - 1); }
  }
}
