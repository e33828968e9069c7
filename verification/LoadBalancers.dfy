/** The load balancers of the message router and of the RPC client. */
module LoadBalancers {
  import opened Bytes
  import opened Counting
  import opened CumulativeScan

  datatype Instance = Instance(id: string, serviceName: string, weight: int, status: string)

  const UP := "up"

  function Candidate(x: Instance): (r: seq<Instance>)
  {
    if x.status == UP then [x] else []
  }

  function Available(instances: seq<Instance>): (r: seq<Instance>)
  {
    if instances == [] then [] else
      var n := |instances| - 1;
      Available(instances[..n]) + Candidate(instances[n])
  }

  lemma CandidateTimes(y: Instance, x: Instance)
    ensures Times(Candidate(y), x) == if x == y && x.status == "up" then 1 else 0
  {
    TimesSnoc([], y, x);
    assert [] + [y] == [y];
  }

  /** Every instance that is up is a candidate, as often as it is listed, and no other. */
  lemma {:induction false} AvailableTimes(instances: seq<Instance>, x: Instance)
    ensures Times(Available(instances), x) == if x.status == "up" then Times(instances, x) else 0
    decreases |instances|
  {
    if instances != [] {
      var n := |instances| - 1;
      AvailableTimes(instances[..n], x);
      TimesConcat(Available(instances[..n]), Candidate(instances[n]), x);
      CandidateTimes(instances[n], x);
    }
  }

  lemma OnlyUp(instances: seq<Instance>, x: Instance)
    ensures x in Available(instances) <==> x in instances && x.status == "up"
  {
    AvailableTimes(instances, x);
    TimesIn(instances, x);
    TimesIn(Available(instances), x);
  }

  lemma AvailableSnoc(instances: seq<Instance>, x: Instance)
    ensures Available(instances + [x]) == Available(instances) + Candidate(x)
  {
    assert (instances + [x])[..|instances|] == instances;
  }

  /** The candidates keep the order of the instances. */
  lemma {:induction false} AvailableInOrder(first: seq<Instance>, rest: seq<Instance>)
    ensures Available(first + rest) == Available(first) + Available(rest)
    decreases |rest|
  {
    if rest == [] {
      assert first + rest == first;
    } else {
      var n := |rest| - 1;
      AvailableInOrder(first, rest[..n]);
      AvailableSnoc(first + rest[..n], rest[n]);
      SplitLast(first, rest);
      Reassociated(Available(first), Available(rest[..n]), Candidate(rest[n]));
    }
  }

  function Weights(available: seq<Instance>): (ws: seq<int>)
    ensures |ws| == |available| && forall i :: 0 <= i < |ws| ==> ws[i] == available[i].weight
  {
    seq(|available|, i requires 0 <= i < |available| => available[i].weight)
  }

  lemma {:induction false} SumSnoc(ws: seq<int>, w: int)
    ensures Sum(ws + [w]) == Sum(ws) + w
  {
    if ws == [] {
      assert (ws + [w])[1..] == [];
    } else {
      SumSnoc(ws[1..], w);
      assert (ws + [w])[1..] == ws[1..] + [w];
    }
  }

  /******* The router's balancers *******/

  /** Which available instance the counter value `count` selects by weight. Weights
      adding up to zero mean taking turns; a scan that finds nothing falls back to
      the first instance. */
  function WeightedChoice(available: seq<Instance>, count: nat): (i: nat)
    requires available != []
    ensures i < |available|
  {
    var ws := Weights(available);
    if Sum(ws) == 0 then count % |available|
    else
      var i := Scan(ws, count % Sum(ws));
      if i < |available| then i else 0
  }

  function Counter(counter: map<string, nat>, name: string): (n: nat)
  {
    if name in counter then counter[name] else 0
  }

  /** How the router's two balancers choose. */
  datatype Rule = ByWeight | InTurn

  function Choose(rule: Rule, available: seq<Instance>, count: nat): (i: nat)
    requires available != []
    ensures i < |available|
  {
    if rule.ByWeight? then WeightedChoice(available, count) else Turn(count, |available|)
  }

  /** One call: the answer and the counters after it. */
  function Select(rule: Rule, counter: map<string, nat>, instances: seq<Instance>)
    : (r: (Option<Instance>, map<string, nat>))
  {
    var available := Available(instances);
    if available == [] then (None, counter)
    else
      var name := instances[0].serviceName;
      var count := Counter(counter, name);
      (Some(available[Choose(rule, available, count)]), counter[name := count + 1])
  }

  /** The counter of the service, and no other, has gone up by one. */
  predicate Advanced(before: map<string, nat>, after: map<string, nat>, instances: seq<Instance>)
    requires instances != []
  {
    var name := instances[0].serviceName;
    after == before[name := if name in before then before[name] + 1 else 1]
  }

  lemma SomeUp(instances: seq<Instance>)
    ensures Available(instances) != [] <==> exists x :: x in instances && x.status == "up"
    ensures forall i :: 0 <= i < |Available(instances)| ==>
              Available(instances)[i] in instances && Available(instances)[i].status == "up"
  {
    forall x ensures x in Available(instances) <==> x in instances && x.status == "up" {
      OnlyUp(instances, x);
    }
    if Available(instances) != [] {
      assert Available(instances)[0] in Available(instances);
    }
    forall i | 0 <= i < |Available(instances)| ensures Available(instances)[i] in instances {
      assert Available(instances)[i] in Available(instances);
    }
  }

  class WeightedLoadBalancer {
    var counter: map<string, nat>

    constructor ()
      ensures counter == map[]
    {
      counter := map[];
    }

    method SelectInstance(instances: seq<Instance>) returns (r: Option<Instance>)
      modifies this
      ensures (r, counter) == Select(ByWeight, old(counter), instances)
      ensures r.Some? <==> exists x :: x in instances && x.status == "up"
      ensures r.Some? ==> r.value in instances && r.value.status == "up" && Advanced(old(counter), counter, instances)
      ensures r.None? ==> counter == old(counter)
    {
      if |instances| == 0 { return None; }
      var serviceName := instances[0].serviceName;
      var available, totalWeight := FilterUp(instances);
      SomeUp(instances);
      if |available| == 0 { return None; }
      var count := Counter(counter, serviceName);
      counter := counter[serviceName := count + 1];
      if totalWeight == 0 { return Some(available[count % |available|]); }
      var i := ScanLoop(Weights(available), count % totalWeight);
      r := Some(available[i]);
    }
  }

  /** The instances that are up, and the sum of their weights. */
  method FilterUp(instances: seq<Instance>) returns (available: seq<Instance>, totalWeight: int)
    ensures available == Available(instances) && totalWeight == Sum(Weights(available))
  {
    available, totalWeight := [], 0;
    var k := 0;
    while k < |instances|
      invariant 0 <= k <= |instances|
      invariant available == Available(instances[..k])
      invariant totalWeight == Sum(Weights(available))
    {
      assert instances[..k + 1][..k] == instances[..k];
      if instances[k].status == UP {
        SumSnoc(Weights(available), instances[k].weight);
        assert Weights(available + [instances[k]]) == Weights(available) + [instances[k].weight];
        available := available + [instances[k]];
        totalWeight := totalWeight + instances[k].weight;
      }
      k := k + 1;
    }
    assert instances[..k] == instances;
  }

  /** The running-total loop, with the first index as its fallback. */
  method ScanLoop(ws: seq<int>, target: nat) returns (r: nat)
    requires ws != []
    ensures r == if Scan(ws, target) < |ws| then Scan(ws, target) else 0
  {
    var runningTotal, i := 0, 0;
    while i < |ws|
      invariant 0 <= i <= |ws|
      invariant Scan(ws, target) == i + Scan(ws[i..], target - runningTotal)
    {
      runningTotal := runningTotal + ws[i];
      if target < runningTotal { return i; }
      assert ws[i..][1..] == ws[i + 1..];
      i := i + 1;
    }
    r := 0;
  }

  /** How many of `n` consecutive selections from counter value `c` on go to the
      available instance `i`. */
  function Selections(available: seq<Instance>, c: nat, n: nat, i: nat): (k: nat)
    requires available != []
    decreases n
  {
    if n == 0 then 0
    else Selections(available, c, n - 1, i) + if WeightedChoice(available, c + n - 1) == i then 1 else 0
  }

  lemma {:induction false} SelectionsArePicks(available: seq<Instance>, c: nat, n: nat, i: nat)
    requires available != [] && NonNegative(Weights(available)) && Sum(Weights(available)) > 0
    ensures Selections(available, c, n, i) == Picks(Weights(available), c, n, i)
    decreases n
  {
    if n > 0 {
      SelectionsArePicks(available, c, n - 1, i);
      var ws := Weights(available);
      ScanFinds(ws, (c + n - 1) % Sum(ws));
    }
  }

  /** Weighted fairness: any stretch of consecutive selections gives every instance
      its weight once per full round and less than one round more; after whole
      rounds the counts are the weights, exactly. */
  lemma WeightedFairness(available: seq<Instance>, c: nat, n: nat, i: nat)
    requires i < |available| && NonNegative(Weights(available)) && Sum(Weights(available)) > 0
    ensures var w, total := available[i].weight, Sum(Weights(available));
            n / total * w <= Selections(available, c, n, i) <= (n / total + 1) * w &&
            (n % total == 0 ==> Selections(available, c, n, i) == n / total * w)
  {
    SelectionsArePicks(available, c, n, i);
    Fairness(Weights(available), c, n, i);
  }

  /** The selections of the first k instances together. */
  function Together(available: seq<Instance>, c: nat, n: nat, k: nat): (sum: nat)
    requires available != []
  {
    if k == 0 then 0 else Together(available, c, n, k - 1) + Selections(available, c, n, k - 1)
  }

  lemma {:induction false} OneMoreTogether(available: seq<Instance>, c: nat, n: nat, k: nat)
    requires available != [] && n > 0
    ensures Together(available, c, n, k) ==
            Together(available, c, n - 1, k) + if WeightedChoice(available, c + n - 1) < k then 1 else 0
    decreases k
  {
    if k > 0 {
      OneMoreTogether(available, c, n, k - 1);
    }
  }

  /** Every selection goes to one of the instances. */
  lemma {:induction false} AllTogether(available: seq<Instance>, c: nat, n: nat)
    requires available != []
    ensures Together(available, c, n, |available|) == n
    decreases n
  {
    if n == 0 {
      NoneTogether(available, c, |available|);
    } else {
      AllTogether(available, c, n - 1);
      OneMoreTogether(available, c, n, |available|);
    }
  }

  lemma {:induction false} NoneTogether(available: seq<Instance>, c: nat, k: nat)
    requires available != []
    ensures Together(available, c, 0, k) == 0
    decreases k
  {
    if k > 0 {
      NoneTogether(available, c, k - 1);
    }
  }

  /** If those with a weight get it, the others' weights are missing from the total. */
  lemma {:induction false} TooMany(available: seq<Instance>, c: nat, n: nat, k: nat)
    requires available != [] && k <= |available|
    requires forall i :: 0 <= i < |available| && available[i].weight >= 0 ==>
               Selections(available, c, n, i) == available[i].weight
    ensures Sum(Weights(available)[..k]) <= Together(available, c, n, k)
    ensures (exists i :: 0 <= i < k && available[i].weight < 0) ==>
              Sum(Weights(available)[..k]) < Together(available, c, n, k)
    decreases k
  {
    if k > 0 {
      var ws := Weights(available);
      TooMany(available, c, n, k - 1);
      SumSnoc(ws[..k - 1], ws[k - 1]);
      assert ws[..k] == ws[..k - 1] + [ws[k - 1]];
    }
  }

  /** With a positive total, one round gives every instance that has a weight its weight if
      and only if no instance has a negative one. */
  lemma FairnessIff(available: seq<Instance>, c: nat)
    requires available != [] && Sum(Weights(available)) > 0
    ensures (forall i :: 0 <= i < |available| && available[i].weight >= 0 ==>
               Selections(available, c, Sum(Weights(available)), i) == available[i].weight) <==>
            NonNegative(Weights(available))
  {
    var ws := Weights(available);
    var total := Sum(ws);
    assert ws[..|available|] == ws;
    if NonNegative(ws) {
      forall i | 0 <= i < |available| ensures Selections(available, c, total, i) == available[i].weight {
        WeightedFairness(available, c, total, i);
        DivisionUnique(total, total, 1, 0);
      }
    } else if forall i :: 0 <= i < |available| && available[i].weight >= 0 ==>
                Selections(available, c, total, i) == available[i].weight {
      var i :| 0 <= i < |available| && ws[i] < 0;
      TooMany(available, c, total, |available|);
      AllTogether(available, c, total);
    }
  }

  /** The round-robin balancer of the router and the one of the RPC client: the
      counter modulo the number of candidates. */
  function Turn(count: nat, candidates: nat): (i: nat)
    requires candidates > 0
    ensures i < candidates
  {
    count % candidates
  }

  /** Turns begin with the first candidate and go round in order. */
  lemma TurnsGoRound(count: nat, candidates: nat)
    requires candidates > 0
    ensures Turn(0, candidates) == 0
    ensures Turn(count + 1, candidates) == if Turn(count, candidates) + 1 == candidates then 0
                                           else Turn(count, candidates) + 1
  {
    var q, i := count / candidates, count % candidates;
    DivisionUnique(0, candidates, 0, 0);
    if i + 1 == candidates {
      Distribute(q, candidates);
      DivisionUnique(count + 1, candidates, q + 1, 0);
    } else {
      DivisionUnique(count + 1, candidates, q, i + 1);
    }
  }

  class RoundRobinLoadBalancer {
    var counter: map<string, nat>

    method SelectInstance(instances: seq<Instance>) returns (r: Option<Instance>)
      modifies this
      ensures (r, counter) == Select(InTurn, old(counter), instances)
      ensures r.Some? <==> exists x :: x in instances && x.status == "up"
      ensures r.Some? ==> r.value in instances && r.value.status == "up" && Advanced(old(counter), counter, instances)
      ensures r.None? ==> counter == old(counter)
    {
      if |instances| == 0 { return None; }
      var serviceName := instances[0].serviceName;
      var count := Counter(counter, serviceName);
      var available, k := [], 0;
      while k < |instances|
        invariant 0 <= k <= |instances|
        invariant available == Available(instances[..k])
      {
        assert instances[..k + 1][..k] == instances[..k];
        if instances[k].status == UP { available := available + [instances[k]]; }
        k := k + 1;
      }
      assert instances[..k] == instances;
      SomeUp(instances);
      if |available| == 0 { return None; }
      counter := counter[serviceName := count + 1];
      r := Some(available[Turn(count, |available|)]);
    }
  }

  class RoundRobinSelector {
    var nextIdx: nat

    method Select(instances: seq<Instance>) returns (r: Option<Instance>)
      modifies this
      ensures instances == [] ==> r == None && nextIdx == old(nextIdx)
      ensures instances != [] ==>
                r == Some(instances[Turn(old(nextIdx), |instances|)]) && nextIdx == old(nextIdx) + 1
    {
      if |instances| == 0 { return None; }
      var idx := Turn(nextIdx, |instances|);
      nextIdx := nextIdx + 1;
      r := Some(instances[idx]);
    }
  }

  /** How many of `n` consecutive turns from counter value `c` on are `i`'s. */
  function Turns(candidates: nat, c: nat, n: nat, i: nat): (k: nat)
    requires candidates > 0
    decreases n
  {
    if n == 0 then 0 else Turns(candidates, c, n - 1, i) + if Turn(c + n - 1, candidates) == i then 1 else 0
  }

  /** Weights that add up to zero make the weighted balancer take turns. */
  lemma {:induction false} ZeroWeightsTakeTurns(available: seq<Instance>, c: nat, n: nat, i: nat)
    requires available != [] && Sum(Weights(available)) == 0
    ensures Selections(available, c, n, i) == Turns(|available|, c, n, i)
    decreases n
  {
    if n > 0 { ZeroWeightsTakeTurns(available, c, n - 1, i); }
  }

  function Ones(n: nat): (ws: seq<int>)
    ensures |ws| == n && forall i :: 0 <= i < n ==> ws[i] == 1
  {
    seq(n, i => 1)
  }

  lemma {:induction false} TurnsArePicks(candidates: nat, c: nat, n: nat, i: nat)
    requires candidates > 0
    ensures Sum(Ones(candidates)) == candidates
    ensures Turns(candidates, c, n, i) == Picks(Ones(candidates), c, n, i)
    decreases n
  {
    UnitWeights(Ones(candidates), (c + n - 1) % candidates);
    if n > 0 { TurnsArePicks(candidates, c, n - 1, i); }
  }

  /** Taking turns is even: over any stretch of selections, starting anywhere, no
      candidate is ever more than one turn ahead of another, and any `candidates`
      consecutive selections visit each exactly once. */
  lemma RoundRobinEven(candidates: nat, c: nat, n: nat, i: nat, j: nat)
    requires candidates > 0 && i < candidates && j < candidates
    ensures -1 <= Turns(candidates, c, n, i) - Turns(candidates, c, n, j) <= 1
    ensures n == candidates ==> Turns(candidates, c, n, i) == 1
  {
    TurnsArePicks(candidates, c, n, i);
    TurnsArePicks(candidates, c, n, j);
    Fairness(Ones(candidates), c, n, i);
    Fairness(Ones(candidates), c, n, j);
    DivisionUnique(candidates, candidates, 1, 0);
  }

  /******* The RPC client's weighted selector *******/

  /** Weights below 1 count as 1. */
  function Effective(instances: seq<Instance>): (ws: seq<int>)
    ensures |ws| == |instances|
    ensures forall i :: 0 <= i < |ws| ==> ws[i] == if instances[i].weight <= 0 then 1 else instances[i].weight
  {
    seq(|instances|, i requires 0 <= i < |instances| => if instances[i].weight <= 0 then 1 else instances[i].weight)
  }

  lemma {:induction false} SumAtLeastLength(ws: seq<int>)
    requires forall i :: 0 <= i < |ws| ==> ws[i] >= 1
    ensures Sum(ws) >= |ws|
  {
    if ws != [] { SumAtLeastLength(ws[1..]); }
  }

  /** Selects by a number drawn below the total of the effective weights; `draw` is
      the random source, which must answer in that range. */
  method WeightedSelect(instances: seq<Instance>, draw: nat -> nat) returns (r: Option<nat>)
    requires forall n :: n > 0 ==> draw(n) < n
    ensures instances == [] ==> r == None
    ensures instances != [] ==>
              var ws := Effective(instances);
              Sum(ws) > 0 && r == Some(Scan(ws, draw(Sum(ws)))) && r.value < |instances|
  {
    if |instances| == 0 { return None; }
    ghost var ws := Effective(instances);
    SumAtLeastLength(ws);
    var totalWeight, k := 0, 0;
    while k < |instances|
      invariant 0 <= k <= |instances|
      invariant totalWeight == Sum(ws[..k])
    {
      var w := if instances[k].weight <= 0 then 1 else instances[k].weight;
      SumSnoc(ws[..k], w);
      assert ws[..k + 1] == ws[..k] + [w];
      totalWeight := totalWeight + w;
      k := k + 1;
    }
    assert ws[..k] == ws;
    var target := draw(totalWeight);
    var i := ScanLoop(Effective(instances), target);
    ScanFinds(ws, target);
    r := Some(i);
  }

  /** Of the equally likely draws, exactly an instance's effective weight select it. */
  lemma DrawShare(instances: seq<Instance>, i: nat)
    requires i < |instances|
    ensures var ws := Effective(instances);
            Hits(ws, 0, Sum(ws), i) == if instances[i].weight <= 0 then 1 else instances[i].weight
  {
    HitsAreWeights(Effective(instances), i);
  }
}
