/** Many calls of a router's balancer with one list of instances: who is selected how often. */
module BalancedCalls {
  import opened Bytes
  import opened Counting
  import opened CumulativeScan
  import opened LoadBalancers

  /** The counters after `n` calls, and their answers. */
  function After(rule: Rule, counter: map<string, nat>, instances: seq<Instance>, n: nat): (c: map<string, nat>)
  {
    if n == 0 then counter else Select(rule, After(rule, counter, instances, n - 1), instances).1
  }

  function Answers(rule: Rule, counter: map<string, nat>, instances: seq<Instance>, n: nat)
    : (answers: seq<Option<Instance>>)
    ensures |answers| == n
  {
    if n == 0 then []
    else Answers(rule, counter, instances, n - 1) +
         [Select(rule, After(rule, counter, instances, n - 1), instances).0]
  }

  /** The weight of all instances that are up, and their number. */
  function UpWeight(instances: seq<Instance>): (w: int)
  {
    if instances == [] then 0
    else UpWeight(instances[..|instances| - 1]) +
         if instances[|instances| - 1].status == "up" then instances[|instances| - 1].weight else 0
  }

  function Ups(instances: seq<Instance>): (n: nat)
  {
    if instances == [] then 0
    else Ups(instances[..|instances| - 1]) + if instances[|instances| - 1].status == "up" then 1 else 0
  }

  lemma {:induction false} UpSums(instances: seq<Instance>)
    ensures UpWeight(instances) == Sum(Weights(Available(instances))) && Ups(instances) == |Available(instances)|
    decreases |instances|
  {
    if instances != [] {
      var n := |instances| - 1;
      UpSums(instances[..n]);
      if instances[n].status == UP {
        SumSnoc(Weights(Available(instances[..n])), instances[n].weight);
        assert Weights(Available(instances)) == Weights(Available(instances[..n])) + [instances[n].weight];
      } else {
        assert Available(instances) == Available(instances[..n]);
      }
    }
  }

  /** What one call does when something is up. */
  lemma SelectIs(rule: Rule, counter: map<string, nat>, instances: seq<Instance>, available: seq<Instance>)
    requires available == Available(instances) != []
    ensures instances != []
    ensures var name := instances[0].serviceName;
            && Select(rule, counter, instances).0 == Some(available[Choose(rule, available, Counter(counter, name))])
            && Select(rule, counter, instances).1 == counter[name := Counter(counter, name) + 1]
  {
  }

  lemma {:induction false} AfterCounts(rule: Rule, counter: map<string, nat>, instances: seq<Instance>,
                                       available: seq<Instance>, n: nat)
    requires available == Available(instances) != [] && instances != []
    ensures var name := instances[0].serviceName;
            Counter(After(rule, counter, instances, n), name) == Counter(counter, name) + n
    decreases n
  {
    if n > 0 {
      AfterCounts(rule, counter, instances, available, n - 1);
      SelectIs(rule, After(rule, counter, instances, n - 1), instances, available);
    }
  }

  lemma LastAnswer(rule: Rule, counter: map<string, nat>, instances: seq<Instance>, available: seq<Instance>, n: nat)
    requires available == Available(instances) != [] && instances != [] && n > 0
    ensures var c := Counter(counter, instances[0].serviceName);
            Answers(rule, counter, instances, n) ==
            Answers(rule, counter, instances, n - 1) + [Some(available[Choose(rule, available, c + n - 1)])]
  {
    AfterCounts(rule, counter, instances, available, n - 1);
    SelectIs(rule, After(rule, counter, instances, n - 1), instances, available);
  }

  /******* Counting by instance *******/

  /** How many of `n` choices from counter value `c` on are candidate `i`. */
  function Chosen(rule: Rule, available: seq<Instance>, c: nat, n: nat, i: nat): (k: nat)
    requires available != []
  {
    if rule.ByWeight? then Selections(available, c, n, i) else Turns(|available|, c, n, i)
  }

  /** The same for all candidates among the first `k` that are equal to `x`. */
  function ChosenAs(rule: Rule, available: seq<Instance>, c: nat, n: nat, x: Instance, k: nat): (m: nat)
    requires available != [] && k <= |available|
    decreases k
  {
    if k == 0 then 0
    else ChosenAs(rule, available, c, n, x, k - 1) +
         if available[k - 1] == x then Chosen(rule, available, c, n, k - 1) else 0
  }

  lemma {:induction false} OneMoreChosen(rule: Rule, available: seq<Instance>, c: nat, n: nat, x: Instance, k: nat)
    requires available != [] && k <= |available| && n > 0
    ensures var i := Choose(rule, available, c + n - 1);
            ChosenAs(rule, available, c, n, x, k) ==
            ChosenAs(rule, available, c, n - 1, x, k) + if i < k && available[i] == x then 1 else 0
    decreases k
  {
    if k > 0 {
      OneMoreChosen(rule, available, c, n, x, k - 1);
    }
  }

  lemma {:induction false} NoneChosen(rule: Rule, available: seq<Instance>, c: nat, x: Instance, k: nat)
    requires available != [] && k <= |available|
    ensures ChosenAs(rule, available, c, 0, x, k) == 0
    decreases k
  {
    if k > 0 {
      NoneChosen(rule, available, c, x, k - 1);
    }
  }

  lemma LastCounted(rule: Rule, counter: map<string, nat>, instances: seq<Instance>, available: seq<Instance>, n: nat,
                    x: Instance)
    requires available == Available(instances) != [] && instances != [] && n > 0
    ensures var i := Choose(rule, available, Counter(counter, instances[0].serviceName) + n - 1);
            Times(Answers(rule, counter, instances, n), Some(x)) ==
            Times(Answers(rule, counter, instances, n - 1), Some(x)) + if available[i] == x then 1 else 0
  {
    var i := Choose(rule, available, Counter(counter, instances[0].serviceName) + n - 1);
    LastAnswer(rule, counter, instances, available, n);
    TimesSnoc(Answers(rule, counter, instances, n - 1), Some(available[i]), Some(x));
  }

  lemma NothingCounted(rule: Rule, counter: map<string, nat>, instances: seq<Instance>, x: Instance)
    ensures Times(Answers(rule, counter, instances, 0), Some(x)) == 0
  {
  }

  lemma ChosenStep(rule: Rule, counter: map<string, nat>, instances: seq<Instance>, available: seq<Instance>, n: nat,
                   x: Instance)
    requires available == Available(instances) != [] && instances != [] && n > 0
    requires var c := Counter(counter, instances[0].serviceName);
             Times(Answers(rule, counter, instances, n - 1), Some(x)) ==
             ChosenAs(rule, available, c, n - 1, x, |available|)
    ensures var c := Counter(counter, instances[0].serviceName);
            Times(Answers(rule, counter, instances, n), Some(x)) == ChosenAs(rule, available, c, n, x, |available|)
  {
    LastCounted(rule, counter, instances, available, n, x);
    OneMoreChosen(rule, available, Counter(counter, instances[0].serviceName), n, x, |available|);
  }

  lemma {:induction false} AnswersChosen(rule: Rule, counter: map<string, nat>, instances: seq<Instance>,
                                         available: seq<Instance>, n: nat, x: Instance)
    requires available == Available(instances) != [] && instances != []
    ensures var c := Counter(counter, instances[0].serviceName);
            Times(Answers(rule, counter, instances, n), Some(x)) == ChosenAs(rule, available, c, n, x, |available|)
    decreases n
  {
    var c := Counter(counter, instances[0].serviceName);
    if n == 0 {
      NothingCounted(rule, counter, instances, x);
      NoneChosen(rule, available, c, x, |available|);
    } else {
      AnswersChosen(rule, counter, instances, available, n - 1, x);
      ChosenStep(rule, counter, instances, available, n, x);
    }
  }

  /** If every candidate equal to `x` is chosen `w` times, `x` is `w` times as often as listed. */
  lemma {:induction false} SharesAddUp(rule: Rule, available: seq<Instance>, c: nat, n: nat, x: Instance, w: nat,
                                       k: nat)
    requires available != [] && k <= |available|
    requires forall i :: 0 <= i < |available| && available[i] == x ==> Chosen(rule, available, c, n, i) == w
    ensures ChosenAs(rule, available, c, n, x, k) == Times(available[..k], x) * w
    decreases k
  {
    if k > 0 {
      SharesAddUp(rule, available, c, n, x, w, k - 1);
      assert available[..k] == available[..k - 1] + [available[k - 1]];
      TimesSnoc(available[..k - 1], available[k - 1], x);
      if available[k - 1] == x {
        Distribute(Times(available[..k - 1], x), w);
      }
    }
  }

  lemma ShareOf(rule: Rule, counter: map<string, nat>, instances: seq<Instance>, available: seq<Instance>, n: nat,
                x: Instance, w: nat)
    requires available == Available(instances) != [] && instances != [] && x.status == "up"
    requires var c := Counter(counter, instances[0].serviceName);
             forall i :: 0 <= i < |available| && available[i] == x ==> Chosen(rule, available, c, n, i) == w
    ensures Times(Answers(rule, counter, instances, n), Some(x)) == Times(instances, x) * w
  {
    var c := Counter(counter, instances[0].serviceName);
    AnswersChosen(rule, counter, instances, available, n, x);
    SharesAddUp(rule, available, c, n, x, w, |available|);
    assert available[..|available|] == available;
    AvailableTimes(instances, x);
  }

  /******* Taking turns *******/

  lemma OneTurnEach(rule: Rule, available: seq<Instance>, c: nat, i: nat)
    requires i < |available| && (rule == InTurn || Sum(Weights(available)) == 0)
    ensures Chosen(rule, available, c, |available|, i) == 1
  {
    RoundRobinEven(|available|, c, |available|, i, i);
    if rule == ByWeight {
      ZeroWeightsTakeTurns(available, c, |available|, i);
    }
  }

  /** As many calls as instances are up select each of them once, from any counter value: by
      the round-robin balancer, and by the weighted one when the weights add up to zero. */
  lemma RoundVisitsEach(rule: Rule, counter: map<string, nat>, instances: seq<Instance>, x: Instance)
    requires (rule == InTurn || UpWeight(instances) == 0) && x.status == "up"
    ensures Times(Answers(rule, counter, instances, Ups(instances)), Some(x)) == Times(instances, x)
  {
    UpSums(instances);
    AvailableTimes(instances, x);
    var available := Available(instances);
    if available != [] {
      SelectIs(rule, counter, instances, available);
      var c := Counter(counter, instances[0].serviceName);
      forall i | 0 <= i < |available| && available[i] == x ensures Chosen(rule, available, c, |available|, i) == 1 {
        OneTurnEach(rule, available, c, i);
      }
      ShareOf(rule, counter, instances, available, |available|, x, 1);
    }
  }

  /******* By weight *******/

  /** In as many calls as the weights add up to, every instance that is up and has a weight
      is selected exactly as often as its weight says. */
  ghost predicate Fair(counter: map<string, nat>, instances: seq<Instance>)
    requires UpWeight(instances) >= 0
  {
    forall x: Instance :: x in instances && x.status == "up" && x.weight >= 0 ==>
      Times(Answers(ByWeight, counter, instances, UpWeight(instances)), Some(x)) == Times(instances, x) * x.weight
  }

  function Copies(x: Option<Instance>, n: nat): (s: seq<Option<Instance>>)
    ensures |s| == n
  {
    seq(n, _ => x)
  }

  lemma {:induction false} CopiesTimes(x: Option<Instance>, n: nat, y: Option<Instance>)
    ensures Times(Copies(x, n), y) == if x == y then n else 0
    decreases n
  {
    if n > 0 {
      CopiesTimes(x, n - 1, y);
      assert Copies(x, n) == Copies(x, n - 1) + [x];
      TimesSnoc(Copies(x, n - 1), x, y);
    }
  }

  /** What the candidates with a weight are due. */
  function Due(available: seq<Instance>): (s: seq<Option<Instance>>)
  {
    if available == [] then []
    else
      var x := available[|available| - 1];
      Due(available[..|available| - 1]) + Copies(Some(x), if x.weight >= 0 then x.weight else 0)
  }

  lemma {:induction false} DueTimes(available: seq<Instance>, y: Option<Instance>)
    ensures Times(Due(available), y) ==
            if y.Some? && y.value.weight >= 0 then Times(available, y.value) * y.value.weight else 0
    decreases |available|
  {
    if available != [] {
      var n := |available| - 1;
      var x := available[n];
      var w := if x.weight >= 0 then x.weight else 0;
      DueTimes(available[..n], y);
      TimesConcat(Due(available[..n]), Copies(Some(x), w), y);
      CopiesTimes(Some(x), w, y);
      if y == Some(x) {
        Distribute(Times(available[..n], x), w);
      }
    }
  }

  /** Negative weights are missing from the total, but not from what is due. */
  lemma {:induction false} DueLength(available: seq<Instance>)
    ensures Sum(Weights(available)) <= |Due(available)|
    ensures !NonNegative(Weights(available)) ==> Sum(Weights(available)) < |Due(available)|
    decreases |available|
  {
    if available != [] {
      var n := |available| - 1;
      DueLength(available[..n]);
      assert Weights(available) == Weights(available[..n]) + [available[n].weight];
      SumSnoc(Weights(available[..n]), available[n].weight);
    }
  }

  lemma WeightEach(available: seq<Instance>, c: nat, i: nat)
    requires i < |available| && NonNegative(Weights(available)) && Sum(Weights(available)) > 0
    ensures Chosen(ByWeight, available, c, Sum(Weights(available)), i) == available[i].weight
  {
    var n := Sum(Weights(available));
    WeightedFairness(available, c, n, i);
    DivisionUnique(n, n, 1, 0);
  }

  lemma FairEnough(counter: map<string, nat>, instances: seq<Instance>, available: seq<Instance>)
    requires available == Available(instances) != [] && instances != []
    requires UpWeight(instances) == Sum(Weights(available)) > 0 && NonNegative(Weights(available))
    ensures Fair(counter, instances)
  {
    var c, n := Counter(counter, instances[0].serviceName), UpWeight(instances);
    forall x: Instance | x in instances && x.status == "up" && x.weight >= 0
      ensures Times(Answers(ByWeight, counter, instances, n), Some(x)) == Times(instances, x) * x.weight
    {
      forall i | 0 <= i < |available| && available[i] == x ensures Chosen(ByWeight, available, c, n, i) == x.weight {
        WeightEach(available, c, i);
      }
      ShareOf(ByWeight, counter, instances, available, n, x, x.weight);
    }
  }

  lemma FairOnly(counter: map<string, nat>, instances: seq<Instance>)
    requires UpWeight(instances) > 0 && Fair(counter, instances)
    ensures NonNegative(Weights(Available(instances)))
  {
    var available, answers := Available(instances), Answers(ByWeight, counter, instances, UpWeight(instances));
    UpSums(instances);
    DueLength(available);
    forall y ensures Times(Due(available), y) <= Times(answers, y) {
      DueTimes(available, y);
      if y.Some? && y.value.weight >= 0 {
        AvailableTimes(instances, y.value);
        TimesIn(instances, y.value);
      }
    }
    FewerOccurrences(Due(available), answers);
  }

  /** Weighted selection over whole calls, with any list of instances and any counters: it is
      fair if and only if no instance that is up has a negative weight. */
  lemma FairCallsIff(counter: map<string, nat>, instances: seq<Instance>)
    requires UpWeight(instances) > 0
    ensures Fair(counter, instances) <==>
            forall i :: 0 <= i < |instances| && instances[i].status == "up" ==> instances[i].weight >= 0
  {
    NegativeIsUp(instances);
    UpSums(instances);
    SelectIs(ByWeight, counter, instances, Available(instances));
    if NonNegative(Weights(Available(instances))) {
      FairEnough(counter, instances, Available(instances));
    } else if Fair(counter, instances) {
      FairOnly(counter, instances);
    }
  }

  lemma NegativeIsUp(instances: seq<Instance>)
    ensures NonNegative(Weights(Available(instances))) <==>
            forall i :: 0 <= i < |instances| && instances[i].status == "up" ==> instances[i].weight >= 0
  {
    var available := Available(instances);
    forall x ensures x in available <==> x in instances && x.status == "up" {
      OnlyUp(instances, x);
    }
    assert forall i :: 0 <= i < |available| ==> available[i] in available;
    assert forall i :: 0 <= i < |instances| ==> instances[i] in instances;
  }
}
