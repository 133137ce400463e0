/**
  The replica strategies: python/climatik_operator/strategies.

  Both strategies run the same loop, one truncated division per measured deployment; a division by
  a zero reading raises, and so does a missing power cap.
*/
module Strategies {
  import opened Prelude
  import opened Rounding

  datatype Strategy = MaximizeReplicas | PrioritizeHighReplica

  /** The strategy call raises: there is something to divide, and no cap or a zero reading to divide by. */
  predicate StrategyRaises(power: map<string, real>, cap: Option<int>) {
    exists d :: d in power && (cap.None? || power[d] == 0.0)
  }

  /** What both strategies compute: the quotient of each measured deployment, and nothing else. */
  function ReplicaLimits(power: map<string, real>, cap: Option<int>): (limits: map<string, int>)
    requires !StrategyRaises(power, cap)
    ensures limits.Keys == power.Keys
  {
    map d | d in power :: Trunc(cap.value as real / power[d])
  }

  /** Positive readings and a non-negative cap: what the schema and a running deployment give. */
  predicate OptimalInputs(power: map<string, real>, cap: Option<int>) {
    && cap.Some? && cap.value >= 0
    && forall d :: d in power ==> power[d] > 0.0
  }

  /**
    Optimality: on positive readings and a non-negative cap, a table of limits is the strategies'
    result exactly when it covers the measured deployments and holds, for each, the greatest
    number of replicas of that draw within the cap.
  */
  lemma LimitsAreOptimal(power: map<string, real>, cap: int, limits: map<string, int>)
    requires OptimalInputs(power, Some(cap))
    ensures !StrategyRaises(power, Some(cap))
    ensures limits == ReplicaLimits(power, Some(cap)) <==>
            && limits.Keys == power.Keys
            && forall d :: d in limits ==> IsGreatestFit(limits[d], power[d], cap as real)
  {
    var best := ReplicaLimits(power, Some(cap));
    forall d | d in power && d in limits
      ensures limits[d] == best[d] <==> IsGreatestFit(limits[d], power[d], cap as real)
    {
      TruncIsGreatestFit(cap as real, power[d], limits[d]);
    }
    if limits == best {
      assert limits.Keys == power.Keys;
    } else if limits.Keys == power.Keys {
      assert exists d :: d in limits && limits[d] != best[d];
    }
  }

  /** The loop that both strategies run: fills the dictionary in whatever order the items come. */
  method DivideCap(power: map<string, real>, cap: Option<int>) returns (r: Result<map<string, int>>)
    ensures r == if StrategyRaises(power, cap) then Raised else Ok(ReplicaLimits(power, cap))
    ensures r.Raised? <==> exists d :: d in power && (cap.None? || power[d] == 0.0)
    ensures r.Ok? ==> r.value.Keys == power.Keys
    ensures r.Ok? ==> forall d :: d in power ==> r.value[d] == Trunc(cap.value as real / power[d])
  {
    var updated: map<string, int> := map[];
    var todo := power.Keys;
    while todo != {}
      invariant todo <= power.Keys && updated.Keys == power.Keys - todo
      invariant forall d :: d in updated ==> cap.Some? && power[d] != 0.0
      invariant forall d :: d in updated ==> updated[d] == Trunc(cap.value as real / power[d])
      decreases todo
    {
      var d :| d in todo;
      if cap.None? || power[d] == 0.0 {
        assert StrategyRaises(power, cap);
        return Raised;
      }
      updated := updated[d := Trunc(cap.value as real / power[d])];
      todo := todo - {d};
    }
    assert !StrategyRaises(power, cap) && updated == ReplicaLimits(power, cap);
    r := Ok(updated);
  }

  /** Where the inputs are as they should be, every limit is the greatest count that fits. */
  ghost predicate LimitsFit(r: Result<map<string, int>>, power: map<string, real>, cap: Option<int>) {
    OptimalInputs(power, cap) ==>
      && r.Ok? && r.value.Keys == power.Keys
      && forall d :: d in power ==> IsGreatestFit(r.value[d], power[d], cap.value as real)
  }

  lemma ReplicaLimitsFit(power: map<string, real>, cap: Option<int>)
    ensures LimitsFit(if StrategyRaises(power, cap) then Raised else Ok(ReplicaLimits(power, cap)), power, cap)
  {
    if OptimalInputs(power, cap) {
      LimitsAreOptimal(power, cap.value, ReplicaLimits(power, cap));
    }
  }

  class MaximizeReplicasStrategy {
    /** The current replicas are not looked at. */
    static method CalculateMaxReplicas(currentReplicas: map<string, int>, power: map<string, real>, cap: Option<int>)
      returns (r: Result<map<string, int>>)
      ensures r == if StrategyRaises(power, cap) then Raised else Ok(ReplicaLimits(power, cap))
      ensures r.Raised? <==> exists d :: d in power && (cap.None? || power[d] == 0.0)
      ensures r.Ok? ==> forall d :: d in power ==> d in r.value && r.value[d] == Trunc(cap.value as real / power[d])
      ensures LimitsFit(r, power, cap)
    {
      r := DivideCap(power, cap);
      ReplicaLimitsFit(power, cap);
    }
  }

  class PrioritizeHighReplicaStrategy {
    /** A second implementation of the same contract; it does not yet prioritise anything. */
    static method CalculateMaxReplicas(currentReplicas: map<string, int>, power: map<string, real>, cap: Option<int>)
      returns (r: Result<map<string, int>>)
      ensures r == if StrategyRaises(power, cap) then Raised else Ok(ReplicaLimits(power, cap))
      ensures r.Raised? <==> exists d :: d in power && (cap.None? || power[d] == 0.0)
      ensures r.Ok? ==> forall d :: d in power ==> d in r.value && r.value[d] == Trunc(cap.value as real / power[d])
      ensures LimitsFit(r, power, cap)
    {
      r := DivideCap(power, cap);
      ReplicaLimitsFit(power, cap);
    }
  }
}
