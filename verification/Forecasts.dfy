/**
  What the published forecast says about the power cap.

  The project's problem statement asks that the power of all services together stay within the cap.
  The strategies give the whole cap to every deployment, so that holds of the forecast only sometimes;
  ForecastWithinCap says exactly when.
*/
module Forecasts {
  import opened Prelude
  import opened Rounding
  import opened Sums
  import opened Strategies
  import opened Ticks

  /** The forecast of the strategies' own limits. */
  function StrategyForecast(power: map<string, real>, cap: int): map<string, real>
    requires OptimalInputs(power, Some(cap))
  {
    Forecast(power, ReplicaLimits(power, Some(cap)))
  }

  /** The deployments that draw some power, and all of them no more than the cap. */
  function Fitting(power: map<string, real>, cap: real): set<string> {
    set d | d in power && 0.0 < power[d] <= cap
  }

  /** One deployment: within one draw of the cap, zero for one that does not fit, else over half the cap. */
  lemma OneForecast(p: real, cap: real)
    requires p > 0.0 && cap >= 0.0
    ensures var f := Draw(Trunc(cap / p), p);
            && cap - p < f <= cap
            && (p > cap ==> f == 0.0)
            && (p <= cap ==> 2.0 * f > cap)
  {
    TruncBounds(cap, p);
    var r := Trunc(cap / p);
    DrawStep(r, p);
    DrawStep(0, p);
    if r >= 1 {
      DrawMonotone(1, r, p);
    }
  }

  /** Each forecast is at most the cap, and short of it by less than the deployment's draw. */
  ghost predicate WithinOneDraw(power: map<string, real>, forecast: map<string, real>, cap: real) {
    && forecast.Keys == power.Keys
    && forall d :: d in power ==> cap - power[d] < forecast[d] <= cap
  }

  /** Each deployment that fits is forecast at more than half the cap, every other at zero. */
  ghost predicate FitOrNothing(power: map<string, real>, forecast: map<string, real>, cap: real) {
    && forecast.Keys == power.Keys
    && forall d :: d in power ==>
                     && power[d] > 0.0
                     && if power[d] <= cap then cap < 2.0 * forecast[d] <= 2.0 * cap else forecast[d] == 0.0
  }

  lemma StrategyForecastShape(power: map<string, real>, cap: int)
    requires OptimalInputs(power, Some(cap))
    ensures WithinOneDraw(power, StrategyForecast(power, cap), cap as real)
    ensures FitOrNothing(power, StrategyForecast(power, cap), cap as real)
  {
    forall d | d in power
      ensures var f := StrategyForecast(power, cap)[d];
              && cap as real - power[d] < f <= cap as real
              && if power[d] <= cap as real then cap as real < 2.0 * f else f == 0.0
    {
      OneForecast(power[d], cap as real);
    }
  }

  /** The forecasts of n deployments, summed: never more than n caps, and short of that by less than the draws. */
  lemma {:induction false} ForecastSums(power: map<string, real>, forecast: map<string, real>, cap: real)
    requires WithinOneDraw(power, forecast, cap)
    ensures Sum(forecast) <= Draw(|power|, cap)
    ensures if power == map[] then Sum(forecast) == Sum(power) == 0.0
            else Draw(|power|, cap) - Sum(power) < Sum(forecast)
    decreases power
  {
    if d :| d in power {
      ForecastSums(power - {d}, forecast - {d}, cap);
      SumSplit(power, d);
      SumSplit(forecast, d);
      OneKeyLess(power, d);
      DrawStep(|power - {d}|, cap);
    }
  }

  lemma OneKeyLess(power: map<string, real>, d: string)
    requires d in power
    ensures |power| == |power - {d}| + 1
  {
    assert power == (power - {d})[d := power[d]];
  }

  lemma OneFittingLess(power: map<string, real>, cap: real, d: string)
    requires d in power
    ensures |Fitting(power, cap)| == |Fitting(power - {d}, cap)| + if 0.0 < power[d] <= cap then 1 else 0
  {
    if 0.0 < power[d] <= cap {
      assert Fitting(power, cap) == Fitting(power - {d}, cap) + {d};
    } else {
      assert Fitting(power, cap) == Fitting(power - {d}, cap);
    }
  }

  /** Only the deployments that fit count, each for more than half the cap and at most the cap. */
  lemma {:induction false} FittingSums(power: map<string, real>, forecast: map<string, real>, cap: real)
    requires FitOrNothing(power, forecast, cap)
    ensures var n := |Fitting(power, cap)|;
            && Sum(forecast) <= Draw(n, cap)
            && (if n == 0 then Sum(forecast) == 0.0 else 2.0 * Sum(forecast) > Draw(n, cap))
    decreases power
  {
    if d :| d in power {
      FittingSums(power - {d}, forecast - {d}, cap);
      SumSplit(forecast, d);
      OneFittingLess(power, cap, d);
      DrawStep(|Fitting(power - {d}, cap)|, cap);
    }
  }

  /**
    The two-sided bound on the status of any published tick that read only non-negative powers: with any
    power at all, all of the n deployments drew some, and n*cap - current < forecast <= n*cap; with none,
    both status values are zero.
  */
  lemma StatusBounds(refCount: nat, readings: Readings, cap: int)
    requires cap >= 0 && forall d :: d in readings ==> readings[d].power >= 0.0
    requires LimitsFor(Powers(readings), Some(cap)).Ok?
    ensures var Status(current, forecast) :=
              Publication(refCount, readings, LimitsFor(Powers(readings), Some(cap)).value).status;
            if exists d :: d in readings && readings[d].power > 0.0
            then Draw(|readings|, cap as real) - current < forecast <= Draw(|readings|, cap as real)
            else current == 0.0 && forecast == 0.0
  {
    var power := Powers(readings);
    var limits := LimitsFor(power, Some(cap)).value;
    SumNonNegative(power);
    if d :| d in readings && readings[d].power > 0.0 {
      assert power[d] > 0.0;
      assert forall e :: e in power && power[e] == 0.0 ==> StrategyRaises(power, Some(cap));
      StrategyForecastShape(power, cap);
      SameSize(power, readings);
      ForecastSums(power, StrategyForecast(power, cap), cap as real);
    } else {
      assert forall e :: e in power ==> power[e] == 0.0;
      SumNonNegative(Forecast(power, limits));
    }
  }

  lemma SameSize<V, W>(a: map<string, V>, b: map<string, W>)
    requires a.Keys == b.Keys
    ensures |a| == |b|
  {
    assert |a| == |a.Keys| && |b| == |b.Keys|;
  }

  /**
    The power constraint, on the forecast of any published tick that read only non-negative powers. It stays
    within the cap exactly when at most one measured deployment draws some power and no more than the cap.
  */
  lemma ForecastWithinCap(refCount: nat, readings: Readings, cap: int)
    requires cap >= 0 && forall d :: d in readings ==> readings[d].power >= 0.0
    requires LimitsFor(Powers(readings), Some(cap)).Ok?
    ensures var limits := LimitsFor(Powers(readings), Some(cap)).value;
            Publication(refCount, readings, limits).status.forecastPowerConsumption <= cap as real
            <==> |Fitting(Powers(readings), cap as real)| <= 1
  {
    var power, c := Powers(readings), cap as real;
    var limits := LimitsFor(power, Some(cap)).value;
    SumNonNegative(power);
    if d :| d in power && power[d] > 0.0 {
      assert forall e :: e in power && power[e] == 0.0 ==> StrategyRaises(power, Some(cap));
      StrategyForecastShape(power, cap);
      FittingDecides(power, StrategyForecast(power, cap), c);
    } else {
      assert forall e :: e in power ==> power[e] == 0.0;
      SumNonNegative(Forecast(power, limits));
      assert Fitting(power, c) == {};
    }
  }

  /** Values over half the cap for deployments that fit, and zero for others: one such value stays within the cap. */
  lemma FittingDecides(power: map<string, real>, forecast: map<string, real>, cap: real)
    requires cap >= 0.0 && FitOrNothing(power, forecast, cap)
    ensures Sum(forecast) <= cap <==> |Fitting(power, cap)| <= 1
  {
    var n := |Fitting(power, cap)|;
    FittingSums(power, forecast, cap);
    DrawStep(0, cap);
    DrawStep(1, cap);
    DrawMonotone(n, 1, cap);
    DrawMonotone(2, n, cap);
  }

  /** Two deployments at 500 W under a cap of 1000 W: a forecast of 2000 W. */
  lemma ForecastExceedsCap()
    ensures var power := map["a" := 500.0, "b" := 500.0];
            OptimalInputs(power, Some(1000)) && Sum(StrategyForecast(power, 1000)) == 2000.0
  {
    var power := map["a" := 500.0, "b" := 500.0];
    var forecast := StrategyForecast(power, 1000);
    assert 1000 as real / 500.0 == 2.0;
    assert forecast == map["a" := 1000.0, "b" := 1000.0];
    SumSplit(forecast, "a");
    assert forecast - {"a"} == map["b" := 1000.0];
    SumOfOne(map["b" := 1000.0], "b");
  }
}
