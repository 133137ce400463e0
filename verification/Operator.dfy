/**
  The handlers of python/climatik_operator/operator.py as they run: loops over the references that fill
  dictionaries, patch the API server and set the gauges. Their contracts tie them to module Ticks.
*/
module Operator {
  import opened Prelude
  import opened Rounding
  import opened Sums
  import opened Strategies
  import opened Cluster
  import opened Ticks
  import opened Metrics

  /** create_power_capping_config; false where the handler raises. */
  method CreatePowerCappingConfig(spec: Spec, namespace: string, script: Script, api: ApiServer)
    returns (completed: bool)
    modifies api
    ensures var r := Create(old(api.objects), spec, namespace, script);
            api.objects == r.store && api.log == old(api.log) + r.changes && completed == r.completed
  {
    if !ValidSpec(spec) {
      return false;
    }
    var count := InitialMaxReplicas(spec.powerCapLimit.value);
    completed := api.WriteCounts(KeysOf(spec.Refs(), namespace), map[], count, script);
  }

  lemma Regroup(a: seq<Change>, b: seq<Change>, c: seq<Change>)
    ensures a + (b + c) == a + b + c
  {
  }

  /** One dictionary of pairs is a pair of dictionaries. */
  lemma OneMoreReading(readings: Readings, d: string, reading: Reading)
    ensures Replicas(readings[d := reading]) == Replicas(readings)[d := reading.replicas]
    ensures Powers(readings[d := reading]) == Powers(readings)[d := reading.power]
  {
  }

  /** The dictionaries that the read loop fills; ok is false where a call raises. */
  method MeasureDeployments(keys: seq<Option<ObjectKey>>, env: Env, api: ApiServer)
    returns (ok: bool, currentReplicas: map<string, int>, power: map<string, real>)
    modifies api
    ensures var m := ReadFrom(old(api.objects), keys, env, 0, map[]);
            && api.objects == m.store && api.log == old(api.log) + m.changes && ok == m.readings.Some?
            && (ok ==> currentReplicas == Replicas(m.readings.value) && power == Powers(m.readings.value))
  {
    currentReplicas, power := map[], map[];
    ghost var readings: Readings := map[];
    ghost var m := ReadFrom(api.objects, keys, env, 0, map[]);
    ghost var final, finalReadings, finalLog := m.store, m.readings, api.log + m.changes;
    for i := 0 to |keys|
      invariant m == ReadFrom(api.objects, keys, env, i, readings)
      invariant m.store == final && m.readings == finalReadings && api.log + m.changes == finalLog
      invariant currentReplicas == Replicas(readings) && power == Powers(readings)
    {
      ghost var before := api.log;
      api.Disturb(CallAt(env.readScript, i).edits);
      var reading := ReadOne(api.objects, keys[i], env, i);
      if reading.None? {
        return false, currentReplicas, power;
      }
      var deployment := api.objects[keys[i].value].target;
      currentReplicas := currentReplicas[deployment := reading.value.replicas];
      power := power[deployment := reading.value.power];
      OneMoreReading(readings, deployment, reading.value);
      readings := readings[deployment := reading.value];
      ghost var rest := ReadFrom(api.objects, keys, env, i + 1, readings);
      Regroup(before, Logged(CallAt(env.readScript, i).edits), rest.changes);
      m := rest;
    }
    ok := true;
  }

  /** power_capping_strategy.calculate_max_replicas, for the strategy the operator was started with. */
  method AskStrategy(strategy: Strategy, currentReplicas: map<string, int>, power: map<string, real>, cap: Option<int>)
    returns (r: Result<map<string, int>>)
    ensures r == if StrategyRaises(power, cap) then Raised else Ok(ReplicaLimits(power, cap))
  {
    match strategy
    case MaximizeReplicas =>
      r := MaximizeReplicasStrategy.CalculateMaxReplicas(currentReplicas, power, cap);
    case PrioritizeHighReplica =>
      r := PrioritizeHighReplicaStrategy.CalculateMaxReplicas(currentReplicas, power, cap);
  }

  /** What a published tick leaves on the gauges: its own deployments overwritten, all others as they were. */
  twostate predicate GaugesShow(metrics: PowerCappingMetrics, p: Published)
    requires p.forecast.Keys == p.readings.Keys
    reads metrics
  {
    && metrics.scaleObjects == Some(p.refCount)
    && Overwrites(old(metrics.replicas), metrics.replicas, p.readings.Keys)
    && Overwrites(old(metrics.powerConsumption), metrics.powerConsumption, p.readings.Keys)
    && Overwrites(old(metrics.forecastPowerConsumption), metrics.forecastPowerConsumption, p.readings.Keys)
    && (forall d :: d in p.readings ==>
          && metrics.replicas[d] == p.readings[d].replicas
          && metrics.powerConsumption[d] == p.readings[d].power
          && metrics.forecastPowerConsumption[d] == p.forecast[d])
    && metrics.kepler == old(metrics.kepler)
  }

  /** Exactly these labels may show something new. */
  ghost predicate Overwrites<V(!new)>(before: map<string, V>, after: map<string, V>, names: set<string>) {
    && after.Keys == before.Keys + names
    && forall d :: d in before && d !in names ==> after[d] == before[d]
  }

  /** One entry more of `written` over `before`. */
  lemma OneMoreEntry<V>(before: map<string, V>, written: map<string, V>, todo: set<string>, d: string)
    requires d in todo && d in written
    ensures (before + (written - todo))[d := written[d]] == before + (written - (todo - {d}))
  {
  }

  /** The first loop of lines 191 to 197: the measured gauges and the forecast dictionary, in any order. */
  method ShowMeasured(currentReplicas: map<string, int>, power: map<string, real>, limits: map<string, int>,
                      metrics: PowerCappingMetrics)
    returns (forecast: map<string, real>)
    requires currentReplicas.Keys == power.Keys
    modifies metrics`replicas, metrics`powerConsumption
    ensures forecast == Forecast(power, limits)
    ensures metrics.replicas == old(metrics.replicas) + currentReplicas
    ensures metrics.powerConsumption == old(metrics.powerConsumption) + power
  {
    ghost var replicas0, power0, whole := metrics.replicas, metrics.powerConsumption, Forecast(power, limits);
    forecast := map[];
    var todo := power.Keys;
    while todo != {}
      invariant todo <= power.Keys
      invariant forecast == map[] + (whole - todo)
      invariant metrics.replicas == replicas0 + (currentReplicas - todo)
      invariant metrics.powerConsumption == power0 + (power - todo)
      decreases todo
    {
      var d :| d in todo;
      OneMoreEntry(map[], whole, todo, d);
      OneMoreEntry(replicas0, currentReplicas, todo, d);
      OneMoreEntry(power0, power, todo, d);
      metrics.UpdateMeasured(d, currentReplicas[d], power[d]);
      forecast := forecast[d := Draw(Lookup(limits, d, 1), power[d])];
      todo := todo - {d};
    }
    assert power - {} == power && currentReplicas - {} == currentReplicas && map[] + (whole - {}) == whole;
  }

  /** The second loop, lines 199 to 201. */
  method ShowForecast(forecast: map<string, real>, metrics: PowerCappingMetrics)
    modifies metrics`forecastPowerConsumption
    ensures metrics.forecastPowerConsumption == old(metrics.forecastPowerConsumption) + forecast
  {
    ghost var before := metrics.forecastPowerConsumption;
    var todo := forecast.Keys;
    while todo != {}
      invariant todo <= forecast.Keys
      invariant metrics.forecastPowerConsumption == before + (forecast - todo)
      decreases todo
    {
      var d :| d in todo;
      OneMoreEntry(before, forecast, todo, d);
      metrics.UpdateForecastPowerConsumption(d, forecast[d]);
      todo := todo - {d};
    }
    assert forecast - {} == forecast;
  }

  /** The part of a gauge that shows the deployments in `names`. */
  function Shown(series: map<string, real>, names: set<string>): map<string, real> {
    map d | d in series && d in names :: series[d]
  }

  /** Overwriting some labels of a gauge shows, on those labels, exactly what was written. */
  lemma OverwrittenShown(before: map<string, real>, written: map<string, real>)
    ensures Shown(before + written, written.Keys) == written
  {
  }

  /**
    Lines 186 to 207: the gauges and the status. The power and forecast gauges of this tick's deployments
    add up to the two values of the status, whatever they showed before.
  */
  method Publish(refCount: nat, currentReplicas: map<string, int>, power: map<string, real>, limits: map<string, int>,
                 metrics: PowerCappingMetrics)
    returns (status: Status)
    requires currentReplicas.Keys == power.Keys
    modifies metrics
    ensures status == Status(Sum(power), Sum(Forecast(power, limits)))
    ensures metrics.scaleObjects == Some(refCount)
    ensures metrics.replicas == old(metrics.replicas) + currentReplicas
    ensures metrics.powerConsumption == old(metrics.powerConsumption) + power
    ensures metrics.forecastPowerConsumption == old(metrics.forecastPowerConsumption) + Forecast(power, limits)
    ensures metrics.kepler == old(metrics.kepler)
    ensures Sum(Shown(metrics.powerConsumption, power.Keys)) == status.currentPowerConsumption
    ensures Sum(Shown(metrics.forecastPowerConsumption, power.Keys)) == status.forecastPowerConsumption
  {
    metrics.UpdateScaleObjects(refCount);
    var forecast := ShowMeasured(currentReplicas, power, limits, metrics);
    ShowForecast(forecast, metrics);
    var current := SumValues(power);
    var expected := SumValues(forecast);
    OverwrittenShown(old(metrics.powerConsumption), power);
    OverwrittenShown(old(metrics.forecastPowerConsumption), forecast);
    status := Status(current, expected);
  }

  /**
    monitor_power_usage. The store, the log and the status are those of the tick; the gauges change only
    when the tick is published, and then the power and forecast gauges of this tick's deployments add up
    to the two values of the status, whatever they showed before.
  */
  method MonitorPowerUsage(spec: Spec, namespace: string, strategy: Strategy, env: Env, api: ApiServer,
                           metrics: PowerCappingMetrics)
    returns (status: Option<Status>)
    modifies api, metrics
    ensures var r := Tick(old(api.objects), spec, namespace, env);
            && api.objects == r.store && api.log == old(api.log) + r.changes
            && (r.published.None? ==> status.None? && unchanged(metrics))
            && (r.published.Some? ==>
                  && status == Some(r.published.value.status)
                  && r.published.value.forecast.Keys == r.published.value.readings.Keys
                  && GaugesShow(metrics, r.published.value))
    ensures status.Some? ==>
              var r := Tick(old(api.objects), spec, namespace, env);
              var names := r.published.value.readings.Keys;
              && Sum(Shown(metrics.powerConsumption, names)) == status.value.currentPowerConsumption
              && Sum(Shown(metrics.forecastPowerConsumption, names)) == status.value.forecastPowerConsumption
  {
    var keys := KeysOf(spec.Refs(), namespace);
    var measured, currentReplicas, power := MeasureDeployments(keys, env, api);
    if !measured {
      return None;
    }
    var totalPower := SumValues(power);
    var limits: map<string, int> := map[];
    if totalPower > 0.0 {
      var asked := AskStrategy(strategy, currentReplicas, power, spec.powerCapLimit);
      if asked.Raised? {
        return None;
      }
      limits := asked.value;
    }
    ghost var afterReads, logAfterReads := api.objects, api.log;
    var written := api.WriteCounts(keys, limits, 1, env.writeScript);
    Regroup(old(api.log), ReadFrom(old(api.objects), keys, env, 0, map[]).changes,
            WriteFrom(afterReads, keys, limits, 1, env.writeScript, 0).changes);
    if !written {
      return None;
    }
    var published := Publish(|keys|, currentReplicas, power, limits, metrics);
    status := Some(published);
  }
}
