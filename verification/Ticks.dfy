/**
  The meaning of the two handlers of python/climatik_operator/operator.py on values: what one
  timer tick and one create event do to the ScaledObjects, and what a tick publishes.
*/
module Ticks {
  import opened Prelude
  import opened Rounding
  import opened Sums
  import opened Strategies
  import opened Cluster

  /** The replicas and the power of a deployment, as one iteration of the read loop finds them. */
  datatype Reading = Reading(replicas: int, power: real)

  type Readings = map<string, Reading>

  /**
    The environment of one tick: the read loop, the answers of the deployment and power queries of
    each of its iterations (a deployment without an answer makes the iteration raise), the write loop.
  */
  datatype Env = Env(readScript: Script, answers: seq<Readings>, writeScript: Script)

  function AnswerAt(env: Env, i: nat, target: string): Option<Reading> {
    if i < |env.answers| && target in env.answers[i] then Some(env.answers[i][target]) else None
  }

  /** The reading that iteration `i` adds, from the object as it then is; none when a call raises. */
  function ReadOne(s: Store, key: Option<ObjectKey>, env: Env, i: nat): Option<Reading> {
    if !Reads(s, key, CallAt(env.readScript, i).succeeds) then None
    else AnswerAt(env, i, s[key.value].target)
  }

  datatype Measured = Measured(store: Store, changes: seq<Change>, readings: Option<Readings>)

  /** The read loop from reference `i` on; the dictionaries keep the last reading of a deployment. */
  function ReadFrom(s: Store, keys: seq<Option<ObjectKey>>, env: Env, i: nat, readings: Readings): Measured
    requires i <= |keys|
    decreases |keys| - i
  {
    if i == |keys| then Measured(s, [], Some(readings))
    else
      var edits := CallAt(env.readScript, i).edits;
      var s1 := Interfere(s, edits);
      var reading := ReadOne(s1, keys[i], env, i);
      if reading.None? then Measured(s1, Logged(edits), None)
      else
        var rest := ReadFrom(s1, keys, env, i + 1, readings[s1[keys[i].value].target := reading.value]);
        Measured(rest.store, Logged(edits) + rest.changes, rest.readings)
  }

  function Powers(readings: Readings): (power: map<string, real>)
    ensures power.Keys == readings.Keys
  {
    map d | d in readings :: readings[d].power
  }

  function Replicas(readings: Readings): (replicas: map<string, int>)
    ensures replicas.Keys == readings.Keys
  {
    map d | d in readings :: readings[d].replicas
  }

  /** The strategy is asked only when there is power to cap; the defaults do the rest. */
  ghost function LimitsFor(power: map<string, real>, cap: Option<int>): Result<map<string, int>> {
    if Sum(power) <= 0.0 then Ok(map[])
    else if StrategyRaises(power, cap) then Raised
    else Ok(ReplicaLimits(power, cap))
  }

  function Forecast(power: map<string, real>, limits: map<string, int>): (forecast: map<string, real>)
    ensures forecast.Keys == power.Keys
  {
    map d | d in power :: Draw(Lookup(limits, d, 1), power[d])
  }

  /** patch['status'] */
  datatype Status = Status(currentPowerConsumption: real, forecastPowerConsumption: real)

  /** What a tick that reaches its end hands to the gauges and to the status. */
  datatype Published = Published(refCount: nat, readings: Readings, forecast: map<string, real>, status: Status)

  ghost function Publication(refCount: nat, readings: Readings, limits: map<string, int>): Published {
    var power := Powers(readings);
    var forecast := Forecast(power, limits);
    Published(refCount, readings, forecast, Status(Sum(power), Sum(forecast)))
  }

  /** `changes` is all that happened to the store meanwhile, in order. */
  datatype TickResult = TickResult(store: Store, changes: seq<Change>, published: Option<Published>)

  /** One tick, from the objects the references name. */
  ghost function TickOn(s: Store, keys: seq<Option<ObjectKey>>, cap: Option<int>, env: Env): TickResult {
    var m := ReadFrom(s, keys, env, 0, map[]);
    if m.readings.None? then TickResult(m.store, m.changes, None)
    else
      var limits := LimitsFor(Powers(m.readings.value), cap);
      if limits.Raised? then TickResult(m.store, m.changes, None)
      else
        var w := WriteFrom(m.store, keys, limits.value, 1, env.writeScript, 0);
        TickResult(w.store, m.changes + w.changes,
                   if w.completed then Some(Publication(|keys|, m.readings.value, limits.value)) else None)
  }

  /** monitor_power_usage */
  ghost function Tick(s: Store, spec: Spec, namespace: string, env: Env): TickResult {
    TickOn(s, KeysOf(spec.Refs(), namespace), spec.powerCapLimit, env)
  }

  /** The schema: a non-negative integer cap, and references with all their fields. */
  predicate ValidSpec(spec: Spec) {
    && spec.powerCapLimit.Some? && spec.powerCapLimit.value >= 0
    && spec.scaledObjectRefs.Some?
    && forall ref :: ref in spec.scaledObjectRefs.value ==>
                       ref.apiVersion.Some? && ref.kind.Some? && ref.name.Some?
  }

  /** calculate_max_replicas(power_cap_limit) */
  function InitialMaxReplicas(cap: int): int {
    Trunc(cap as real / 100.0)
  }

  datatype CreateResult = CreateResult(store: Store, changes: seq<Change>, completed: bool)

  /** create_power_capping_config */
  function Create(s: Store, spec: Spec, namespace: string, script: Script): CreateResult {
    if !ValidSpec(spec) then CreateResult(s, [], false)
    else
      var w := WriteFrom(s, KeysOf(spec.Refs(), namespace), map[],
                         InitialMaxReplicas(spec.powerCapLimit.value), script, 0);
      CreateResult(w.store, w.changes, w.completed)
  }
}
