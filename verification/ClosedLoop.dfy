/**
  The timer in closed loop with the cluster it controls.

  The plant is a hypothesis, stated once in module-level predicates: after a published tick the replicas of
  a deployment are the maxReplicaCount of the objects that target it, after a failed tick they are as
  before, and a deployment draws a fixed positive power for each replica.
*/
module ClosedLoop {
  import opened Prelude
  import opened Rounding
  import opened Sums
  import opened Strategies
  import opened Cluster
  import opened ChangeLog
  import opened WriteLoop
  import opened ReadLoop
  import opened Ticks
  import opened Iteration

  /** The readings of deployments at `x` replicas of `watts` each. */
  function PlantReadings(watts: map<string, real>, x: Vector): Readings {
    map d | d in x && d in watts :: Reading(x[d], Draw(x[d], watts[d]))
  }

  /** The power that each deployment draws. */
  function Draws(watts: map<string, real>, x: Vector): (power: map<string, real>)
    ensures power.Keys == x.Keys * watts.Keys
    ensures forall d :: d in power ==> power[d] == Draw(x[d], watts[d])
  {
    Powers(PlantReadings(watts, x))
  }

  /** A tick in which no call fails, nobody interferes and the readings are the plant's. */
  function PlantEnv(n: nat, watts: map<string, real>, x: Vector): Env {
    Env([], seq(n, _ => PlantReadings(watts, x)), [])
  }

  /** Every reference names an object; the plant knows watts and replicas of exactly the targeted deployments. */
  ghost predicate Plant(s: Store, keys: seq<Option<ObjectKey>>, cap: int, watts: map<string, real>, x: Vector) {
    && Loop(cap, watts, x)
    && (forall i :: 0 <= i < |keys| ==> keys[i].Some? && keys[i].value in s)
    && x.Keys == TargetsOf(s, keys)
  }

  /** The replicas of each deployment are the count on the objects that target it. */
  ghost predicate Follows(s: Store, keys: seq<Option<ObjectKey>>, x: Vector) {
    forall k :: k in Referenced(keys) && k in s ==> s[k].target in x && s[k].maxReplicaCount == x[s[k].target]
  }

  /** The readings that a tick takes from the plant are the plant's. */
  lemma {:induction false} PlantIsMeasured(s: Store, keys: seq<Option<ObjectKey>>, cap: int, watts: map<string, real>,
                                           x: Vector, i: nat, readings: Readings)
    requires Plant(s, keys, cap, watts, x) && i <= |keys|
    requires forall d :: d in readings ==> d in x && readings[d] == PlantReadings(watts, x)[d]
    requires forall j :: 0 <= j < i ==> s[keys[j].value].target in readings
    ensures ReadFrom(s, keys, PlantEnv(|keys|, watts, x), i, readings) == Measured(s, [], Some(PlantReadings(watts, x)))
    decreases |keys| - i
  {
    var env := PlantEnv(|keys|, watts, x);
    if i < |keys| {
      NoEdits(s);
      var d := s[keys[i].value].target;
      assert d in TargetsOf(s, keys);
      assert ReadOne(s, keys[i], env, i) == Some(PlantReadings(watts, x)[d]);
      PlantIsMeasured(s, keys, cap, watts, x, i + 1, readings[d := PlantReadings(watts, x)[d]]);
    } else {
      forall d | d in x ensures d in readings {
        var j :| 0 <= j < |keys| && s[keys[j].value].target == d;
      }
      assert readings == PlantReadings(watts, x);
    }
  }

  /** A tick on the plant's readings is the strategy's answer to them, written without disturbance. */
  lemma PlantTickIs(s: Store, keys: seq<Option<ObjectKey>>, cap: int, watts: map<string, real>, x: Vector)
    requires Plant(s, keys, cap, watts, x)
    ensures var limits := LimitsFor(Draws(watts, x), Some(cap));
            TickOn(s, keys, Some(cap), PlantEnv(|keys|, watts, x))
            == if limits.Raised? then TickResult(s, [], None)
               else
                 var w := WriteFrom(s, keys, limits.value, 1, [], 0);
                 TickResult(w.store, w.changes,
                            if w.completed then Some(Publication(|keys|, PlantReadings(watts, x), limits.value))
                            else None)
  {
    PlantIsMeasured(s, keys, cap, watts, x, 0, map[]);
    var limits := LimitsFor(Draws(watts, x), Some(cap));
    if limits.Ok? {
      var w := WriteFrom(s, keys, limits.value, 1, [], 0);
      assert [] + w.changes == w.changes;
    }
  }

  /**
    One tick of the closed loop. It is published exactly when the replicas are not mixed; then every
    referenced object holds the next count of its target. If it fails, the store is untouched.
  */
  lemma PlantTick(s: Store, keys: seq<Option<ObjectKey>>, cap: int, watts: map<string, real>, x: Vector)
    requires Plant(s, keys, cap, watts, x)
    ensures var r := TickOn(s, keys, Some(cap), PlantEnv(|keys|, watts, x));
            && SameTargets(s, r.store)
            && (r.published.Some? <==> !Mixed(x))
            && (if Mixed(x) then r.store == s else Follows(r.store, keys, Next(cap, watts, x)))
  {
    PlantTickIs(s, keys, cap, watts, x);
    PlantLimits(cap, watts, x);
    var limits := LimitsFor(Draws(watts, x), Some(cap));
    if limits.Ok? {
      WritesFollow(s, keys, limits.value, Next(cap, watts, x));
    }
  }

  /** The status of a published tick: the power drawn, and the forecast of the next counts. */
  lemma PlantStatus(s: Store, keys: seq<Option<ObjectKey>>, cap: int, watts: map<string, real>, x: Vector)
    requires Plant(s, keys, cap, watts, x)
    requires TickOn(s, keys, Some(cap), PlantEnv(|keys|, watts, x)).published.Some?
    ensures TickOn(s, keys, Some(cap), PlantEnv(|keys|, watts, x)).published.value.status
            == Status(Sum(Draws(watts, x)), Sum(ForecastDraws(cap, watts, x)))
  {
    PlantTickIs(s, keys, cap, watts, x);
    PlantPublication(|keys|, cap, watts, x);
  }

  lemma PlantPublication(refCount: nat, cap: int, watts: map<string, real>, x: Vector)
    requires Loop(cap, watts, x)
    ensures var limits := LimitsFor(Draws(watts, x), Some(cap));
            limits.Ok? ==> Publication(refCount, PlantReadings(watts, x), limits.value).status
                           == Status(Sum(Draws(watts, x)), Sum(ForecastDraws(cap, watts, x)))
  {
    PlantLimits(cap, watts, x);
    var limits := LimitsFor(Draws(watts, x), Some(cap));
    if limits.Ok? {
      assert Forecast(Draws(watts, x), limits.value) == ForecastDraws(cap, watts, x);
    }
  }

  /** The forecast of a tick: the next count of each deployment, times all that the deployment draws now. */
  function ForecastDraws(cap: int, watts: map<string, real>, x: Vector): (forecast: map<string, real>)
    requires Loop(cap, watts, x)
    ensures forecast.Keys == x.Keys
  {
    map d | d in x :: Draw(Next(cap, watts, x)[d], Draw(x[d], watts[d]))
  }

  /** The strategy's answer on the plant's readings: none when mixed, else the next counts. */
  lemma PlantLimits(cap: int, watts: map<string, real>, x: Vector)
    requires Loop(cap, watts, x)
    ensures var limits := LimitsFor(Draws(watts, x), Some(cap));
            && (limits.Raised? <==> Mixed(x))
            && (limits.Ok? ==> forall d :: d in x ==> Lookup(limits.value, d, 1) == Next(cap, watts, x)[d])
  {
    PlantPower(watts, x);
  }

  /** Undisturbed writes of a table that holds `y` leave counts that `y` follows. */
  lemma WritesFollow(s: Store, keys: seq<Option<ObjectKey>>, limits: map<string, int>, y: Vector)
    requires forall i :: 0 <= i < |keys| ==> keys[i].Some? && keys[i].value in s
    requires y.Keys == TargetsOf(s, keys) && forall d :: d in y ==> Lookup(limits, d, 1) == y[d]
    ensures var w := WriteFrom(s, keys, limits, 1, [], 0);
            w.completed && SameTargets(s, w.store) && Follows(w.store, keys, y)
  {
    WritesComplete(s, keys, limits, 1, [], 0);
    WritesArePointwise(s, keys, limits, 1, [], 0);
    assert keys[0..] == keys;
    forall k | k in Referenced(keys) ensures k in s && s[k].target in y {
      var i :| 0 <= i < |keys| && keys[i] == Some(k);
      assert s[keys[i].value].target in TargetsOf(s, keys);
    }
  }

  /** The plant's power is positive in sum when some deployment runs, and the strategy raises when another does not. */
  lemma PlantPower(watts: map<string, real>, x: Vector)
    requires PositiveWatts(watts) && x.Keys == watts.Keys
    ensures var power := Draws(watts, x);
            && (Sum(power) > 0.0 <==> exists d :: d in x && x[d] > 0)
            && forall cap: int :: StrategyRaises(power, Some(cap)) <==> exists d :: d in x && x[d] == 0
  {
    var power := Draws(watts, x);
    forall d | d in x ensures power[d] >= 0.0 && (x[d] == 0 <==> power[d] == 0.0) {
      Positive(x[d], watts[d]);
    }
    SumNonNegative(power);
    if d :| d in x && x[d] > 0 { assert d in power && power[d] != 0.0; }
    if d :| d in x && x[d] == 0 { assert d in power && power[d] == 0.0; }
  }

  /** The timer ticks on the store, and the plant follows what was written. */
  ghost predicate StepOf(keys: seq<Option<ObjectKey>>, cap: int, watts: map<string, real>,
                         s: Store, x: Vector, s': Store, x': Vector) {
    var tick := TickOn(s, keys, Some(cap), PlantEnv(|keys|, watts, x));
    && s' == tick.store
    && x'.Keys == watts.Keys
    && (if tick.published.Some? then Follows(s', keys, x') else x' == x)
  }

  /** An endless history of the loop: the store and the replicas at each time. */
  datatype History = History(keys: seq<Option<ObjectKey>>, cap: int, watts: map<string, real>,
                             stores: nat -> Store, xs: nat -> Vector)
  {
    /** The tick at time `t`. */
    ghost function TickAt(t: nat): TickResult {
      TickOn(stores(t), keys, Some(cap), PlantEnv(|keys|, watts, xs(t)))
    }

    ghost predicate Publishes(t: nat) {
      TickAt(t).published.Some?
    }

    ghost predicate StepAt(t: nat) {
      StepOf(keys, cap, watts, stores(t), xs(t), stores(t + 1), xs(t + 1))
    }

    /** The replicas alone. */
    function Replicas(): Trajectory {
      Trajectory(cap, watts, xs)
    }

    ghost predicate IsRun() {
      && Plant(stores(0), keys, cap, watts, xs(0))
      && forall t: nat :: StepAt(t)
    }
  }

  lemma StepIsNext(h: History, t: nat)
    requires Plant(h.stores(t), h.keys, h.cap, h.watts, h.xs(t)) && h.StepAt(t)
    ensures h.xs(t + 1) == Next(h.cap, h.watts, h.xs(t))
    ensures Plant(h.stores(t + 1), h.keys, h.cap, h.watts, h.xs(t + 1))
    ensures h.Publishes(t) <==> !Mixed(h.xs(t))
  {
    var s, x := h.stores(t), h.xs(t);
    PlantTick(s, h.keys, h.cap, h.watts, x);
    SameTargetsOf(s, h.stores(t + 1), h.keys);
    if !Mixed(x) {
      FollowersAgree(h.stores(t + 1), h.keys, h.xs(t + 1), Next(h.cap, h.watts, x));
    }
  }

  lemma SameTargetsOf(s: Store, s': Store, keys: seq<Option<ObjectKey>>)
    requires SameTargets(s, s')
    ensures TargetsOf(s, keys) == TargetsOf(s', keys)
  {
  }

  /** The written counts determine the replicas. */
  lemma FollowersAgree(s: Store, keys: seq<Option<ObjectKey>>, x: Vector, y: Vector)
    requires x.Keys == y.Keys == TargetsOf(s, keys)
    requires Follows(s, keys, x) && Follows(s, keys, y)
    ensures x == y
  {
    forall d | d in x ensures x[d] == y[d] {
      var i :| 0 <= i < |keys| && keys[i].Some? && keys[i].value in s && s[keys[i].value].target == d;
      assert keys[i].value in Referenced(keys);
    }
  }

  /** The plant's hypothesis holds all along a run. */
  lemma {:induction false} RunKeepsPlant(h: History, t: nat)
    requires h.IsRun()
    ensures Plant(h.stores(t), h.keys, h.cap, h.watts, h.xs(t))
  {
    if t > 0 {
      RunKeepsPlant(h, t - 1);
      assert h.StepAt(t - 1);
      StepIsNext(h, t - 1);
    }
  }

  /** In a run, every state is the next of the one before, and its tick is published unless it is mixed. */
  lemma RunIsIteration(h: History, t: nat)
    requires h.IsRun()
    ensures Plant(h.stores(t), h.keys, h.cap, h.watts, h.xs(t))
    ensures h.xs(t + 1) == Next(h.cap, h.watts, h.xs(t))
    ensures h.Publishes(t) <==> !Mixed(h.xs(t))
  {
    RunKeepsPlant(h, t);
    assert h.StepAt(t);
    StepIsNext(h, t);
  }

  /** The replicas of a run are a trajectory. */
  lemma RunIsTrajectory(h: History)
    requires h.IsRun()
    ensures h.Replicas().Valid()
  {
    RunIsIteration(h, 0);
    forall t: nat ensures h.Replicas().Advances(t) {
      RunIsIteration(h, t);
    }
  }

  /**
    Any number of deployments, any start: from the third tick on the whole vector repeats every second
    tick. This covers the loops that get stuck, which repeat every tick.
  */
  lemma ClosedLoopHasPeriodTwo(h: History, t: nat)
    requires h.IsRun() && t >= 3
    ensures h.xs(t + 2) == h.xs(t)
  {
    RunIsTrajectory(h);
    ReturnsFromThree(h.Replicas(), t);
  }

  /** A single deployment repeats from the second tick on, from any count including zero. */
  lemma SingleDeploymentHasPeriodTwo(h: History, d: string, t: nat)
    requires h.IsRun() && h.watts.Keys == {d} && t >= 2
    ensures h.xs(t + 2) == h.xs(t)
  {
    RunIsTrajectory(h);
    OneDeploymentReturnsFromTwo(h.Replicas(), d, t);
  }

  /**
    From a start with every deployment running within the cap, every tick is published, every deployment
    keeps running within the cap, and the vector repeats from the first tick on.
  */
  lemma InRangeLoopIsSafe(h: History, t: nat)
    requires h.IsRun() && InRange(h.cap, h.watts, h.xs(0))
    ensures h.xs(t).Keys == h.watts.Keys && InRange(h.cap, h.watts, h.xs(t))
    ensures h.Publishes(t)
    ensures t >= 1 ==> h.xs(t + 2) == h.xs(t)
  {
    RunIsTrajectory(h);
    StaysInRange(h.Replicas(), t);
    if t >= 1 { ReturnsFromOne(h.Replicas(), t); }
    RunIsIteration(h, t);
  }

  /**
    When the loop can be trusted to go on: every tick of a run is published exactly when the run starts
    steady, that is, with all deployments running within the cap, or with all of them idle or all over the
    cap and watts of which one replica fits for all or for none.
  */
  lemma EveryTickIsPublished(h: History)
    requires h.IsRun()
    ensures h.xs(0).Keys == h.watts.Keys
    ensures (forall t: nat :: h.Publishes(t)) <==> Steady(h.cap, h.watts, h.xs(0))
  {
    RunIsTrajectory(h);
    SteadyDecides(h.Replicas());
    if Steady(h.cap, h.watts, h.xs(0)) {
      forall t: nat ensures h.Publishes(t) { RunIsIteration(h, t); }
    } else {
      var t: nat :| t < 4 && Mixed(h.xs(t));
      RunIsIteration(h, t);
    }
  }

  /** So a run that is going to fail does so within its first four ticks. */
  lemma FourTicksDecide(h: History)
    requires h.IsRun()
    ensures (forall t: nat :: h.Publishes(t)) <==> (forall t: nat :: t < 4 ==> h.Publishes(t))
  {
    RunIsTrajectory(h);
    SteadyDecides(h.Replicas());
    EveryTickIsPublished(h);
    if !Steady(h.cap, h.watts, h.xs(0)) {
      var t: nat :| t < 4 && Mixed(h.xs(t));
      RunIsIteration(h, t);
    }
  }

  /** A failed tick is for ever: nothing moves any more, neither the replicas nor the store. */
  lemma FailedTickIsForEver(h: History, from: nat, t: nat)
    requires h.IsRun() && from <= t && !h.Publishes(from)
    ensures !h.Publishes(t) && h.xs(t) == h.xs(from) && h.stores(t) == h.stores(from)
  {
    RunIsIteration(h, from);
    MixedIsForEver(h, from, t);
    RunIsIteration(h, t);
  }

  lemma {:induction false} MixedIsForEver(h: History, from: nat, t: nat)
    requires h.IsRun() && from <= t && Mixed(h.xs(from))
    ensures h.xs(t) == h.xs(from) && h.stores(t) == h.stores(from)
    decreases t
  {
    if from < t {
      MixedIsForEver(h, from, t - 1);
      MixedStays(h, t - 1);
    }
  }

  lemma MixedStays(h: History, t: nat)
    requires h.IsRun() && Mixed(h.xs(t))
    ensures h.xs(t + 1) == h.xs(t) && h.stores(t + 1) == h.stores(t)
  {
    RunIsIteration(h, t);
    assert h.StepAt(t);
    PlantTick(h.stores(t), h.keys, h.cap, h.watts, h.xs(t));
  }

  // ---- Runs exist ----

  /** The store and the replicas one tick later. */
  ghost function StateAfter(keys: seq<Option<ObjectKey>>, cap: int, watts: map<string, real>, s: Store, x: Vector):
    (after: (Store, Vector))
    requires Plant(s, keys, cap, watts, x)
    ensures Plant(after.0, keys, cap, watts, after.1)
    ensures StepOf(keys, cap, watts, s, x, after.0, after.1)
  {
    var tick := TickOn(s, keys, Some(cap), PlantEnv(|keys|, watts, x));
    PlantTick(s, keys, cap, watts, x);
    SameTargetsOf(s, tick.store, keys);
    (tick.store, Next(cap, watts, x))
  }

  /** The store and the replicas after `t` ticks. */
  ghost function StateAt(keys: seq<Option<ObjectKey>>, cap: int, watts: map<string, real>, s: Store, x: Vector, t: nat):
    (state: (Store, Vector))
    requires Plant(s, keys, cap, watts, x)
    ensures Plant(state.0, keys, cap, watts, state.1)
  {
    if t == 0 then (s, x)
    else
      var before := StateAt(keys, cap, watts, s, x, t - 1);
      StateAfter(keys, cap, watts, before.0, before.1)
  }

  lemma StatesStep(keys: seq<Option<ObjectKey>>, cap: int, watts: map<string, real>, s: Store, x: Vector, t: nat)
    requires Plant(s, keys, cap, watts, x)
    ensures var before, after := StateAt(keys, cap, watts, s, x, t), StateAt(keys, cap, watts, s, x, t + 1);
            StepOf(keys, cap, watts, before.0, before.1, after.0, after.1)
  {
  }

  /** From every start that meets the plant's hypothesis there is a run. */
  lemma RunFrom(s: Store, keys: seq<Option<ObjectKey>>, cap: int, watts: map<string, real>, x: Vector)
    returns (h: History)
    requires Plant(s, keys, cap, watts, x)
    ensures h.IsRun()
    ensures h.keys == keys && h.cap == cap && h.watts == watts && h.stores(0) == s && h.xs(0) == x
  {
    h := History(keys, cap, watts,
                 (t: nat) => StateAt(keys, cap, watts, s, x, t).0, (t: nat) => StateAt(keys, cap, watts, s, x, t).1);
    forall t: nat ensures h.StepAt(t) {
      StatesStep(keys, cap, watts, s, x, t);
    }
  }

  /**
    A run that fails: two deployments at one replica each under a cap of 100 W, one drawing 10 W and one
    200 W. The first tick stops the big one; no later tick is ever published.
  */
  lemma FailingRun() returns (h: History)
    ensures h.IsRun() && h.cap == 100 && h.watts == map["small" := 10.0, "big" := 200.0]
    ensures h.xs(0) == map["small" := 1, "big" := 1]
    ensures h.Publishes(0) && forall t: nat :: t >= 1 ==> !h.Publishes(t)
  {
    var a, b := ObjectKey("keda.sh", "v1alpha1", "ns", "scaledobjects", "a"),
                ObjectKey("keda.sh", "v1alpha1", "ns", "scaledobjects", "b");
    var s: Store := map[a := ScaledObject("small", 1, ""), b := ScaledObject("big", 1, "")];
    var watts, x := map["small" := 10.0, "big" := 200.0], map["small" := 1, "big" := 1];
    PlantOfTwo(s, a, b, 100, watts, x);
    OneOfTwoIsTooBig(100, watts, x);
    h := SecondTickFails(s, [Some(a), Some(b)], 100, watts, x);
  }

  /** A run that is mixed after its first tick: that tick is published, and no other. */
  lemma SecondTickFails(s: Store, keys: seq<Option<ObjectKey>>, cap: int, watts: map<string, real>, x: Vector)
    returns (h: History)
    requires Plant(s, keys, cap, watts, x) && !Mixed(x) && Mixed(Next(cap, watts, x))
    ensures h.IsRun()
    ensures h.keys == keys && h.cap == cap && h.watts == watts && h.stores(0) == s && h.xs(0) == x
    ensures h.Publishes(0) && forall t: nat :: t >= 1 ==> !h.Publishes(t)
  {
    h := RunFrom(s, keys, cap, watts, x);
    PublishesFirst(h);
    RunIsTrajectory(h);
    assert h.Replicas().Advances(0);
    FailsFrom(h, 1);
  }

  lemma PublishesFirst(h: History)
    requires h.IsRun() && !Mixed(h.xs(0))
    ensures h.Publishes(0)
  {
    RunIsIteration(h, 0);
  }

  lemma FailsFrom(h: History, from: nat)
    requires h.IsRun() && Mixed(h.xs(from))
    ensures forall t: nat :: t >= from ==> !h.Publishes(t)
  {
    forall t: nat | t >= from ensures !h.Publishes(t) {
      MixedIsForEver(h, from, t);
      RunIsIteration(h, t);
    }
  }

  lemma OneOfTwoIsTooBig(cap: int, watts: map<string, real>, x: Vector)
    requires Loop(cap, watts, x) && x == map["small" := 1, "big" := 1]
    requires watts["small"] <= cap as real < watts["big"]
    ensures !Mixed(x) && Mixed(Next(cap, watts, x))
  {
    assert "small" in watts && "big" in watts;
    OnesAreSteady(cap, watts, x);
  }

  lemma PlantOfTwo(s: Store, a: ObjectKey, b: ObjectKey, cap: int, watts: map<string, real>, x: Vector)
    requires Loop(cap, watts, x) && a in s && b in s && x.Keys == {s[a].target, s[b].target}
    ensures Plant(s, [Some(a), Some(b)], cap, watts, x)
  {
    var keys := [Some(a), Some(b)];
    assert keys[0].value == a && keys[1].value == b;
    assert s[keys[0].value].target in TargetsOf(s, keys) && s[keys[1].value].target in TargetsOf(s, keys);
  }

  /**
    The cap of a single deployment: after the first tick its power never exceeds the cap, exactly when one
    replica does not. (When one does, the loop starts a replica again every time it has stopped them all.)
  */
  lemma SingleDeploymentCap(h: History, d: string)
    requires h.IsRun() && h.watts.Keys == {d}
    ensures (forall t: nat :: t >= 1 && d in h.xs(t) ==> Draw(h.xs(t)[d], h.watts[d]) <= h.cap as real)
            <==> h.watts[d] <= h.cap as real
  {
    RunIsTrajectory(h);
    if h.watts[d] <= h.cap as real {
      forall t: nat | t >= 1 && d in h.xs(t) ensures Draw(h.xs(t)[d], h.watts[d]) <= h.cap as real {
        CappedAfterTick(h.Replicas(), d, t);
      }
    } else {
      OverCap(h.Replicas(), d);
    }
  }
}
