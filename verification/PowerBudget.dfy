/**
  The power that a closed loop really draws: against the forecast that was published for it, and against
  the cap that the project's problem statement puts on the sum of all deployments.
*/
module PowerBudget {
  import opened Prelude
  import opened Rounding
  import opened Sums
  import opened Cluster
  import opened Forecasts
  import opened Iteration
  import opened ClosedLoop

  /** The power that all deployments draw together. */
  ghost function TotalPower(watts: map<string, real>, x: Vector): real {
    Sum(Draws(watts, x))
  }

  // ---- The forecast and the next draw ----

  /** A limit times the whole reading is at least the limit's own draw, and equal for one replica or a limit of zero. */
  lemma ForecastPerReplica(x: nat, y: nat, watts: real)
    requires watts > 0.0 && x > 0
    ensures Draw(y, watts) <= Draw(y, Draw(x, watts))
    ensures Draw(y, watts) == Draw(y, Draw(x, watts)) <==> x == 1 || y == 0
  {
    DrawOfDraw(x, y, watts);
    MoreReplicas(x, y);
    ScaleMonotone(y as real, (x * y) as real, watts);
    ScaleMonotone((x * y) as real, y as real, watts);
  }

  lemma MoreReplicas(x: nat, y: nat)
    requires x > 0
    ensures y <= x * y
    ensures y == x * y <==> x == 1 || y == 0
  {
    if x > 1 && y > 0 {
      assert x * y == y + (x - 1) * y;
    }
  }

  /** Of running deployments, each forecast is at least the next draw. */
  lemma ForecastIsAtLeastDraws(cap: int, watts: map<string, real>, x: Vector)
    requires Loop(cap, watts, x) && AllPositive(x)
    ensures var y, forecast := Next(cap, watts, x), Sum(ForecastDraws(cap, watts, x));
            && TotalPower(watts, y) <= forecast
            && (TotalPower(watts, y) == forecast <==>
                forall d :: d in x ==> x[d] == 1 || Draw(x[d], watts[d]) > cap as real)
  {
    var y := Next(cap, watts, x);
    forall d | d in x
      ensures Draws(watts, y)[d] <= ForecastDraws(cap, watts, x)[d]
      ensures Draws(watts, y)[d] == ForecastDraws(cap, watts, x)[d] <==>
              x[d] == 1 || Draw(x[d], watts[d]) > cap as real
    {
      ForecastPerReplica(x[d], y[d], watts[d]);
      InRangeFits(cap, watts[d], x[d]);
    }
    SumCompare(Draws(watts, y), ForecastDraws(cap, watts, x));
  }

  /** Of idle deployments, the forecast is zero, and the next draw is one replica each. */
  lemma IdleForecast(cap: int, watts: map<string, real>, x: Vector)
    requires Loop(cap, watts, x) && AllZero(x)
    ensures Sum(ForecastDraws(cap, watts, x)) == 0.0
    ensures TotalPower(watts, Next(cap, watts, x)) == Sum(watts)
  {
    forall d | d in x
      ensures ForecastDraws(cap, watts, x)[d] == 0.0
      ensures Draws(watts, Next(cap, watts, x))[d] == watts[d]
    {
      DrawStep(0, watts[d]);
      DrawStep(0, 0.0);
    }
    SumNonNegative(ForecastDraws(cap, watts, x));
    assert Draws(watts, Next(cap, watts, x)) == watts;
  }

  /**
    What a published forecast is worth. Of idle deployments it is zero, and the next tick finds one replica
    each. Else it is never less than the power drawn at the next tick, and equal to it exactly when every
    deployment runs one replica or draws more than the cap, which stops it: the strategies multiply a count by
    the power of all replicas.
  */
  lemma ForecastAgainstNextPower(h: History, t: nat)
    requires h.IsRun() && h.Publishes(t)
    ensures h.xs(t).Keys == h.watts.Keys
    ensures var Status(current, forecast) := h.TickAt(t).published.value.status;
            && current == TotalPower(h.watts, h.xs(t))
            && (if AllZero(h.xs(t)) then forecast == 0.0 && TotalPower(h.watts, h.xs(t + 1)) == Sum(h.watts)
                else
                  && TotalPower(h.watts, h.xs(t + 1)) <= forecast
                  && (TotalPower(h.watts, h.xs(t + 1)) == forecast <==>
                      forall d :: d in h.xs(t) ==> h.xs(t)[d] == 1 || Draw(h.xs(t)[d], h.watts[d]) > h.cap as real))
  {
    RunIsIteration(h, t);
    PlantStatus(h.stores(t), h.keys, h.cap, h.watts, h.xs(t));
    if AllZero(h.xs(t)) {
      IdleForecast(h.cap, h.watts, h.xs(t));
    } else {
      ForecastIsAtLeastDraws(h.cap, h.watts, h.xs(t));
    }
  }

  // ---- The cap on the sum ----

  /** The draws after one tick of running deployments: the room for each, divided by its replicas. */
  function FirstPhase(cap: int, watts: map<string, real>, x: Vector): (draws: map<string, real>)
    requires Loop(cap, watts, x) && AllPositive(x)
    ensures draws.Keys == x.Keys
  {
    map d | d in x :: Draw(Room(cap, watts[d]) / x[d], watts[d])
  }

  /** The draws after two ticks of deployments that run within the cap. */
  function SecondPhase(cap: int, watts: map<string, real>, x: Vector): (draws: map<string, real>)
    requires Loop(cap, watts, x) && AllPositive(x)
    requires forall d :: d in x ==> x[d] <= Room(cap, watts[d])
    ensures draws.Keys == x.Keys
  {
    map d | d in x ::
      WithinRoom(Room(cap, watts[d]), x[d]);
      Draw(Room(cap, watts[d]) / (Room(cap, watts[d]) / x[d]), watts[d])
  }

  lemma WithinRoom(room: nat, x: nat)
    requires 0 < x <= room
    ensures room / x > 0
  {
    AtMostQuotient(room, x, 1);
  }

  /**
    What the counts at the start must be like for the sum of all draws to stay within the cap from the first
    tick on.

    Deployments that start all idle or all over the cap pass through one replica each: there must be one
    deployment only, and one replica of it must fit. Counts that start mixed stay as they are. Deployments of
    which some are over the cap and some within it go to their first phase and stick there. Deployments that all
    run within the cap alternate between two phases.
  */
  ghost predicate WithinBudget(cap: int, watts: map<string, real>, x: Vector)
    requires Loop(cap, watts, x)
  {
    if x != map[] && (AllZero(x) || AllOver(cap, watts, x)) then
      |watts| == 1 && forall d :: d in watts ==> watts[d] <= cap as real
    else if Mixed(x) then
      Sum(Draws(watts, x)) <= cap as real
    else
      && Sum(FirstPhase(cap, watts, x)) <= cap as real
      && ((forall d :: d in x ==> x[d] <= Room(cap, watts[d])) ==> Sum(SecondPhase(cap, watts, x)) <= cap as real)
  }

  lemma FirstPhaseIsNext(cap: int, watts: map<string, real>, x: Vector)
    requires Loop(cap, watts, x) && AllPositive(x)
    ensures Draws(watts, Next(cap, watts, x)) == FirstPhase(cap, watts, x)
  {
    forall d | d in x ensures Next(cap, watts, x)[d] == Room(cap, watts[d]) / x[d] {
      FitIsQuotient(cap, watts[d], x[d]);
    }
  }

  /** The counts within the room are those in range. */
  lemma RoomIsRange(cap: int, watts: map<string, real>, x: Vector)
    requires Loop(cap, watts, x) && AllPositive(x)
    ensures InRange(cap, watts, x) <==> forall d :: d in x ==> x[d] <= Room(cap, watts[d])
  {
    forall d | d in x ensures Draw(x[d], watts[d]) <= cap as real <==> x[d] <= Room(cap, watts[d]) {
      RoomBounds(cap, watts[d], x[d]);
    }
  }

  lemma SecondPhaseIsNext(cap: int, watts: map<string, real>, x: Vector)
    requires Loop(cap, watts, x) && AllPositive(x)
    requires forall d :: d in x ==> x[d] <= Room(cap, watts[d])
    ensures Draws(watts, Next(cap, watts, Next(cap, watts, x))) == SecondPhase(cap, watts, x)
  {
    var y := Next(cap, watts, x);
    forall d | d in x ensures y[d] == Room(cap, watts[d]) / x[d] && y[d] > 0 {
      FitIsQuotient(cap, watts[d], x[d]);
      WithinRoom(Room(cap, watts[d]), x[d]);
    }
    FirstPhaseIsNext(cap, watts, y);
    assert FirstPhase(cap, watts, y) == SecondPhase(cap, watts, x);
  }

  lemma OnesDraw(watts: map<string, real>, x: Vector)
    requires x.Keys == watts.Keys && AllOne(x)
    ensures Draws(watts, x) == watts
  {
    forall d | d in x ensures Draws(watts, x)[d] == watts[d] { DrawStep(0, watts[d]); }
  }

  /** One replica each, one of which is over the cap by itself. */
  lemma OnesOverCap(cap: int, watts: map<string, real>, x: Vector, d: string)
    requires Loop(cap, watts, x) && AllOne(x) && d in watts && watts[d] > cap as real
    ensures TotalPower(watts, x) > cap as real
  {
    OnesDraw(watts, x);
    SumAtLeast(watts, d);
  }

  /** One replica each, all of which fit alone: after the next tick at most one deployment fits beside itself. */
  lemma OnesNextPower(cap: int, watts: map<string, real>, x: Vector)
    requires Loop(cap, watts, x) && AllOne(x) && forall d :: d in watts ==> watts[d] <= cap as real
    ensures TotalPower(watts, Next(cap, watts, x)) <= cap as real <==> |watts| <= 1
  {
    var y, c := Next(cap, watts, x), cap as real;
    forall d | d in x ensures c < 2.0 * Draw(y[d], watts[d]) <= 2.0 * c {
      OneReplicaNext(cap, watts[d]);
    }
    FittingDecides(watts, Draws(watts, y), c);
    assert Fitting(watts, c) == watts.Keys;
    assert |watts.Keys| == |watts|;
  }

  /** A deployment at one replica that fits: its limit draws more than half the cap. */
  lemma OneReplicaNext(cap: int, watts: real)
    requires cap >= 0 && 0.0 < watts <= cap as real
    ensures cap as real < 2.0 * Draw(Fit(cap, watts, 1), watts) <= 2.0 * cap as real
  {
    DrawStep(0, watts);
    OneForecast(watts, cap as real);
  }

  /** From the first tick on, the power of the sum is always within the cap. */
  ghost predicate AlwaysWithin(r: Trajectory) {
    forall t: nat :: t >= 1 ==> TotalPower(r.watts, r.xs(t)) <= r.cap as real
  }

  lemma ThroughOnes(r: Trajectory, at: nat)
    requires r.Valid() && at >= 1 && AllOne(r.xs(at)) && r.watts != map[]
    ensures AlwaysWithin(r) <==> |r.watts| == 1 && forall d :: d in r.watts ==> r.watts[d] <= r.cap as real
  {
    assert r.Advances(at);
    var c := r.cap as real;
    if d :| d in r.watts && r.watts[d] > c {
      OnesOverCap(r.cap, r.watts, r.xs(at), d);
    } else {
      OnesNextPower(r.cap, r.watts, r.xs(at));
      assert |r.watts| >= 1 by { assert |r.watts.Keys| == |r.watts| && r.watts.Keys != {}; }
      if |r.watts| == 1 {
        OneDeploymentWithin(r);
      } else {
        assert at + 1 >= 1;
      }
    }
  }

  lemma OneDeploymentWithin(r: Trajectory)
    requires r.Valid() && |r.watts| == 1 && forall d :: d in r.watts ==> r.watts[d] <= r.cap as real
    ensures AlwaysWithin(r)
  {
    var d := OnlyKey(r.watts);
    forall t: nat | t >= 1 ensures TotalPower(r.watts, r.xs(t)) <= r.cap as real {
      assert r.Advances(t);
      assert d in r.xs(t);
      CappedAfterTick(r, d, t);
      SumOfOne(Draws(r.watts, r.xs(t)), d);
    }
  }

  lemma OnlyKey(m: map<string, real>) returns (d: string)
    requires |m| == 1
    ensures m.Keys == {d}
  {
    assert |m.Keys| == 1;
    d :| d in m.Keys;
    assert |m.Keys - {d}| == 0;
  }

  /** A loop that is back at its first state after two more ticks has no third phase. */
  lemma TwoPhases(r: Trajectory)
    requires r.Valid() && r.xs(3) == r.xs(1)
    ensures AlwaysWithin(r) <==>
            TotalPower(r.watts, r.xs(1)) <= r.cap as real && TotalPower(r.watts, r.xs(2)) <= r.cap as real
  {
    forall t: nat | t >= 1 ensures r.xs(t) == r.xs(1) || r.xs(t) == r.xs(2) {
      InTwoPhases(r, t);
    }
  }

  lemma {:induction false} InTwoPhases(r: Trajectory, t: nat)
    requires r.Valid() && r.xs(3) == r.xs(1) && t >= 1
    ensures r.xs(t) == r.xs(1) || r.xs(t) == r.xs(2)
  {
    if t > 2 {
      KeepsReturning(r, 1, t - 2);
      InTwoPhases(r, t - 2);
    }
  }

  /** From a start that is neither all idle nor all over the cap, the loop returns from the first tick on. */
  lemma OtherStartsReturn(r: Trajectory)
    requires r.Valid() && r.xs(0).Keys == r.watts.Keys
    requires r.xs(0) == map[] || (!AllZero(r.xs(0)) && !AllOver(r.cap, r.watts, r.xs(0)))
    ensures r.xs(3) == r.xs(1)
  {
    assert r.Advances(0) && r.Advances(1) && r.Advances(2);
    var x := r.xs(0);
    if InRange(r.cap, r.watts, x) {
      InRangeReturns(r.cap, r.watts, x);
    } else {
      UnevenFails(r.cap, r.watts, x);
    }
  }

  lemma IdleOrOverStartsAtOnes(r: Trajectory) returns (at: nat)
    requires r.Valid() && r.xs(0).Keys == r.watts.Keys
    requires AllZero(r.xs(0)) || AllOver(r.cap, r.watts, r.xs(0))
    ensures at >= 1 && AllOne(r.xs(at))
  {
    assert r.Advances(0) && r.Advances(1);
    if AllZero(r.xs(0)) {
      ZerosReturn(r.cap, r.watts, r.xs(0));
      at := 1;
    } else {
      OverStops(r.cap, r.watts, r.xs(0));
      ZerosReturn(r.cap, r.watts, r.xs(1));
      at := 2;
    }
  }

  /** A start that is mixed, or mixed after one tick: one phase only. */
  lemma StuckWithin(r: Trajectory)
    requires r.Valid() && Mixed(r.xs(1))
    ensures AlwaysWithin(r) <==> TotalPower(r.watts, r.xs(1)) <= r.cap as real
  {
    assert r.Advances(1) && r.Advances(2);
    TwoPhases(r);
  }

  lemma InRangeWithin(r: Trajectory)
    requires r.Valid() && Loop(r.cap, r.watts, r.xs(0)) && InRange(r.cap, r.watts, r.xs(0))
    ensures var x1 := Next(r.cap, r.watts, r.xs(0));
            AlwaysWithin(r) <==>
            TotalPower(r.watts, x1) <= r.cap as real && TotalPower(r.watts, Next(r.cap, r.watts, x1)) <= r.cap as real
  {
    assert r.Advances(0) && r.Advances(1);
    OtherStartsReturn(r);
    TwoPhases(r);
  }

  lemma UnevenWithin(r: Trajectory)
    requires r.Valid() && Loop(r.cap, r.watts, r.xs(0)) && AllPositive(r.xs(0))
    requires !InRange(r.cap, r.watts, r.xs(0)) && !AllOver(r.cap, r.watts, r.xs(0))
    ensures AlwaysWithin(r) <==> TotalPower(r.watts, Next(r.cap, r.watts, r.xs(0))) <= r.cap as real
  {
    assert r.Advances(0);
    UnevenFails(r.cap, r.watts, r.xs(0));
    StuckWithin(r);
  }

  /** The condition on running deployments, in terms of the states of the loop. */
  lemma RunningBudget(cap: int, watts: map<string, real>, x: Vector)
    requires Loop(cap, watts, x) && AllPositive(x) && (x == map[] || !AllOver(cap, watts, x))
    ensures var x1 := Next(cap, watts, x);
            WithinBudget(cap, watts, x) <==>
            && TotalPower(watts, x1) <= cap as real
            && (InRange(cap, watts, x) ==> TotalPower(watts, Next(cap, watts, x1)) <= cap as real)
  {
    FirstPhaseIsNext(cap, watts, x);
    RoomIsRange(cap, watts, x);
    if InRange(cap, watts, x) {
      SecondPhaseIsNext(cap, watts, x);
    }
  }

  lemma RunningWithin(r: Trajectory)
    requires r.Valid() && Loop(r.cap, r.watts, r.xs(0)) && AllPositive(r.xs(0))
    requires r.xs(0) == map[] || !AllOver(r.cap, r.watts, r.xs(0))
    ensures AlwaysWithin(r) <==> WithinBudget(r.cap, r.watts, r.xs(0))
  {
    RunningBudget(r.cap, r.watts, r.xs(0));
    if InRange(r.cap, r.watts, r.xs(0)) {
      InRangeWithin(r);
    } else {
      UnevenWithin(r);
    }
  }

  lemma TrajectoryWithinBudget(r: Trajectory)
    requires r.Valid() && Loop(r.cap, r.watts, r.xs(0))
    ensures AlwaysWithin(r) <==> WithinBudget(r.cap, r.watts, r.xs(0))
  {
    assert r.Advances(0);
    var x := r.xs(0);
    if x != map[] && (AllZero(x) || AllOver(r.cap, r.watts, x)) {
      var at := IdleOrOverStartsAtOnes(r);
      ThroughOnes(r, at);
    } else if Mixed(x) {
      StuckWithin(r);
    } else {
      RunningWithin(r);
    }
  }

  /**
    The power constraint on what is really drawn, for any number of deployments and any start, the loops that
    get stuck included: the sum of all draws stays within the cap from the first tick on exactly when the
    counts at the start are within budget.
  */
  lemma PowerStaysWithinCap(h: History)
    requires h.IsRun()
    ensures (forall t: nat :: t >= 1 ==> TotalPower(h.watts, h.xs(t)) <= h.cap as real)
            <==> WithinBudget(h.cap, h.watts, h.xs(0))
  {
    RunIsTrajectory(h);
    TrajectoryWithinBudget(h.Replicas());
    assert AlwaysWithin(h.Replicas()) <==>
      forall t: nat :: t >= 1 ==> TotalPower(h.watts, h.xs(t)) <= h.cap as real;
  }

  // ---- Runs that fail the two expectations ----

  /** A run of two deployments, each on one object of its own. */
  lemma RunOfTwo(cap: int, watts: map<string, real>, x: Vector) returns (h: History)
    requires Loop(cap, watts, x) && x.Keys == {"a", "b"}
    ensures h.IsRun() && h.cap == cap && h.watts == watts && h.xs(0) == x
  {
    var a, b := ObjectKey("keda.sh", "v1alpha1", "ns", "scaledobjects", "a"),
                ObjectKey("keda.sh", "v1alpha1", "ns", "scaledobjects", "b");
    var s: Store := map[a := ScaledObject("a", 1, ""), b := ScaledObject("b", 1, "")];
    PlantOfTwo(s, a, b, cap, watts, x);
    h := RunFrom(s, [Some(a), Some(b)], cap, watts, x);
  }

  lemma OnesGoOverCap(h: History)
    requires h.IsRun() && AllOne(h.xs(0)) && |h.watts| > 1 && forall d :: d in h.watts ==> h.watts[d] <= h.cap as real
    ensures TotalPower(h.watts, h.xs(1)) > h.cap as real
  {
    RunIsTrajectory(h);
    assert h.Replicas().Advances(0);
    OnesNextPower(h.cap, h.watts, h.xs(0));
  }

  /** Two deployments of 500 W a replica, one replica each, under a cap of 1000 W: after one tick they draw more. */
  lemma OverCapRun() returns (h: History)
    ensures h.IsRun() && h.cap == 1000 && h.watts == map["a" := 500.0, "b" := 500.0]
    ensures h.xs(0) == map["a" := 1, "b" := 1]
    ensures TotalPower(h.watts, h.xs(1)) > 1000.0
  {
    var watts, x := map["a" := 500.0, "b" := 500.0], map["a" := 1, "b" := 1];
    h := RunOfTwo(1000, watts, x);
    assert |watts.Keys| == 2 by { assert watts.Keys == {"a", "b"}; }
    OnesGoOverCap(h);
  }

  /** The tick at `t` publishes a forecast above the power that the next tick finds. */
  ghost predicate Misleads(h: History, t: nat) {
    && h.Publishes(t)
    && TotalPower(h.watts, h.xs(t + 1)) < h.TickAt(t).published.value.status.forecastPowerConsumption
  }

  /** A deployment of more than one replica, within the cap, puts the forecast above the next power. */
  lemma ReplicasMislead(h: History, t: nat, d: string)
    requires h.IsRun() && h.Publishes(t) && d in h.xs(t) && d in h.watts
    requires h.xs(t)[d] > 1 && Draw(h.xs(t)[d], h.watts[d]) <= h.cap as real
    ensures Misleads(h, t)
  {
    ForecastAgainstNextPower(h, t);
  }

  /** Two deployments of 100 W a replica, two replicas each, under a cap of 1000 W: the forecast is not what comes. */
  lemma MisleadingRun() returns (h: History)
    ensures h.IsRun() && h.cap == 1000 && h.watts == map["a" := 100.0, "b" := 100.0]
    ensures h.xs(0) == map["a" := 2, "b" := 2]
    ensures Misleads(h, 0)
  {
    var watts, x := map["a" := 100.0, "b" := 100.0], map["a" := 2, "b" := 2];
    assert x["a"] == 2 && watts["a"] == 100.0 && Draw(2, 100.0) == 200.0;
    h := RunOfTwo(1000, watts, x);
    StartMisleads(h, "a");
  }

  lemma StartMisleads(h: History, d: string)
    requires h.IsRun() && !Mixed(h.xs(0)) && d in h.xs(0) && d in h.watts
    requires h.xs(0)[d] > 1 && Draw(h.xs(0)[d], h.watts[d]) <= h.cap as real
    ensures Misleads(h, 0)
  {
    PublishesFirst(h);
    ReplicasMislead(h, 0, d);
  }
}
