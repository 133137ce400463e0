/**
  The integer iteration behind the closed loop: a deployment at x replicas draws x times its watts, and
  the next tick allows the truncated quotient of the cap by that draw.
*/
module Iteration {
  import opened Rounding

  /** The strategies' limit for a deployment that runs `x` replicas of `watts` each. */
  function Fit(cap: int, watts: real, x: nat): (y: nat)
    requires cap >= 0 && watts > 0.0 && x > 0
  {
    Positive(x, watts);
    TruncBounds(cap as real, Draw(x, watts));
    Trunc(cap as real / Draw(x, watts))
  }

  lemma Positive(x: int, watts: real)
    requires watts > 0.0
    ensures x > 0 <==> Draw(x, watts) > 0.0
    ensures x == 0 <==> Draw(x, watts) == 0.0
  {
    ScaleMonotone(0.0, x as real, watts);
    ScaleMonotone(x as real, 0.0, watts);
    DrawStep(0, watts);
  }

  /** The limit is at least y exactly when x times y replicas' worth of watts fits. */
  lemma FitAtLeast(cap: int, watts: real, x: nat, y: nat)
    requires cap >= 0 && watts > 0.0 && x > 0
    ensures y <= Fit(cap, watts, x) <==> Draw(x * y, watts) <= cap as real
  {
    Positive(x, watts);
    TruncIsGreatestFit(cap as real, Draw(x, watts), Fit(cap, watts, x));
    DrawMonotone(y, Fit(cap, watts, x), Draw(x, watts));
    DrawOfDraw(x, y, watts);
  }

  /** The whole replicas of `watts` each that the cap has room for. */
  function Room(cap: int, watts: real): (room: nat)
    requires cap >= 0 && watts > 0.0
  {
    TruncBounds(cap as real, watts);
    Trunc(cap as real / watts)
  }

  /** A count fits alone exactly when it is within the room. */
  lemma RoomBounds(cap: int, watts: real, n: nat)
    requires cap >= 0 && watts > 0.0
    ensures Draw(n, watts) <= cap as real <==> n <= Room(cap, watts)
  {
    TruncIsGreatestFit(cap as real, watts, Room(cap, watts));
    DrawMonotone(n, Room(cap, watts), watts);
  }

  lemma AtMostQuotient(room: nat, x: nat, y: nat)
    requires x > 0
    ensures x * y <= room <==> y <= room / x
  {
    var q := room / x;
    assert x * q <= room < x * q + x;
    if y <= q {
      MulMonotone(x, y, q);
    } else {
      MulMonotone(x, q + 1, y);
    }
  }

  lemma MulMonotone(x: nat, a: nat, b: nat)
    requires a <= b
    ensures x * a <= x * b
  {
  }

  /** The limit in closed form: the room for the deployment, divided by its replicas. */
  lemma FitIsQuotient(cap: int, watts: real, x: nat)
    requires cap >= 0 && watts > 0.0 && x > 0
    ensures Fit(cap, watts, x) == Room(cap, watts) / x
  {
    var fit, quotient := Fit(cap, watts, x), Room(cap, watts) / x;
    FitAtLeast(cap, watts, x, fit);
    RoomBounds(cap, watts, x * fit);
    AtMostQuotient(Room(cap, watts), x, fit);
    FitAtLeast(cap, watts, x, quotient);
    RoomBounds(cap, watts, x * quotient);
    AtMostQuotient(Room(cap, watts), x, quotient);
  }

  /** Fit is antitone and its own adjoint: y fits against x exactly when x fits against y. */
  lemma FitSymmetric(cap: int, watts: real, x: nat, y: nat)
    requires cap >= 0 && watts > 0.0 && x > 0 && y > 0
    ensures y <= Fit(cap, watts, x) <==> x <= Fit(cap, watts, y)
  {
    FitAtLeast(cap, watts, x, y);
    FitAtLeast(cap, watts, y, x);
    assert x * y == y * x;
  }

  /** Applying the limit three times is applying it once, as long as one replica fits. */
  lemma FitThrice(cap: int, watts: real, x: nat)
    requires cap >= 0 && watts > 0.0 && x > 0 && Fit(cap, watts, x) > 0
    ensures var y := Fit(cap, watts, x);
            var z := Fit(cap, watts, y);
            z >= x && Fit(cap, watts, z) == y
  {
    var y := Fit(cap, watts, x);
    FitSymmetric(cap, watts, x, y);
    var z := Fit(cap, watts, y);
    FitSymmetric(cap, watts, y, z);
    var u := Fit(cap, watts, z);
    assert u >= y;
    FitSymmetric(cap, watts, z, u);
    FitSymmetric(cap, watts, x, u);
  }

  /** A draw within the cap: exactly the counts that one replica's limit allows, and those whose limit is not zero. */
  lemma InRangeFits(cap: int, watts: real, x: nat)
    requires cap >= 0 && watts > 0.0 && x > 0
    ensures Draw(x, watts) <= cap as real <==> x <= Fit(cap, watts, 1)
    ensures Draw(x, watts) <= cap as real <==> Fit(cap, watts, x) > 0
  {
    FitAtLeast(cap, watts, 1, x);
    FitAtLeast(cap, watts, x, 1);
  }

  /** Whatever runs, what the limit allows draws no more than the cap. */
  lemma FitWithinCap(cap: int, watts: real, x: nat)
    requires cap >= 0 && watts > 0.0 && x > 0
    ensures Draw(Fit(cap, watts, x), watts) <= cap as real
  {
    var y := Fit(cap, watts, x);
    if y > 0 {
      FitSymmetric(cap, watts, x, y);
      InRangeFits(cap, watts, y);
    }
  }

  /** The replicas of each deployment. */
  type Vector = map<string, nat>

  ghost predicate PositiveWatts(watts: map<string, real>) {
    forall d :: d in watts ==> watts[d] > 0.0
  }

  /** Some deployment is at zero while another runs: the division by its reading makes the tick fail. */
  predicate Mixed(x: Vector) {
    (exists d :: d in x && x[d] == 0) && exists d :: d in x && x[d] > 0
  }

  /** What holds of a loop on `watts`: a cap that is not negative, and draws that are positive. */
  ghost predicate Loop(cap: int, watts: map<string, real>, x: Vector) {
    cap >= 0 && PositiveWatts(watts) && x.Keys == watts.Keys
  }

  /** One tick of the closed loop on the counts. */
  function Next(cap: int, watts: map<string, real>, x: Vector): (y: Vector)
    requires Loop(cap, watts, x)
    ensures y.Keys == x.Keys
  {
    if Mixed(x) then x
    else map d | d in x :: if x[d] == 0 then 1 else Fit(cap, watts[d], x[d])
  }

  /** Every deployment runs, within the cap. */
  ghost predicate InRange(cap: int, watts: map<string, real>, x: Vector)
    requires x.Keys == watts.Keys
  {
    forall d :: d in x ==> x[d] >= 1 && Draw(x[d], watts[d]) <= cap as real
  }

  ghost predicate AllZero(x: Vector) { forall d :: d in x ==> x[d] == 0 }
  ghost predicate AllOne(x: Vector) { forall d :: d in x ==> x[d] == 1 }
  ghost predicate AllPositive(x: Vector) { forall d :: d in x ==> x[d] > 0 }

  /** From `x` on, the loop is back every second tick. */
  ghost predicate Returns(cap: int, watts: map<string, real>, x: Vector)
    requires Loop(cap, watts, x)
  {
    Next(cap, watts, Next(cap, watts, x)) == x
  }

  /** In range, the loop stays in range, and it returns from the first tick on. */
  lemma InRangeReturns(cap: int, watts: map<string, real>, x: Vector)
    requires Loop(cap, watts, x) && InRange(cap, watts, x)
    ensures !Mixed(x) && InRange(cap, watts, Next(cap, watts, x))
    ensures Returns(cap, watts, Next(cap, watts, x))
  {
    var y := Next(cap, watts, x);
    forall d | d in x ensures y[d] >= 1 && Draw(y[d], watts[d]) <= cap as real {
      InRangeFits(cap, watts[d], x[d]);
      FitWithinCap(cap, watts[d], x[d]);
    }
    var z := Next(cap, watts, y);
    forall d | d in x ensures z[d] > 0 && Fit(cap, watts[d], z[d]) == y[d] {
      FitThrice(cap, watts[d], x[d]);
    }
    assert !Mixed(y) && !Mixed(z);
  }

  /** From running deployments: in range, or all at zero after one tick, or stuck after it. */
  lemma FromPositive(cap: int, watts: map<string, real>, x: Vector)
    requires Loop(cap, watts, x) && AllPositive(x)
    ensures InRange(cap, watts, x) || AllZero(Next(cap, watts, x)) || Mixed(Next(cap, watts, x))
  {
    forall d | d in x ensures Next(cap, watts, x)[d] > 0 <==> Draw(x[d], watts[d]) <= cap as real {
      InRangeFits(cap, watts[d], x[d]);
    }
  }

  /** From one replica each, the loop returns from the first tick on. */
  lemma OnesReturn(cap: int, watts: map<string, real>, x: Vector)
    requires Loop(cap, watts, x) && AllOne(x)
    ensures Returns(cap, watts, Next(cap, watts, x))
  {
    FromPositive(cap, watts, x);
    if InRange(cap, watts, x) {
      InRangeReturns(cap, watts, x);
    } else if AllZero(Next(cap, watts, x)) {
      assert Next(cap, watts, Next(cap, watts, x)) == x;
    }
  }

  /** From idle deployments, from the second tick on. */
  lemma ZerosReturn(cap: int, watts: map<string, real>, x: Vector)
    requires Loop(cap, watts, x) && AllZero(x)
    ensures AllOne(Next(cap, watts, x))
    ensures Returns(cap, watts, Next(cap, watts, Next(cap, watts, x)))
  {
    OnesReturn(cap, watts, Next(cap, watts, x));
  }

  /** From any start whatever, mixed or idle or far over the cap, the loop returns from the third tick on. */
  lemma AnyStartReturns(cap: int, watts: map<string, real>, x: Vector)
    requires Loop(cap, watts, x)
    ensures Returns(cap, watts, Next(cap, watts, Next(cap, watts, Next(cap, watts, x))))
  {
    var y := Next(cap, watts, x);
    if Mixed(x) {
    } else if AllPositive(x) {
      FromPositive(cap, watts, x);
      if InRange(cap, watts, x) {
        InRangeReturns(cap, watts, x);
      } else if AllZero(y) {
        ZerosReturn(cap, watts, y);
      }
    } else {
      ZerosReturn(cap, watts, x);
    }
  }

  /** A single deployment cannot be mixed: it returns from the second tick on. */
  lemma OneDeploymentReturns(cap: int, watts: map<string, real>, x: Vector, d: string)
    requires Loop(cap, watts, x) && x.Keys == {d}
    ensures Returns(cap, watts, Next(cap, watts, Next(cap, watts, x)))
  {
    var y := Next(cap, watts, x);
    assert d in x && d in y && d in Next(cap, watts, y);
    if x[d] == 0 {
      ZerosReturn(cap, watts, x);
    } else {
      FromPositive(cap, watts, x);
      if InRange(cap, watts, x) {
        InRangeReturns(cap, watts, x);
      } else {
        assert AllZero(y) && AllOne(Next(cap, watts, y));
        OnesAlternate(cap, watts, Next(cap, watts, y), d);
      }
    }
  }

  /** One deployment at one replica: the next tick but one finds it there again. */
  lemma OnesAlternate(cap: int, watts: map<string, real>, x: Vector, d: string)
    requires Loop(cap, watts, x) && x.Keys == {d} && AllOne(x)
    ensures Returns(cap, watts, x)
  {
    var w, f := watts[d], Fit(cap, watts[d], 1);
    assert d in x;
    if f > 0 {
      FitThrice(cap, w, 1);
      FitAtLeast(cap, w, f, 2);
      FitAtLeast(cap, w, 1, f);
      FitAtLeast(cap, w, 1, 2 * f);
    }
  }

  /**
    Three ticks are needed: with one deployment too big for the cap and one that fits but starts over it, the
    loop passes through all zeros and all ones before it sticks.
  */
  lemma ThirdTickIsNeeded(cap: int, watts: map<string, real>, x: Vector, big: string, small: string)
    requires Loop(cap, watts, x) && AllPositive(x) && x.Keys == {big, small}
    requires watts[small] <= cap as real < watts[big] && cap as real < Draw(x[small], watts[small])
    ensures AllOne(Next(cap, watts, Next(cap, watts, x)))
    ensures !Returns(cap, watts, Next(cap, watts, Next(cap, watts, x)))
  {
    InRangeFits(cap, watts[small], 1);
    InRangeFits(cap, watts[big], 1);
    InRangeFits(cap, watts[small], x[small]);
    InRangeFits(cap, watts[big], x[big]);
    DrawMonotone(1, x[big], watts[big]);
    var x1 := Next(cap, watts, x);
    assert AllZero(x1);
    var x2 := Next(cap, watts, x1);
    assert AllOne(x2);
    var x3 := Next(cap, watts, x2);
    assert x3[big] == 0 && x3[small] > 0;
  }

  /** Every deployment runs, over the cap. */
  ghost predicate AllOver(cap: int, watts: map<string, real>, x: Vector)
    requires x.Keys == watts.Keys
  {
    forall d :: d in x ==> x[d] > 0 && Draw(x[d], watts[d]) > cap as real
  }

  /** One replica of every deployment fits, or one replica of none does. */
  ghost predicate Uniform(cap: int, watts: map<string, real>) {
    || (forall d :: d in watts ==> watts[d] <= cap as real)
    || (forall d :: d in watts ==> watts[d] > cap as real)
  }

  /**
    What the counts at the start must be like for a loop that never fails: all running within the cap; or
    all idle or all over the cap, with watts that fit all or none.
  */
  ghost predicate Steady(cap: int, watts: map<string, real>, x: Vector)
    requires x.Keys == watts.Keys
  {
    || InRange(cap, watts, x)
    || ((AllZero(x) || AllOver(cap, watts, x)) && Uniform(cap, watts))
  }

  /** A count that draws more than the cap is followed by zero. */
  lemma OverStops(cap: int, watts: map<string, real>, x: Vector)
    requires Loop(cap, watts, x) && AllOver(cap, watts, x)
    ensures !Mixed(x) && AllZero(Next(cap, watts, x))
  {
    forall d | d in x ensures Next(cap, watts, x)[d] == 0 {
      InRangeFits(cap, watts[d], x[d]);
    }
  }

  /** One replica each, where one replica fits for all or for none. */
  lemma OnesAreSteady(cap: int, watts: map<string, real>, x: Vector)
    requires Loop(cap, watts, x) && AllOne(x)
    ensures Steady(cap, watts, x) <==> Uniform(cap, watts)
    ensures !Steady(cap, watts, x) ==> Mixed(Next(cap, watts, x))
  {
    forall d | d in x
      ensures Draw(x[d], watts[d]) == watts[d]
      ensures watts[d] <= cap as real <==> Fit(cap, watts[d], x[d]) > 0
    {
      DrawStep(0, watts[d]);
      InRangeFits(cap, watts[d], x[d]);
    }
    if !Uniform(cap, watts) {
      var fits :| fits in watts && watts[fits] <= cap as real;
      var not :| not in watts && watts[not] > cap as real;
      assert fits in x && not in x;
      assert Next(cap, watts, x)[fits] > 0 && Next(cap, watts, x)[not] == 0;
    }
  }

  lemma SteadyStays(cap: int, watts: map<string, real>, x: Vector)
    requires Loop(cap, watts, x) && Steady(cap, watts, x)
    ensures !Mixed(x) && Steady(cap, watts, Next(cap, watts, x))
  {
    if InRange(cap, watts, x) {
      InRangeReturns(cap, watts, x);
    } else if AllZero(x) {
      OnesAreSteady(cap, watts, Next(cap, watts, x));
    } else {
      OverStops(cap, watts, x);
    }
  }

  /** Counts that are neither all idle, nor all within, nor all over the cap are mixed now or at the next state. */
  lemma UnevenFails(cap: int, watts: map<string, real>, x: Vector)
    requires Loop(cap, watts, x)
    requires !InRange(cap, watts, x) && !AllZero(x) && !AllOver(cap, watts, x)
    ensures Mixed(x) || Mixed(Next(cap, watts, x))
  {
    if !Mixed(x) {
      assert AllPositive(x);
      var over :| over in x && Draw(x[over], watts[over]) > cap as real;
      var within :| within in x && Draw(x[within], watts[within]) <= cap as real;
      InRangeFits(cap, watts[over], x[over]);
      InRangeFits(cap, watts[within], x[within]);
      assert Next(cap, watts, x)[over] == 0 && Next(cap, watts, x)[within] > 0;
    }
  }

  /** Idle deployments of which some fit and some do not: one replica each, and then mixed. */
  lemma UnevenZerosFail(cap: int, watts: map<string, real>, x: Vector)
    requires Loop(cap, watts, x) && AllZero(x) && !Uniform(cap, watts)
    ensures Mixed(Next(cap, watts, Next(cap, watts, x)))
  {
    ZerosReturn(cap, watts, x);
    OnesAreSteady(cap, watts, Next(cap, watts, x));
  }

  /** Any start that is not steady is mixed at one of its first four states. */
  lemma UnsteadyFails(cap: int, watts: map<string, real>, x: Vector)
    requires Loop(cap, watts, x) && !Steady(cap, watts, x)
    ensures var x1 := Next(cap, watts, x);
            var x2 := Next(cap, watts, x1);
            Mixed(x) || Mixed(x1) || Mixed(x2) || Mixed(Next(cap, watts, x2))
  {
    if AllZero(x) {
      UnevenZerosFail(cap, watts, x);
    } else if AllOver(cap, watts, x) {
      OverStops(cap, watts, x);
      UnevenZerosFail(cap, watts, Next(cap, watts, x));
    } else {
      UnevenFails(cap, watts, x);
    }
  }

  /** An endless sequence of states, each the next of the one before. */
  datatype Trajectory = Trajectory(cap: int, watts: map<string, real>, xs: nat -> Vector) {
    ghost predicate Advances(t: nat) {
      && Loop(cap, watts, xs(t))
      && xs(t + 1) == Next(cap, watts, xs(t))
    }

    ghost predicate Valid() {
      forall t: nat :: Advances(t)
    }
  }

  /** A trajectory that returns at some time returns at every later time. */
  lemma {:induction false} KeepsReturning(r: Trajectory, from: nat, t: nat)
    requires r.Valid() && from <= t
    requires r.xs(from + 2) == r.xs(from)
    ensures r.xs(t + 2) == r.xs(t)
    decreases t
  {
    if from < t {
      KeepsReturning(r, from, t - 1);
      assert r.Advances(t - 1) && r.Advances(t + 1);
    }
  }

  lemma ReturnsFromThree(r: Trajectory, t: nat)
    requires r.Valid() && t >= 3
    ensures r.xs(t + 2) == r.xs(t)
  {
    assert r.Advances(0) && r.Advances(1) && r.Advances(2) && r.Advances(3) && r.Advances(4);
    AnyStartReturns(r.cap, r.watts, r.xs(0));
    KeepsReturning(r, 3, t);
  }

  lemma OneDeploymentReturnsFromTwo(r: Trajectory, d: string, t: nat)
    requires r.Valid() && r.watts.Keys == {d} && t >= 2
    ensures r.xs(t + 2) == r.xs(t)
  {
    assert r.Advances(0) && r.Advances(1) && r.Advances(2) && r.Advances(3);
    OneDeploymentReturns(r.cap, r.watts, r.xs(0), d);
    KeepsReturning(r, 2, t);
  }

  lemma {:induction false} StaysInRange(r: Trajectory, t: nat)
    requires r.Valid() && r.xs(0).Keys == r.watts.Keys && InRange(r.cap, r.watts, r.xs(0))
    ensures r.xs(t).Keys == r.watts.Keys && InRange(r.cap, r.watts, r.xs(t)) && !Mixed(r.xs(t))
  {
    assert r.Advances(t);
    if t > 0 {
      StaysInRange(r, t - 1);
      assert r.Advances(t - 1);
      InRangeReturns(r.cap, r.watts, r.xs(t - 1));
    }
    InRangeReturns(r.cap, r.watts, r.xs(t));
  }

  lemma ReturnsFromOne(r: Trajectory, t: nat)
    requires r.Valid() && r.xs(0).Keys == r.watts.Keys && InRange(r.cap, r.watts, r.xs(0)) && t >= 1
    ensures r.xs(t + 2) == r.xs(t)
  {
    StaysInRange(r, t - 1);
    assert r.Advances(t - 1) && r.Advances(t) && r.Advances(t + 1);
    InRangeReturns(r.cap, r.watts, r.xs(t - 1));
  }

  lemma {:induction false} StaysSteady(r: Trajectory, t: nat)
    requires r.Valid() && r.xs(0).Keys == r.watts.Keys && Steady(r.cap, r.watts, r.xs(0))
    ensures Loop(r.cap, r.watts, r.xs(t)) && Steady(r.cap, r.watts, r.xs(t)) && !Mixed(r.xs(t))
  {
    assert r.Advances(t);
    if t > 0 {
      StaysSteady(r, t - 1);
      assert r.Advances(t - 1);
      SteadyStays(r.cap, r.watts, r.xs(t - 1));
    }
    SteadyStays(r.cap, r.watts, r.xs(t));
  }

  /** A loop is never mixed exactly when it starts steady; if it does not, one of its first four states is mixed. */
  lemma SteadyDecides(r: Trajectory)
    requires r.Valid()
    ensures r.xs(0).Keys == r.watts.Keys
    ensures Steady(r.cap, r.watts, r.xs(0)) ==> forall t: nat :: !Mixed(r.xs(t))
    ensures !Steady(r.cap, r.watts, r.xs(0)) ==> exists t: nat :: t < 4 && Mixed(r.xs(t))
  {
    assert r.Advances(0) && r.Advances(1) && r.Advances(2);
    if Steady(r.cap, r.watts, r.xs(0)) {
      forall t: nat ensures !Mixed(r.xs(t)) { StaysSteady(r, t); }
    } else {
      UnsteadyFails(r.cap, r.watts, r.xs(0));
      assert Mixed(r.xs(0)) || Mixed(r.xs(1)) || Mixed(r.xs(2)) || Mixed(r.xs(3));
    }
  }

  lemma CappedAfterTick(r: Trajectory, d: string, t: nat)
    requires r.Valid() && r.watts.Keys == {d} && t >= 1 && r.watts[d] <= r.cap as real && d in r.xs(t)
    ensures Draw(r.xs(t)[d], r.watts[d]) <= r.cap as real
  {
    assert r.Advances(t - 1);
    assert d in r.xs(t - 1);
    if r.xs(t - 1)[d] > 0 {
      FitWithinCap(r.cap, r.watts[d], r.xs(t - 1)[d]);
    }
  }

  lemma OverCap(r: Trajectory, d: string)
    requires r.Valid() && r.watts.Keys == {d} && r.watts[d] > r.cap as real
    ensures exists t: nat :: t >= 1 && d in r.xs(t) && Draw(r.xs(t)[d], r.watts[d]) > r.cap as real
  {
    assert r.Advances(0) && r.Advances(1);
    var x := r.xs(0);
    assert d in x && d in r.xs(1) && d in r.xs(2);
    if x[d] > 0 {
      InRangeFits(r.cap, r.watts[d], x[d]);
      DrawMonotone(1, x[d], r.watts[d]);
      assert r.xs(1)[d] == 0;
      assert r.xs(2)[d] == 1;
    } else {
      assert r.xs(1)[d] == 1;
    }
  }
}
