/**
  Truncating division, on exact reals.

  Python's int(a / b) and Go's int(x) drop the fraction, that is, they round toward zero.
  The strategies, the create handler and the alert controller all round this way.
*/
module Rounding {

  /** Rounding toward zero. */
  function Trunc(x: real): int {
    if x >= 0.0 then x.Floor else -((-x).Floor)
  }

  /** A product of reals, named so that proofs can reason about it through the lemmas below. */
  function Times(a: real, b: real): real {
    a * b
  }

  /** The power drawn by `replicas` replicas of `watts` each. */
  function Draw(replicas: int, watts: real): real {
    Times(replicas as real, watts)
  }

  /** `r` is the greatest number of replicas of `watts` each that stays within `cap`. */
  ghost predicate IsGreatestFit(r: int, watts: real, cap: real) {
    && Draw(r, watts) <= cap
    && forall s: int :: Draw(s, watts) <= cap ==> s <= r
  }

  lemma TimesKeepsOrder(a: real, b: real, watts: real)
    requires watts > 0.0 && a <= b
    ensures Times(a, watts) <= Times(b, watts)
  {
  }

  lemma TimesKeepsStrictOrder(a: real, b: real, watts: real)
    requires watts > 0.0 && a < b
    ensures Times(a, watts) < Times(b, watts)
  {
  }

  lemma TimesQuotient(cap: real, watts: real)
    requires watts > 0.0
    ensures Times(cap / watts, watts) == cap
  {
  }

  lemma QuotientSign(cap: real, watts: real)
    requires cap >= 0.0 && watts > 0.0
    ensures cap / watts >= 0.0
  {
  }

  /** Multiplying by a positive number keeps the order both ways. */
  lemma ScaleMonotone(a: real, b: real, watts: real)
    requires watts > 0.0
    ensures a <= b <==> Times(a, watts) <= Times(b, watts)
    ensures a < b <==> Times(a, watts) < Times(b, watts)
  {
    if a < b {
      TimesKeepsStrictOrder(a, b, watts);
    } else {
      TimesKeepsOrder(b, a, watts);
      if b < a { TimesKeepsStrictOrder(b, a, watts); }
    }
  }

  /** One replica more draws one replica's power more. */
  lemma DrawStep(replicas: int, watts: real)
    ensures Draw(replicas + 1, watts) == Draw(replicas, watts) + watts
    ensures Draw(0, watts) == 0.0
  {
  }

  lemma DrawMonotone(a: int, b: int, watts: real)
    requires watts >= 0.0
    ensures a <= b ==> Draw(a, watts) <= Draw(b, watts)
  {
    if watts > 0.0 {
      ScaleMonotone(a as real, b as real, watts);
    }
  }

  /** y replicas of what x replicas draw are x times y replicas. */
  lemma DrawOfDraw(x: int, y: int, watts: real)
    ensures Draw(y, Draw(x, watts)) == Draw(x * y, watts)
  {
    assert (x * y) as real == y as real * x as real;
  }

  /** Rounding toward zero of what is not negative. */
  lemma TruncFloor(q: real)
    requires q >= 0.0
    ensures Trunc(q) >= 0 && Trunc(q) as real <= q < (Trunc(q) + 1) as real
  {
  }

  /** Toward zero on either side: the fraction goes, and the sign makes no difference. */
  lemma TruncIsTowardZero(x: real)
    ensures Trunc(-x) == -Trunc(x)
    ensures x >= 0.0 ==> 0 <= Trunc(x) && Trunc(x) as real <= x < (Trunc(x) + 1) as real
    ensures x <= 0.0 ==> Trunc(x) <= 0 && (Trunc(x) - 1) as real < x <= Trunc(x) as real
  {
  }

  /** Truncated division by a positive number: the two-sided bound. */
  lemma TruncBounds(cap: real, watts: real)
    requires cap >= 0.0 && watts > 0.0
    ensures Trunc(cap / watts) >= 0
    ensures Draw(Trunc(cap / watts), watts) <= cap < Draw(Trunc(cap / watts) + 1, watts)
  {
    var q := cap / watts;
    QuotientSign(cap, watts);
    TruncFloor(q);
    TimesQuotient(cap, watts);
    TimesKeepsOrder(Trunc(q) as real, q, watts);
    TimesKeepsStrictOrder(q, (Trunc(q) + 1) as real, watts);
  }

  /** A count whose successor draws too much bounds every count that fits. */
  lemma NoGreaterFit(r: int, s: int, watts: real, cap: real)
    requires watts > 0.0 && cap < Draw(r + 1, watts) && Draw(s, watts) <= cap
    ensures s <= r
  {
    if r + 1 <= s {
      TimesKeepsOrder((r + 1) as real, s as real, watts);
    }
  }

  /**
    For a positive draw and a non-negative cap, the truncated quotient is the greatest number
    of replicas that fits, and it is the only integer that is.
  */
  lemma TruncIsGreatestFit(cap: real, watts: real, r: int)
    requires cap >= 0.0 && watts > 0.0
    ensures r == Trunc(cap / watts) <==> IsGreatestFit(r, watts, cap)
  {
    TruncBounds(cap, watts);
    QuotientFits(Trunc(cap / watts), watts, cap);
  }

  lemma QuotientFits(best: int, watts: real, cap: real)
    requires watts > 0.0 && Draw(best, watts) <= cap < Draw(best + 1, watts)
    ensures forall r: int :: r == best <==> IsGreatestFit(r, watts, cap)
  {
    forall s: int | Draw(s, watts) <= cap ensures s <= best {
      NoGreaterFit(best, s, watts, cap);
    }
  }
}
