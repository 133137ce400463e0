/** Python's sum(d.values()) over a dictionary of power readings. */
module Sums {

  /** The sum of the values of `m`. The order of addition does not matter on exact reals: see SumSplit. */
  ghost function Sum(m: map<string, real>): real {
    if m == map[] then 0.0
    else
      var k :| k in m;
      m[k] + Sum(m - {k})
  }

  /** Any key may be taken out first. */
  lemma {:induction false} SumSplit(m: map<string, real>, k: string)
    requires k in m
    ensures Sum(m) == m[k] + Sum(m - {k})
    decreases m
  {
    var first :| first in m && Sum(m) == m[first] + Sum(m - {first});
    if first != k {
      SumSplit(m - {first}, k);
      SumSplit(m - {k}, first);
      assert m - {first} - {k} == m - {k} - {first};
    }
  }

  /** A sum of non-negative values is non-negative, and zero exactly when every value is. */
  lemma {:induction false} SumNonNegative(m: map<string, real>)
    requires forall k :: k in m ==> m[k] >= 0.0
    ensures Sum(m) >= 0.0
    ensures Sum(m) == 0.0 <==> forall k :: k in m ==> m[k] == 0.0
    decreases m
  {
    if k :| k in m {
      SumSplit(m, k);
      SumNonNegative(m - {k});
      if Sum(m) == 0.0 {
        forall j | j in m ensures m[j] == 0.0 {
          if j != k { assert j in m - {k}; }
        }
      }
    }
  }

  /** Smaller values have a smaller sum, and the sums are equal only if all the values are. */
  lemma {:induction false} SumCompare(a: map<string, real>, b: map<string, real>)
    requires a.Keys == b.Keys && forall k :: k in a ==> a[k] <= b[k]
    ensures Sum(a) <= Sum(b)
    ensures Sum(a) == Sum(b) <==> forall k :: k in a ==> a[k] == b[k]
    decreases a
  {
    if k :| k in a {
      SumSplit(a, k);
      SumSplit(b, k);
      SumCompare(a - {k}, b - {k});
      if Sum(a) == Sum(b) {
        forall j | j in a ensures a[j] == b[j] {
          if j != k { assert j in a - {k}; }
        }
      }
    } else {
      assert b == map[];
    }
  }

  /** No value is more than the sum of non-negative ones. */
  lemma SumAtLeast(m: map<string, real>, k: string)
    requires k in m && forall j :: j in m ==> m[j] >= 0.0
    ensures Sum(m) >= m[k]
  {
    SumSplit(m, k);
    SumNonNegative(m - {k});
  }

  lemma SumOfOne(m: map<string, real>, k: string)
    requires m.Keys == {k}
    ensures Sum(m) == m[k]
  {
    SumSplit(m, k);
    assert m - {k} == map[];
  }

  /** The loop behind sum(d.values()), over the items in any order. */
  method SumValues(m: map<string, real>) returns (total: real)
    ensures total == Sum(m)
  {
    total := 0.0;
    var todo := m;
    while todo != map[]
      invariant Sum(m) == total + Sum(todo)
      decreases |todo|
    {
      var k :| k in todo;
      SumSplit(todo, k);
      total := total + todo[k];
      todo := todo - {k};
    }
  }
}
