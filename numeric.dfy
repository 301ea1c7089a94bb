/** Real-number helpers shared by the benchmark metrics and the dashboard:
    sums and means (numpy `np.mean`, pandas `mean`, JS `reduce` then divide),
    and the three rounding rules the sources rely on. */
module Numeric {

  function Abs(x: real): (r: real)
    ensures r >= 0.0
    ensures r == x || r == -x
  {
    if x < 0.0 then -x else x
  }

  function Max(a: real, b: real): (r: real)
    ensures r >= a && r >= b
    ensures r == a || r == b
  {
    if a >= b then a else b
  }

  /** Left-to-right sum, as `reduce((s, v) => s + v, 0)` computes it. */
  function Sum(xs: seq<real>): real
  {
    if |xs| == 0 then 0.0 else Sum(xs[..|xs| - 1]) + xs[|xs| - 1]
  }

  /** Arithmetic mean; undefined (NaN in the sources) on an empty sequence. */
  function Mean(xs: seq<real>): real
    requires |xs| > 0
  {
    Sum(xs) / |xs| as real
  }

  function Pow10(d: nat): (r: nat)
    ensures r >= 1
  {
    if d == 0 then 1 else 10 * Pow10(d - 1)
  }

  lemma {:induction false} SumAppend(a: seq<real>, b: seq<real>)
    ensures Sum(a + b) == Sum(a) + Sum(b)
    decreases |b|
  {
    if |b| == 0 {
      assert a + b == a;
    } else {
      assert (a + b)[..|a + b| - 1] == a + b[..|b| - 1];
      SumAppend(a, b[..|b| - 1]);
    }
  }

  lemma SumOfThree(a: real, b: real, c: real)
    ensures Sum([a, b, c]) == a + b + c
  {
    assert [a, b, c][..2] == [a, b];
    assert [a, b][..1] == [a];
    assert [a][..0] == [];
    assert Sum([a]) == a;
    assert Sum([a, b]) == a + b;
  }

  lemma {:induction false} SumBounds(xs: seq<real>, lo: real, hi: real)
    requires forall i :: 0 <= i < |xs| ==> lo <= xs[i] <= hi
    ensures |xs| as real * lo <= Sum(xs) <= |xs| as real * hi
  {
    if |xs| > 0 {
      SumBounds(xs[..|xs| - 1], lo, hi);
    }
  }

  lemma {:induction false} SumNonNegative(xs: seq<real>)
    requires forall i :: 0 <= i < |xs| ==> xs[i] >= 0.0
    ensures Sum(xs) >= 0.0
  {
    if |xs| > 0 {
      SumNonNegative(xs[..|xs| - 1]);
    }
  }

  /** A sum of non-negative terms is zero exactly when every term is zero. */
  lemma {:induction false} SumZeroIff(xs: seq<real>)
    requires forall i :: 0 <= i < |xs| ==> xs[i] >= 0.0
    ensures Sum(xs) == 0.0 <==> forall i :: 0 <= i < |xs| ==> xs[i] == 0.0
  {
    if |xs| > 0 {
      var init := xs[..|xs| - 1];
      SumZeroIff(init);
      SumNonNegative(init);
      if Sum(xs) == 0.0 {
        forall i | 0 <= i < |xs| ensures xs[i] == 0.0 {
          if i < |xs| - 1 { assert xs[i] == init[i]; }
        }
      }
    }
  }

  /** The mean lies between any lower and upper bound of the terms. */
  lemma MeanBounds(xs: seq<real>, lo: real, hi: real)
    requires |xs| > 0
    requires forall i :: 0 <= i < |xs| ==> lo <= xs[i] <= hi
    ensures lo <= Mean(xs) <= hi
  {
    SumBounds(xs, lo, hi);
    var n := |xs| as real;
    assert Mean(xs) * n == Sum(xs);
  }

  lemma MulNonNegative(x: real, a: real)
    requires x >= 0.0 && a >= 0.0
    ensures x * a >= 0.0
  {
  }

  lemma MulPositive(x: real, a: real)
    requires x > 0.0 && a > 0.0
    ensures x * a > 0.0
  {
  }

  /** Comparing a quotient with c is comparing the dividend with c times the divisor. */
  lemma QuotientCompare(b: real, a: real, c: real)
    requires a > 0.0
    ensures b / a <= c <==> b <= c * a
  {
    var q := b / a;
    var qa, ca := q * a, c * a;
    assert b == qa;
    if q <= c {
      MulNonNegative(c - q, a);
      assert (c - q) * a == ca - qa;
    } else {
      MulPositive(q - c, a);
      assert (q - c) * a == qa - ca;
    }
  }

  /** |e / t| = |e| / |t|. */
  lemma AbsQuotient(e: real, t: real)
    requires t != 0.0
    ensures Abs(e / t) == Abs(e) / Abs(t)
  {
    if t < 0.0 {
      assert e / t == -(e / -t);
      if e < 0.0 {
        assert e / -t == -((-e) / -t);
      }
    } else if e < 0.0 {
      assert e / t == -((-e) / t);
    }
  }

  /** How many of the thresholds `x` reaches: the band a cascade of
      `if (x >= t) return ...` tests over ascending thresholds puts `x` in,
      0 being the band below every threshold. */
  function Level(ts: seq<real>, x: real): (k: nat)
    ensures k <= |ts|
  {
    if |ts| == 0 then 0 else Level(ts[..|ts| - 1], x) + (if ts[|ts| - 1] <= x then 1 else 0)
  }

  predicate Ascending(ts: seq<real>) {
    forall i, j :: 0 <= i < j < |ts| ==> ts[i] < ts[j]
  }

  /** Over ascending thresholds, `x` is at level k exactly when it reaches the
      k-th threshold and falls short of the next one. */
  lemma {:induction false} LevelBand(ts: seq<real>, x: real)
    requires Ascending(ts)
    ensures var k := Level(ts, x); (k == 0 || ts[k - 1] <= x) && (k == |ts| || x < ts[k])
  {
    if |ts| > 0 {
      var init := ts[..|ts| - 1];
      LevelBand(init, x);
    }
  }

  /** A larger value is never in a lower band. */
  lemma {:induction false} LevelMonotone(ts: seq<real>, x: real, y: real)
    requires x <= y
    ensures Level(ts, x) <= Level(ts, y)
  {
    if |ts| > 0 {
      LevelMonotone(ts[..|ts| - 1], x, y);
    }
  }

  /** JavaScript `Math.round`: the nearest integer, ties toward +infinity. */
  function RoundHalfUp(x: real): (r: int)
    ensures r as real - 0.5 <= x < r as real + 0.5
  {
    (x + 0.5).Floor
  }

  /** numpy `np.round` and Python's `format(x, '.0f')`: the nearest integer,
      ties to the even neighbour. */
  function RoundHalfEven(x: real): (r: int)
    ensures Abs(r as real - x) <= 0.5
    ensures Abs(r as real - x) == 0.5 ==> r % 2 == 0
  {
    var f := x.Floor;
    var d := x - f as real;
    if d < 0.5 then f
    else if d > 0.5 then f + 1
    else if f % 2 == 0 then f
    else f + 1
  }
}
