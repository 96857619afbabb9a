/** The balanced F32 reduction of scripts/julia_calibration_norm_tree.py against its serial loop.
    `add` is one rounded addition; its relative error is at most `u`. */
module PairwiseSum {
  import opened RealFacts
  import opened Wrappers

  function Abs(x: real): real {
    if x < 0.0 then -x else x
  }

  ghost predicate Rounded(add: (real, real) -> real, u: real) {
    u >= 0.0 && forall a, b :: Abs(add(a, b) - (a + b)) <= u * Abs(a + b)
  }

  function Sum(values: seq<real>): real {
    if values == [] then 0.0 else values[0] + Sum(values[1..])
  }

  function SumAbs(values: seq<real>): (s: real)
    ensures s >= 0.0
  {
    if values == [] then 0.0 else Abs(values[0]) + SumAbs(values[1..])
  }

  function Power(b: real, n: nat): real {
    if n == 0 then 1.0 else b * Power(b, n - 1)
  }

  /** One level: neighbours added in pairs, an odd last value carried over unrounded. */
  function Halve(level: seq<real>, add: (real, real) -> real): (next: seq<real>)
    ensures |next| == (|level| + 1) / 2
  {
    if |level| < 2 then level else [add(level[0], level[1])] + Halve(level[2..], add)
  }

  function Balanced(level: seq<real>, add: (real, real) -> real): real
    requires level != []
    decreases |level|
  {
    if |level| == 1 then level[0] else Balanced(Halve(level, add), add)
  }

  /** The number of levels `n` values go through. */
  function Halvings(n: nat): nat {
    if n <= 1 then 0 else 1 + Halvings((n + 1) / 2)
  }

  /** `total = 0.0; for value in row: total = total + value` */
  function Serial(values: seq<real>, add: (real, real) -> real): real {
    if values == [] then 0.0
    else add(Serial(values[..|values| - 1], add), values[|values| - 1])
  }

  /** One rounded pass over the pairs, as the tensor code forms it. */
  method ReduceLevel(level: seq<real>, add: (real, real) -> real) returns (next: seq<real>)
    ensures next == Halve(level, add)
  {
    var pairs := |level| / 2;
    next := [];
    for i := 0 to pairs
      invariant next + Halve(level[2 * i..], add) == Halve(level, add)
    {
      assert level[2 * i..][2..] == level[2 * (i + 1)..];
      next := next + [add(level[2 * i], level[2 * i + 1])];
    }
    next := next + level[pairs * 2..];
  }

  method Pairwise(values: seq<real>, add: (real, real) -> real) returns (r: Option<real>, levels: nat)
    ensures r == (if values == [] then None else Some(Balanced(values, add)))
    ensures levels == Halvings(|values|)
  {
    levels := 0;
    if values == [] { return None, 0; }
    var level := values;
    while |level| > 1
      invariant level != [] && Balanced(level, add) == Balanced(values, add)
      invariant levels + Halvings(|level|) == Halvings(|values|)
      decreases |level|
    {
      level := ReduceLevel(level, add);
      levels := levels + 1;
    }
    r := Some(level[0]);
  }

  method Accumulate(values: seq<real>, add: (real, real) -> real) returns (total: real)
    ensures total == Serial(values, add)
  {
    total := 0.0;
    for i := 0 to |values|
      invariant total == Serial(values[..i], add)
    {
      assert values[..i + 1][..i] == values[..i];
      total := add(total, values[i]);
    }
    assert values[..|values|] == values;
  }

  // ----- how many levels

  function Pow2(k: nat): nat {
    if k == 0 then 1 else 2 * Pow2(k - 1)
  }

  /** `Halvings(n)` is the rounded-up binary logarithm of `n`. */
  lemma {:induction false} HalvingsIsLog(n: nat)
    requires n > 0
    ensures n <= Pow2(Halvings(n))
    ensures n > 1 ==> Pow2(Halvings(n) - 1) < n
  {
    if n <= 1 {
    } else {
      HalvingsIsLog((n + 1) / 2);
    }
  }

  // ----- the shape of the sum

  lemma {:induction false} HalveSplits(a: seq<real>, b: seq<real>, add: (real, real) -> real)
    requires |a| % 2 == 0
    ensures Halve(a + b, add) == Halve(a, add) + Halve(b, add)
  {
    if a == [] {
      assert a + b == b;
    } else {
      HalveSplits(a[2..], b, add);
      assert (a + b)[2..] == a[2..] + b;
    }
  }

  /** The balanced sum is the sum of two balanced sums: the first takes the largest power of two of the values
      that leaves some, in their order, and the second the others. */
  lemma {:induction false} BalancedSplits(a: seq<real>, b: seq<real>, k: nat, add: (real, real) -> real)
    requires |a| == Pow2(k) && 0 < |b| <= Pow2(k)
    ensures Balanced(a + b, add) == add(Balanced(a, add), Balanced(b, add))
    decreases k
  {
    if k == 0 {
      assert a + b == [a[0], b[0]];
      assert Halve(a + b, add) == [add(a[0], b[0])];
    } else {
      var c, d := Halve(a, add), Halve(b, add);
      HalveSplits(a, b, add);
      BalancedSplits(c, d, k - 1, add);
      assert |b| == 1 ==> d == b;
    }
  }

  // ----- rounding bounds

  /** `e` is at most the share `k` of the mass `m`. */
  ghost predicate AtMost(e: real, k: real, m: real) {
    e <= k * m
  }

  /** What one rounded addition may do to the exact sum `exact`. */
  ghost predicate Near(result: real, exact: real, u: real) {
    AtMost(Abs(result - exact), u, Abs(exact))
  }

  lemma RoundedAt(add: (real, real) -> real, u: real, a: real, b: real)
    requires Rounded(add, u)
    ensures u >= 0.0 && Near(add(a, b), a + b, u)
  {
  }

  lemma AbsAdd(a: real, b: real)
    ensures Abs(a + b) <= Abs(a) + Abs(b)
  {
  }

  lemma PowerZero(b: real)
    ensures Power(b, 0) == 1.0
  {
  }

  lemma PowerStep(b: real, n: nat)
    ensures Power(b, n + 1) == b * Power(b, n)
  {
  }

  lemma {:induction false} PowerAtLeastOne(b: real, n: nat)
    requires b >= 1.0
    ensures Power(b, n) >= 1.0
  {
    if n == 0 {
    } else {
      PowerAtLeastOne(b, n - 1);
      Scale(1.0, Power(b, n - 1), b);
    }
  }

  lemma AddBounds(k: real, x: real, y: real, ex: real, ey: real, e: real)
    requires AtMost(ex, k, x) && AtMost(ey, k, y) && e <= ex + ey
    ensures AtMost(e, k, x + y)
  {
    assert k * (x + y) == k * x + k * y;
  }

  lemma Relative(w: real, t: real, u: real, e: real, m: real)
    requires 0.0 <= w <= t && u >= 0.0 && AtMost(e, u, w) && m <= e + w
    ensures AtMost(e, u, t) && AtMost(m, 1.0 + u, t)
  {
    NonNegative(u, t - w);
    Spread(u, t, w);
    Distribute(u, t);
    Distribute(u, w);
  }

  lemma Spread(u: real, t: real, w: real)
    ensures u * (t - w) == u * t - u * w
  {
  }

  lemma Distribute(u: real, t: real)
    ensures (1.0 + u) * t == t + u * t
  {
  }

  lemma PairError(a: real, b: real, r: real, u: real)
    requires u >= 0.0 && Near(r, a + b, u)
    ensures AtMost(Abs(r - (a + b)), u, Abs(a) + Abs(b))
    ensures AtMost(Abs(r), 1.0 + u, Abs(a) + Abs(b))
  {
    hide AtMost;
    AbsAdd(a, b);
    AbsAdd(r - (a + b), a + b);
    Relative(Abs(a + b), Abs(a) + Abs(b), u, Abs(r - (a + b)), Abs(r));
  }

  lemma SmallLevel(m: real, u: real)
    requires m >= 0.0 && u >= 0.0
    ensures AtMost(0.0, u, m) && AtMost(m, 1.0 + u, m)
  {
  }

  lemma HeadSplit(values: seq<real>)
    requires |values| >= 2
    ensures Sum(values) == values[0] + values[1] + Sum(values[2..])
    ensures SumAbs(values) == Abs(values[0]) + Abs(values[1]) + SumAbs(values[2..])
  {
    assert values[1..][1..] == values[2..];
  }

  /** A level moves the sum by at most u times the mass, and grows the mass by at most 1 + u. */
  lemma {:induction false} HalveError(level: seq<real>, add: (real, real) -> real, u: real)
    requires Rounded(add, u)
    ensures AtMost(Abs(Sum(Halve(level, add)) - Sum(level)), u, SumAbs(level))
    ensures AtMost(SumAbs(Halve(level, add)), 1.0 + u, SumAbs(level))
  {
    hide AtMost, Rounded;
    RoundedAt(add, u, 0.0, 0.0);
    if |level| < 2 {
      SmallLevel(SumAbs(level), u);
    } else {
      var a, b, rest := level[0], level[1], level[2..];
      var r, tail := add(a, b), Halve(rest, add);
      RoundedAt(add, u, a, b);
      PairError(a, b, r, u);
      HalveError(rest, add, u);
      HeadSplit(level);
      assert ([r] + tail)[1..] == tail;
      AbsAdd(r - (a + b), Sum(tail) - Sum(rest));
      AddBounds(u, Abs(a) + Abs(b), SumAbs(rest), Abs(r - (a + b)), Abs(Sum(tail) - Sum(rest)),
        Abs(Sum(Halve(level, add)) - Sum(level)));
      AddBounds(1.0 + u, Abs(a) + Abs(b), SumAbs(rest), Abs(r), SumAbs(tail), SumAbs(Halve(level, add)));
    }
  }

  /** One more level: the bound p - 1 becomes (1 + u) * p - 1. */
  lemma Compound(p: real, q: real, u: real, mass: real, reduced: real, e1: real, e2: real, e: real)
    requires p >= 1.0 && q == (1.0 + u) * p && u >= 0.0 && mass >= 0.0
    requires AtMost(e1, p - 1.0, reduced) && AtMost(reduced, 1.0 + u, mass)
    requires AtMost(e2, u, mass) && e <= e1 + e2
    ensures AtMost(e, q - 1.0, mass)
  {
    Scale(reduced, (1.0 + u) * mass, p - 1.0);
    assert (1.0 + u) * mass * (p - 1.0) + u * mass == ((1.0 + u) * p - 1.0) * mass;
  }

  lemma {:induction false} BalancedError(values: seq<real>, add: (real, real) -> real, u: real)
    requires values != [] && Rounded(add, u)
    ensures AtMost(Abs(Balanced(values, add) - Sum(values)), Power(1.0 + u, Halvings(|values|)) - 1.0, SumAbs(values))
    decreases |values|
  {
    hide AtMost, Rounded, Power;
    RoundedAt(add, u, 0.0, 0.0);
    if |values| == 1 {
      assert values[1..] == [];
      PowerZero(1.0 + u);
      NoError(SumAbs(values));
    } else {
      var next := Halve(values, add);
      assert Balanced(values, add) == Balanced(next, add);
      assert Halvings(|values|) == 1 + Halvings(|next|);
      BalancedError(next, add, u);
      HalveError(values, add, u);
      PowerStep(1.0 + u, Halvings(|next|));
      var p, q := Power(1.0 + u, Halvings(|next|)), Power(1.0 + u, Halvings(|values|));
      PowerAtLeastOne(1.0 + u, Halvings(|next|));
      AbsAdd(Balanced(next, add) - Sum(next), Sum(next) - Sum(values));
      Compound(p, q, u, SumAbs(values), SumAbs(next),
        Abs(Balanced(next, add) - Sum(next)), Abs(Sum(next) - Sum(values)), Abs(Balanced(values, add) - Sum(values)));
    }
  }

  lemma NoError(mass: real)
    ensures AtMost(0.0, 1.0 - 1.0, mass)
  {
  }

  /** The balanced sum of n values is within ((1 + u)^ceil(log2 n) - 1) * sum|x| of the exact sum. */
  lemma BalancedBound(values: seq<real>, add: (real, real) -> real, u: real)
    requires values != [] && Rounded(add, u)
    ensures Abs(Balanced(values, add) - Sum(values))
         <= (Power(1.0 + u, Halvings(|values|)) - 1.0) * SumAbs(values)
  {
    hide Rounded, Power, Balanced, Sum, SumAbs;
    BalancedError(values, add, u);
  }

  lemma {:induction false} SumAppend(values: seq<real>, x: real)
    ensures Sum(values + [x]) == Sum(values) + x
    ensures SumAbs(values + [x]) == SumAbs(values) + Abs(x)
    ensures Abs(Sum(values)) <= SumAbs(values)
  {
    if values == [] {
    } else {
      SumAppend(values[1..], x);
      assert (values + [x])[1..] == values[1..] + [x];
      AbsAdd(values[0], Sum(values[1..]));
    }
  }

  /** One more term: error e1 before it, then a rounded addition to a partial sum of size `partial`. */
  lemma SerialGrowth(p: real, q: real, u: real, mass: real, x: real, e1: real, partial: real, e2: real, e: real)
    requires p >= 1.0 && q == (1.0 + u) * p && u >= 0.0 && mass >= 0.0 && x >= 0.0
    requires AtMost(e1, p - 1.0, mass) && partial <= e1 + mass + x
    requires AtMost(e2, u, partial) && e <= e1 + e2
    ensures AtMost(e, q - 1.0, mass + x)
  {
    hide AtMost;
    PartialBound(p, mass, x, e1, partial);
    Loosen(e2, u, partial, p * mass + x);
    Combine(p, q, u, mass, x, e1, e2, e);
  }

  lemma PartialBound(p: real, mass: real, x: real, e1: real, partial: real)
    requires AtMost(e1, p - 1.0, mass) && partial <= e1 + mass + x
    ensures partial <= p * mass + x
  {
    assert (p - 1.0) * mass == p * mass - mass;
  }

  lemma Loosen(e: real, u: real, m: real, n: real)
    requires AtMost(e, u, m) && u >= 0.0 && m <= n
    ensures AtMost(e, u, n)
  {
    NonNegative(u, n - m);
    assert u * (n - m) == u * n - u * m;
  }

  lemma Combine(p: real, q: real, u: real, mass: real, x: real, e1: real, e2: real, e: real)
    requires p >= 1.0 && q == (1.0 + u) * p && u >= 0.0 && x >= 0.0
    requires AtMost(e1, p - 1.0, mass) && AtMost(e2, u, p * mass + x) && e <= e1 + e2
    ensures AtMost(e, q - 1.0, mass + x)
  {
    var old1, new1, more := (p - 1.0) * mass, u * (p * mass + x), ((1.0 + u) * (p - 1.0)) * x;
    assert more >= 0.0 by { NonNegative(1.0 + u, p - 1.0); NonNegative((1.0 + u) * (p - 1.0), x); }
    assert (q - 1.0) * (mass + x) == old1 + new1 + more by { Regroup(p, u, mass, x); }
    Within(e, (q - 1.0) * (mass + x), e1, old1, e2, new1, more);
  }

  lemma Within(e: real, bound: real, e1: real, b1: real, e2: real, b2: real, more: real)
    requires e <= e1 + e2 && e1 <= b1 && e2 <= b2 && more >= 0.0 && bound == b1 + b2 + more
    ensures e <= bound
  {
  }

  lemma Regroup(p: real, u: real, mass: real, x: real)
    ensures ((1.0 + u) * p - 1.0) * (mass + x)
         == (p - 1.0) * mass + u * (p * mass + x) + ((1.0 + u) * (p - 1.0)) * x
  {
  }

  lemma {:induction false} SerialError(values: seq<real>, add: (real, real) -> real, u: real)
    requires Rounded(add, u)
    ensures AtMost(Abs(Serial(values, add) - Sum(values)), Power(1.0 + u, |values|) - 1.0, SumAbs(values))
  {
    hide AtMost, Rounded, Power, Near;
    RoundedAt(add, u, 0.0, 0.0);
    if values == [] {
      PowerZero(1.0 + u);
      NoError(0.0);
    } else {
      var before, x := values[..|values| - 1], values[|values| - 1];
      SerialError(before, add, u);
      PowerStep(1.0 + u, |before|);
      PowerAtLeastOne(1.0 + u, |before|);
      RoundedAt(add, u, Serial(before, add), x);
      SumAppend(before, x);
      assert values == before + [x];
      SerialStep(Sum(before), Serial(before, add), x, Serial(values, add), SumAbs(before),
        Power(1.0 + u, |before|), Power(1.0 + u, |values|), u);
    }
  }

  lemma SerialStep(exact: real, s: real, x: real, t: real, mass: real, p: real, q: real, u: real)
    requires p >= 1.0 && q == (1.0 + u) * p && u >= 0.0 && Abs(exact) <= mass
    requires AtMost(Abs(s - exact), p - 1.0, mass) && Near(t, s + x, u)
    ensures AtMost(Abs(t - (exact + x)), q - 1.0, mass + Abs(x))
  {
    hide AtMost;
    NearPartial(t, s + x, u);
    AbsAdd(s - exact, exact);
    AbsAdd(s, x);
    AbsAdd(t - (s + x), s - exact);
    SerialGrowth(p, q, u, mass, Abs(x), Abs(s - exact), Abs(s + x), Abs(t - (s + x)), Abs(t - (exact + x)));
  }

  lemma NearPartial(t: real, exact: real, u: real)
    requires Near(t, exact, u)
    ensures AtMost(Abs(t - exact), u, Abs(exact))
  {
  }

  /** The serial loop's bound has the number of additions, n, in the exponent. */
  lemma SerialBound(values: seq<real>, add: (real, real) -> real, u: real)
    requires Rounded(add, u)
    ensures Abs(Serial(values, add) - Sum(values)) <= (Power(1.0 + u, |values|) - 1.0) * SumAbs(values)
  {
    hide Rounded, Power, Serial, Sum, SumAbs;
    SerialError(values, add, u);
  }

  /** Without rounding both are the exact sum. */
  lemma ExactAgree(values: seq<real>, add: (real, real) -> real)
    requires values != [] && Rounded(add, 0.0)
    ensures Balanced(values, add) == Serial(values, add) == Sum(values)
  {
    hide Power, Balanced, Serial, Sum, SumAbs, Rounded, Halvings, AtMost;
    BalancedError(values, add, 0.0);
    SerialError(values, add, 0.0);
    PowerOfOne(Halvings(|values|));
    PowerOfOne(|values|);
    NoSlack(Abs(Balanced(values, add) - Sum(values)), Power(1.0, Halvings(|values|)), SumAbs(values));
    NoSlack(Abs(Serial(values, add) - Sum(values)), Power(1.0, |values|), SumAbs(values));
  }

  lemma NoSlack(e: real, p: real, mass: real)
    requires p == 1.0 && AtMost(e, p - 1.0, mass)
    ensures e <= 0.0
  {
  }

  lemma {:induction false} PowerOfOne(n: nat)
    ensures Power(1.0, n) == 1.0
  {
    if n == 0 {
    } else {
      PowerOfOne(n - 1);
    }
  }

  // ----- the exponents cannot be lowered

  /** The rounding that always errs upwards by the full `u`. */
  function Inflate(u: real): (real, real) -> real {
    (a: real, b: real) => (1.0 + u) * (a + b)
  }

  function Zeros(n: nat): (s: seq<real>)
    ensures |s| == n
  {
    if n == 0 then [] else [0.0] + Zeros(n - 1)
  }

  lemma InflateRounded(u: real)
    requires u >= 0.0
    ensures Rounded(Inflate(u), u)
  {
    forall a: real, b: real ensures Abs(Inflate(u)(a, b) - (a + b)) <= u * Abs(a + b) {
      assert (1.0 + u) * (a + b) - (a + b) == u * (a + b);
      assert Abs(u * (a + b)) == u * Abs(a + b);
    }
  }

  lemma {:induction false} HalveZeros(n: nat, add: (real, real) -> real)
    requires add(0.0, 0.0) == 0.0
    ensures Halve(Zeros(n), add) == Zeros((n + 1) / 2)
  {
    if n < 2 {
    } else {
      HalveZeros(n - 2, add);
      assert Zeros(n) == [0.0] + Zeros(n - 1) && Zeros(n - 1) == [0.0] + Zeros(n - 2);
      assert Zeros(n)[2..] == Zeros(n - 2);
      assert (n + 1) / 2 == (n - 1) / 2 + 1;
    }
  }

  lemma HalveSpike(x: real, n: nat, add: (real, real) -> real)
    requires n > 0 && add(0.0, 0.0) == 0.0
    ensures Halve([x] + Zeros(n), add) == [add(x, 0.0)] + Zeros(n / 2)
  {
    var s := [x] + Zeros(n);
    assert Zeros(n) == [0.0] + Zeros(n - 1);
    assert s[2..] == Zeros(n - 1) && s[1] == 0.0;
    HalveZeros(n - 1, add);
  }

  lemma BalancedUnfold(x: real, n: nat, add: (real, real) -> real)
    requires n > 0 && add(0.0, 0.0) == 0.0
    ensures Balanced([x] + Zeros(n), add) == Balanced([add(x, 0.0)] + Zeros(n / 2), add)
    ensures Halvings(n + 1) == Halvings(n / 2 + 1) + 1
  {
    HalveSpike(x, n, add);
    assert (n + 2) / 2 == n / 2 + 1;
  }

  lemma {:induction false} BalancedSpike(x: real, n: nat, u: real)
    ensures Balanced([x] + Zeros(n), Inflate(u)) == Power(1.0 + u, Halvings(n + 1)) * x
    decreases n
  {
    hide Power, Balanced, Zeros;
    if n == 0 {
      SingleSpike(x, u);
    } else {
      var next := n / 2;
      InflateAtZero(u, x);
      BalancedUnfold(x, n, Inflate(u));
      BalancedSpike(Inflate(u)(x, 0.0), next, u);
      PowerStep(1.0 + u, Halvings(next + 1));
      Reassociate(1.0 + u, Power(1.0 + u, Halvings(next + 1)), x);
    }
  }

  lemma SingleSpike(x: real, u: real)
    ensures Balanced([x] + Zeros(0), Inflate(u)) == Power(1.0 + u, Halvings(1)) * x
  {
  }

  lemma InflateAtZero(u: real, x: real)
    ensures Inflate(u)(x, 0.0) == (1.0 + u) * x
    ensures Inflate(u)(0.0, 0.0) == 0.0
  {
  }

  lemma Reassociate(a: real, b: real, c: real)
    ensures b * (a * c) == (a * b) * c
  {
  }

  lemma {:induction false} SerialSpike(x: real, n: nat, u: real)
    ensures Serial([x] + Zeros(n), Inflate(u)) == Power(1.0 + u, n + 1) * x
  {
    var s := [x] + Zeros(n);
    if n == 0 {
      assert s[..0] == [];
      assert Power(1.0 + u, 1) == (1.0 + u) * 1.0;
    } else {
      ZerosLast(n);
      assert s[..n] == [x] + Zeros(n - 1) && s[n] == 0.0;
      SerialSpike(x, n - 1, u);
      Reassociate(Power(1.0 + u, n), 1.0 + u, x);
    }
  }

  lemma {:induction false} ZerosLast(n: nat)
    requires n > 0
    ensures Zeros(n) == Zeros(n - 1) + [0.0]
  {
    if n == 1 {
    } else {
      ZerosLast(n - 1);
    }
  }

  lemma {:induction false} ZerosSum(n: nat)
    ensures Sum(Zeros(n)) == 0.0 && SumAbs(Zeros(n)) == 0.0
  {
    if n == 0 {
    } else {
      ZerosSum(n - 1);
      assert Zeros(n)[1..] == Zeros(n - 1);
    }
  }

  /** Both bounds are met with equality for every length, so ceil(log2 n) and n are the right exponents. */
  lemma BoundsAreTight(n: nat, u: real) returns (values: seq<real>, add: (real, real) -> real)
    requires n > 0 && u >= 0.0
    ensures |values| == n && Rounded(add, u)
    ensures Abs(Balanced(values, add) - Sum(values)) == (Power(1.0 + u, Halvings(n)) - 1.0) * SumAbs(values)
    ensures Abs(Serial(values, add) - Sum(values)) == (Power(1.0 + u, n) - 1.0) * SumAbs(values)
    ensures SumAbs(values) == 1.0
  {
    hide Power, Balanced, Serial, Halvings, Sum, SumAbs, Rounded;
    values, add := [1.0] + Zeros(n - 1), Inflate(u);
    InflateRounded(u);
    BalancedSpike(1.0, n - 1, u);
    SerialSpike(1.0, n - 1, u);
    SpikeSum(n - 1);
    PowerAtLeastOne(1.0 + u, Halvings(n));
    PowerAtLeastOne(1.0 + u, n);
  }

  lemma SpikeSum(n: nat)
    ensures Sum([1.0] + Zeros(n)) == 1.0 && SumAbs([1.0] + Zeros(n)) == 1.0
  {
    ZerosSum(n);
    assert ([1.0] + Zeros(n))[1..] == Zeros(n);
  }
}
