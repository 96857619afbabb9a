/** `percentile` of scripts/bench_load.py over the reals. */
module Percentile {
  import opened RealFacts
  import opened Sorting
  import opened Wrappers

  ghost const LE := (a: real, b: real) => a <= b

  function Ascending(values: seq<real>): seq<real> {
    Sort(values, (a: real, b: real) => a <= b)
  }

  /** The point a fraction `t` of the way from `a` to `b`. */
  function Blend(a: real, b: real, t: real): real {
    a + (b - a) * t
  }

  /** The two-point interpolation at a fractional position of a sorted sample. */
  function Interpolate(ordered: seq<real>, position: real): real
    requires ordered != [] && 0.0 <= position <= (|ordered| - 1) as real
  {
    var low := position.Floor;
    var high := if low + 1 < |ordered| - 1 then low + 1 else |ordered| - 1;
    Blend(ordered[low], ordered[high], position - low as real)
  }

  function Position(n: nat, q: real): (p: real)
    requires n > 0 && 0.0 <= q <= 100.0
    ensures 0.0 <= p <= (n - 1) as real
  {
    var p := (n - 1) as real * q / 100.0;
    assert 0.0 <= p <= (n - 1) as real by { Scaled((n - 1) as real, q); }
    p
  }

  /** The benchmark asks for 50, 90 and 99; `q` outside [0, 100] would index off the sample. */
  function Percentile(values: seq<real>, q: real): Option<real>
    requires 0.0 <= q <= 100.0
  {
    if values == [] then None
    else
      AscendingSample(values);
      Some(Interpolate(Ascending(values), Position(|values|, q)))
  }

  lemma Scaled(m: real, q: real)
    requires 0.0 <= m && 0.0 <= q <= 100.0
    ensures 0.0 <= m * q / 100.0 <= m
  {
    Scale(q, 100.0, m);
  }

  lemma AscendingSample(values: seq<real>)
    ensures |Ascending(values)| == |values| && Sorted(Ascending(values), LE)
    ensures multiset(Ascending(values)) == multiset(values)
  {
    SortPermutes(values, LE);
    SortSorts(values, LE);
  }

  lemma Between(a: real, b: real, t: real)
    requires a <= b && 0.0 <= t <= 1.0
    ensures a <= Blend(a, b, t) <= b
  {
    Scale(t, 1.0, b - a);
  }

  lemma Steeper(a: real, b: real, s: real, t: real)
    requires a <= b && s <= t
    ensures Blend(a, b, s) <= Blend(a, b, t)
  {
    Scale(s, t, b - a);
  }

  /** The value lies between the two samples around the position. */
  lemma InterpolateBracketed(ordered: seq<real>, position: real)
    requires ordered != [] && Sorted(ordered, LE) && 0.0 <= position <= (|ordered| - 1) as real
    ensures ordered[position.Floor] <= Interpolate(ordered, position)
    ensures Interpolate(ordered, position)
         <= ordered[if position.Floor + 1 < |ordered| then position.Floor + 1 else |ordered| - 1]
  {
    hide Blend;
    var low := position.Floor;
    var high := if low + 1 < |ordered| - 1 then low + 1 else |ordered| - 1;
    assert low == high || LE(ordered[low], ordered[high]);
    Between(ordered[low], ordered[high], position - low as real);
  }

  lemma InterpolateMonotone(ordered: seq<real>, p: real, q: real)
    requires ordered != [] && Sorted(ordered, LE) && 0.0 <= p <= q <= (|ordered| - 1) as real
    ensures Interpolate(ordered, p) <= Interpolate(ordered, q)
  {
    hide Blend;
    if p.Floor == q.Floor {
      var low := p.Floor;
      var high := if low + 1 < |ordered| - 1 then low + 1 else |ordered| - 1;
      assert low == high || LE(ordered[low], ordered[high]);
      Steeper(ordered[low], ordered[high], p - low as real, q - low as real);
    } else {
      InterpolateBracketed(ordered, p);
      InterpolateBracketed(ordered, q);
      assert p.Floor + 1 == q.Floor || LE(ordered[p.Floor + 1], ordered[q.Floor]);
    }
  }

  lemma PositionMonotone(n: nat, q: real, r: real)
    requires n > 0 && 0.0 <= q <= r <= 100.0
    ensures Position(n, q) <= Position(n, r)
  {
    var m := (n - 1) as real;
    Scale(q, r, m);
  }

  lemma PercentileMonotone(values: seq<real>, q: real, r: real)
    requires values != [] && 0.0 <= q <= r <= 100.0
    ensures Percentile(values, q).value <= Percentile(values, r).value
  {
    AscendingSample(values);
    PositionMonotone(|values|, q, r);
    InterpolateMonotone(Ascending(values), Position(|values|, q), Position(|values|, r));
  }

  /** Every percentile lies between two members of the sample, so between its minimum and maximum. */
  lemma PercentileWithinSample(values: seq<real>, q: real) returns (lo: real, hi: real)
    requires values != [] && 0.0 <= q <= 100.0
    ensures lo in values && hi in values && lo <= Percentile(values, q).value <= hi
  {
    AscendingSample(values);
    var s, p := Ascending(values), Position(|values|, q);
    InterpolateBracketed(s, p);
    lo := s[p.Floor];
    hi := s[if p.Floor + 1 < |s| then p.Floor + 1 else |s| - 1];
    assert lo in multiset(s) && hi in multiset(s);
  }

  /** The summary a report prints is ordered: p50 <= p90 <= p99 <= max. */
  lemma DistributionOrdered(values: seq<real>, max: real)
    requires max in values && forall v :: v in values ==> v <= max
    ensures Percentile(values, 50.0).value <= Percentile(values, 90.0).value
         <= Percentile(values, 99.0).value <= max
  {
    PercentileMonotone(values, 50.0, 90.0);
    PercentileMonotone(values, 90.0, 99.0);
    var lo, hi := PercentileWithinSample(values, 99.0);
  }

  lemma PercentileIgnoresOrder(a: seq<real>, b: seq<real>, q: real)
    requires 0.0 <= q <= 100.0 && multiset(a) == multiset(b)
    ensures Percentile(a, q) == Percentile(b, q)
  {
    assert |a| == |multiset(a)| == |multiset(b)| == |b|;
    SortIgnoresOrder(a, b, LE);
  }

  /** Between two neighbouring ranks the percentile runs along the straight line through their samples;
      every `q` of a sample of two or more lies on such a segment. */
  lemma PercentileOnSegment(values: seq<real>, s: seq<real>, k: nat, t: real, q: real)
    requires Sorted(s, LE) && multiset(s) == multiset(values) && k + 1 < |s|
    requires 0.0 <= t <= 1.0 && 0.0 <= q <= 100.0 && (|s| - 1) as real * q == 100.0 * (k as real + t)
    ensures Percentile(values, q) == Some(s[k] + t * (s[k + 1] - s[k]))
  {
    hide Ascending, Interpolate, Position;
    AscendingIs(values, s);
    PositionIs(|s|, k, t, q);
    InterpolateOnSegment(s, k, t);
  }

  lemma PositionIs(n: nat, k: nat, t: real, q: real)
    requires n > 0 && 0.0 <= q <= 100.0 && (n - 1) as real * q == 100.0 * (k as real + t)
    ensures Position(n, q) == k as real + t
  {
  }

  lemma InterpolateOnSegment(s: seq<real>, k: nat, t: real)
    requires k + 1 < |s| && 0.0 <= t <= 1.0
    ensures k as real + t <= (|s| - 1) as real
    ensures Interpolate(s, k as real + t) == s[k] + t * (s[k + 1] - s[k])
  {
    hide Blend;
    var p := k as real + t;
    BlendIs(s[k], s[k + 1], t);
    if t == 1.0 {
      assert p == (k + 1) as real && p.Floor == k + 1;
      BlendFromStart(s, k + 1);
    } else {
      assert p.Floor == k && p - k as real == t;
    }
  }

  lemma BlendIs(a: real, b: real, t: real)
    ensures Blend(a, b, t) == a + t * (b - a)
  {
  }

  lemma BlendFromStart(s: seq<real>, k: nat)
    requires k < |s|
    ensures Interpolate(s, k as real) == s[k]
  {
  }

  lemma PercentileOfOne(x: real, q: real)
    requires 0.0 <= q <= 100.0
    ensures Percentile([x], q) == Some(x)
  {
    AscendingIs([x], [x]);
  }

  lemma AscendingIs(values: seq<real>, s: seq<real>)
    requires Sorted(s, LE) && multiset(s) == multiset(values)
    ensures Ascending(values) == s && |values| == |s|
  {
    assert |s| == |multiset(s)| == |multiset(values)| == |values|;
    SortIgnoresOrder(values, s, LE);
    SortFixesSorted(s, LE);
  }

  predicate BelowEach(a: seq<real>, b: seq<real>) {
    |a| == |b| && forall i | 0 <= i < |a| :: a[i] <= b[i]
  }

  /** A sorted sequence is its head inserted into its tail. */
  lemma HeadInserts(s: seq<real>)
    requires s != [] && Sorted(s, LE)
    ensures Insert(s[0], s[1..], LE) == s
  {
    assert |s| > 1 ==> LE(s[0], s[1]);
    assert s == [s[0]] + s[1..];
  }

  lemma TailSorted(s: seq<real>)
    requires s != [] && Sorted(s, LE)
    ensures Sorted(s[1..], LE)
  {
    var rest := s[1..];
    forall i, j | 0 <= i < j < |rest| ensures LE(rest[i], rest[j]) { assert LE(s[i + 1], s[j + 1]); }
  }

  lemma PrependBelow(x: real, a: seq<real>, y: real, b: seq<real>)
    requires x <= y && BelowEach(a, b)
    ensures BelowEach([x] + a, [y] + b)
  {
  }

  lemma {:induction false} InsertRises(x: real, y: real, s: seq<real>, t: seq<real>)
    requires x <= y && BelowEach(s, t) && Sorted(s, LE) && Sorted(t, LE)
    ensures BelowEach(Insert(x, s, LE), Insert(y, t, LE))
    decreases |s|
  {
    if s == [] {
    } else {
      var a, b := s[1..], t[1..];
      assert BelowEach(a, b) && s[0] <= t[0];
      TailSorted(s);
      TailSorted(t);
      assert s == [s[0]] + a && t == [t[0]] + b;
      if x <= s[0] && y <= t[0] {
        PrependBelow(x, s, y, t);
      } else if x <= s[0] {
        HeadInserts(s);
        InsertRises(s[0], y, a, b);
        PrependBelow(x, s, t[0], Insert(y, b, LE));
      } else if y <= t[0] {
        HeadInserts(t);
        InsertRises(x, t[0], a, b);
        PrependBelow(s[0], Insert(x, a, LE), y, t);
      } else {
        InsertRises(x, y, a, b);
        PrependBelow(s[0], Insert(x, a, LE), t[0], Insert(y, b, LE));
      }
    }
  }

  /** Raising samples raises every rank. */
  lemma {:induction false} SortRises(a: seq<real>, b: seq<real>)
    requires BelowEach(a, b)
    ensures BelowEach(Sort(a, LE), Sort(b, LE))
    decreases |a|
  {
    if a == [] {
    } else {
      assert BelowEach(a[1..], b[1..]);
      SortRises(a[1..], b[1..]);
      SortSorts(a[1..], LE);
      SortSorts(b[1..], LE);
      InsertRises(a[0], b[0], Sort(a[1..], LE), Sort(b[1..], LE));
    }
  }

  /** Raising any of the samples never lowers a percentile. */
  lemma PercentileMonotoneInSample(a: seq<real>, b: seq<real>, q: real)
    requires a != [] && BelowEach(a, b) && 0.0 <= q <= 100.0
    ensures Percentile(a, q).value <= Percentile(b, q).value
  {
    hide Interpolate, Sort;
    AscendingSample(a);
    AscendingSample(b);
    SortRises(a, b);
    InterpolateRises(Ascending(a), Ascending(b), Position(|a|, q));
  }

  lemma InterpolateRises(x: seq<real>, y: seq<real>, p: real)
    requires x != [] && |x| == |y| && 0.0 <= p <= (|x| - 1) as real
    requires forall i :: 0 <= i < |x| ==> x[i] <= y[i]
    ensures Interpolate(x, p) <= Interpolate(y, p)
  {
    hide Blend;
    var low := p.Floor;
    var high := if low + 1 < |x| - 1 then low + 1 else |x| - 1;
    BlendRisesInFirst(x[low], x[high], y[low], p - low as real);
    BlendRisesInSecond(y[low], x[high], y[high], p - low as real);
  }

  lemma BlendRisesInFirst(a: real, b: real, c: real, t: real)
    requires a <= c && 0.0 <= t <= 1.0
    ensures Blend(a, b, t) <= Blend(c, b, t)
  {
    hide Blend;
    NonNegative(c - a, 1.0 - t);
    BlendGap(a, b, c, b, t);
  }

  lemma BlendRisesInSecond(a: real, b: real, d: real, t: real)
    requires b <= d && 0.0 <= t <= 1.0
    ensures Blend(a, b, t) <= Blend(a, d, t)
  {
    hide Blend;
    NonNegative(d - b, t);
    BlendGap(a, b, a, d, t);
  }

  lemma BlendGap(a: real, b: real, c: real, d: real, t: real)
    ensures Blend(c, d, t) - Blend(a, b, t) == (c - a) * (1.0 - t) + (d - b) * t
  {
  }

  function Median(ordered: seq<real>): real
    requires ordered != []
  {
    var n := |ordered|;
    if n % 2 == 1 then ordered[n / 2] else (ordered[n / 2 - 1] + ordered[n / 2]) / 2.0
  }

  lemma MedianPosition(ordered: seq<real>)
    requires ordered != []
    ensures Interpolate(ordered, Position(|ordered|, 50.0)) == Median(ordered)
  {
    var n := |ordered|;
    var p := Position(n, 50.0);
    assert p == (n - 1) as real / 2.0;
    var k := (n - 1) / 2;
    if n % 2 == 1 {
      assert n - 1 == 2 * k && p == k as real;
    } else {
      assert n - 1 == 2 * k + 1 && p == k as real + 0.5 && p.Floor == k;
    }
  }

  /** p50 is the ordinary median: the middle sample, or the mean of the middle two. */
  lemma PercentileMedian(values: seq<real>)
    requires values != []
    ensures Ascending(values) != [] && Percentile(values, 50.0) == Some(Median(Ascending(values)))
  {
    AscendingSample(values);
    MedianPosition(Ascending(values));
  }
}
