/** The schedule oracle of scripts/evaluate-candidates.py. */
module Schedule {
  import opened Sorting

  /** A JSON number; the non-finite ones are what `math.isfinite` rejects. */
  datatype Number = Finite(value: real) | NonFinite

  datatype RawInterval = RawInterval(start: Number, end: Number)

  datatype Interval = Interval(start: real, end: real)

  datatype Task = Task(count: nat, durations: seq<int>, windowStart: int, windowEnd: int)

  predicate Proper(raw: RawInterval) {
    raw.start.Finite? && raw.end.Finite? && raw.start.value < raw.end.value
  }

  predicate AllProper(raws: seq<RawInterval>) {
    forall i | 0 <= i < |raws| :: Proper(raws[i])
  }

  function Intervals(raws: seq<RawInterval>): (r: seq<Interval>)
    requires AllProper(raws)
    ensures |r| == |raws|
    ensures forall i :: 0 <= i < |r| ==> r[i] == Interval(raws[i].start.value, raws[i].end.value)
  {
    if raws == [] then []
    else [Interval(raws[0].start.value, raws[0].end.value)] + Intervals(raws[1..])
  }

  predicate Apart(a: Interval, b: Interval) {
    a.end <= b.start || b.end <= a.start
  }

  /** The oracle's pairwise half-open overlap test. */
  predicate PairwiseApart(s: seq<Interval>) {
    forall i, j | 0 <= i < j < |s| :: Apart(s[i], s[j])
  }

  predicate SemanticValid(raws: seq<RawInterval>) {
    1 <= |raws| <= 128 && AllProper(raws) && PairwiseApart(Intervals(raws))
  }

  function Lengths(s: seq<Interval>): seq<real> {
    if s == [] then [] else [s[0].end - s[0].start] + Lengths(s[1..])
  }

  function Reals(s: seq<int>): (r: seq<real>)
    ensures |r| == |s| && forall i :: 0 <= i < |s| ==> r[i] == s[i] as real
  {
    if s == [] then [] else [s[0] as real] + Reals(s[1..])
  }

  predicate InWindow(s: seq<Interval>, task: Task) {
    forall i | 0 <= i < |s| :: task.windowStart as real <= s[i].start && s[i].end <= task.windowEnd as real
  }

  predicate TaskAdherent(raws: seq<RawInterval>, task: Task) {
    && SemanticValid(raws)
    && |raws| == task.count
    && InWindow(Intervals(raws), task)
    && Ascending(Lengths(Intervals(raws))) == Ascending(Reals(task.durations))
  }

  predicate AllPositive(durations: seq<int>) {
    forall i | 0 <= i < |durations| :: durations[i] > 0
  }

  function Ascending(s: seq<real>): seq<real> {
    Sort(s, (a: real, b: real) => a <= b)
  }

  function Sum(s: seq<real>): real {
    if s == [] then 0.0 else s[0] + Sum(s[1..])
  }

  // ----- the pairwise test against a sweep over the intervals sorted by start

  function ByStart(s: seq<Interval>): seq<Interval> {
    Sort(s, (a: Interval, b: Interval) => a.start <= b.start)
  }

  predicate NeighboursApart(s: seq<Interval>) {
    forall i | 0 <= i < |s| - 1 :: s[i].end <= s[i + 1].start
  }

  predicate AllForward(s: seq<Interval>) {
    forall i | 0 <= i < |s| :: s[i].start < s[i].end
  }

  lemma ByStartSorts(s: seq<Interval>)
    ensures |ByStart(s)| == |s| && multiset(ByStart(s)) == multiset(s)
    ensures forall i, j :: 0 <= i < j < |s| ==> ByStart(s)[i].start <= ByStart(s)[j].start
  {
    var le := (a: Interval, b: Interval) => a.start <= b.start;
    SortPermutes(s, le);
    SortSorts(s, le);
    forall i, j | 0 <= i < j < |s| ensures ByStart(s)[i].start <= ByStart(s)[j].start {
      assert le(ByStart(s)[i], ByStart(s)[j]);
    }
  }

  /** The pairwise test as a property of the bag of intervals. */
  ghost predicate BagApart(bag: multiset<Interval>) {
    && (forall x, y | x in bag && y in bag && x != y :: Apart(x, y))
    && (forall x | x in bag && bag[x] >= 2 :: Apart(x, x))
  }

  lemma {:induction false} Twice(s: seq<Interval>, x: Interval) returns (i: nat, j: nat)
    requires multiset(s)[x] >= 2
    ensures i < j < |s| && s[i] == x == s[j]
  {
    assert s == [s[0]] + s[1..];
    if s[0] == x {
      assert x in multiset(s[1..]);
      var k :| 0 <= k < |s| - 1 && s[1..][k] == x;
      i, j := 0, k + 1;
    } else {
      i, j := Twice(s[1..], x);
      i, j := i + 1, j + 1;
    }
  }

  lemma PairwiseIsBag(s: seq<Interval>)
    ensures PairwiseApart(s) <==> BagApart(multiset(s))
  {
    if PairwiseApart(s) {
      forall x, y | x in multiset(s) && y in multiset(s) && x != y ensures Apart(x, y) {
        var i :| 0 <= i < |s| && s[i] == x;
        var j :| 0 <= j < |s| && s[j] == y;
        assert if i < j then Apart(s[i], s[j]) else Apart(s[j], s[i]);
      }
      forall x | x in multiset(s) && multiset(s)[x] >= 2 ensures Apart(x, x) {
        var i, j := Twice(s, x);
        assert Apart(s[i], s[j]);
      }
    }
    if BagApart(multiset(s)) {
      forall i, j | 0 <= i < j < |s| ensures Apart(s[i], s[j]) {
        assert s[i] in multiset(s) && s[j] in multiset(s);
        if s[i] == s[j] { CountTwo(s, i, j); }
      }
    }
  }

  lemma PairwiseIgnoresOrder(a: seq<Interval>, b: seq<Interval>)
    requires multiset(a) == multiset(b)
    ensures PairwiseApart(a) <==> PairwiseApart(b)
  {
    PairwiseIsBag(a);
    PairwiseIsBag(b);
  }

  lemma {:induction false} NeighboursChain(s: seq<Interval>, i: nat, j: nat)
    requires NeighboursApart(s) && AllForward(s) && i < j < |s|
    ensures s[i].end <= s[j].start
    decreases j
  {
    if i + 1 == j {
    } else {
      NeighboursChain(s, i, j - 1);
      assert s[j - 1].end <= s[j].start;
    }
  }

  lemma ForwardIgnoresOrder(a: seq<Interval>, b: seq<Interval>)
    requires multiset(a) == multiset(b) && AllForward(a)
    ensures AllForward(b)
  {
    forall i | 0 <= i < |b| ensures b[i].start < b[i].end {
      assert b[i] in multiset(b);
      var j :| 0 <= j < |a| && a[j] == b[i];
    }
  }

  /** The quadratic oracle and the linear sweep over sorted starts accept the same schedules. */
  lemma PairwiseIsSweep(s: seq<Interval>)
    requires AllForward(s)
    ensures PairwiseApart(s) <==> NeighboursApart(ByStart(s))
  {
    var t := ByStart(s);
    ByStartSorts(s);
    ForwardIgnoresOrder(s, t);
    PairwiseIgnoresOrder(s, t);
    if PairwiseApart(t) {
      forall i | 0 <= i < |t| - 1 ensures t[i].end <= t[i + 1].start {
        assert Apart(t[i], t[i + 1]) && t[i] in t && t[i + 1] in t;
      }
    }
    if NeighboursApart(t) {
      forall i, j | 0 <= i < j < |t| ensures Apart(t[i], t[j]) { NeighboursChain(t, i, j); }
    }
  }

  // ----- how much work fits in a window

  lemma {:induction false} InsertSum(x: real, s: seq<real>, le: (real, real) -> bool)
    ensures Sum(Insert(x, s, le)) == x + Sum(s)
  {
    if s == [] || le(x, s[0]) {
      assert ([x] + s)[1..] == s;
    } else {
      InsertSum(x, s[1..], le);
      assert ([s[0]] + Insert(x, s[1..], le))[1..] == Insert(x, s[1..], le);
    }
  }

  lemma {:induction false} SortSum(s: seq<real>, le: (real, real) -> bool)
    ensures Sum(Sort(s, le)) == Sum(s)
  {
    if s == [] {
    } else {
      SortSum(s[1..], le);
      InsertSum(s[0], Sort(s[1..], le), le);
    }
  }

  lemma {:induction false} InsertLengths(x: Interval, s: seq<Interval>, le: (Interval, Interval) -> bool)
    ensures Sum(Lengths(Insert(x, s, le))) == x.end - x.start + Sum(Lengths(s))
  {
    if s == [] || le(x, s[0]) {
      assert ([x] + s)[1..] == s;
      assert Lengths([x] + s)[1..] == Lengths(s);
    } else {
      var rest := Insert(x, s[1..], le);
      InsertLengths(x, s[1..], le);
      assert ([s[0]] + rest)[1..] == rest;
      assert Lengths([s[0]] + rest)[1..] == Lengths(rest);
      assert Lengths(s)[1..] == Lengths(s[1..]);
    }
  }

  lemma {:induction false} SortLengths(s: seq<Interval>, le: (Interval, Interval) -> bool)
    ensures Sum(Lengths(Sort(s, le))) == Sum(Lengths(s))
  {
    if s == [] {
    } else {
      SortLengths(s[1..], le);
      InsertLengths(s[0], Sort(s[1..], le), le);
      assert Lengths(s)[1..] == Lengths(s[1..]);
    }
  }

  /** Intervals laid end to end inside [lo, hi] have total length at most hi - lo. */
  lemma {:induction false} ChainFits(s: seq<Interval>, lo: real, hi: real)
    requires NeighboursApart(s) && AllForward(s) && lo <= hi
    requires forall i :: 0 <= i < |s| ==> s[i].end <= hi
    requires s != [] ==> lo <= s[0].start
    ensures Sum(Lengths(s)) <= hi - lo
  {
    if s == [] {
    } else {
      assert Lengths(s)[1..] == Lengths(s[1..]);
      assert forall i :: 0 <= i < |s| - 2 ==> s[1..][i].end <= s[1..][i + 1].start;
      if |s| > 1 { assert s[0].end <= s[1].start; }
      ChainFits(s[1..], s[0].end, hi);
    }
  }

  lemma AdherentSum(raws: seq<RawInterval>, task: Task)
    requires TaskAdherent(raws, task)
    ensures Sum(Reals(task.durations)) <= (task.windowEnd - task.windowStart) as real
  {
    hide Sort, Lengths, Reals, Intervals, Sum;
    var s := Intervals(raws);
    var t := ByStart(s);
    assert AllForward(s) by { AdherentIsForward(raws, task); }
    PairwiseIsSweep(s);
    ByStartSorts(s);
    SortLengths(s, (a: Interval, b: Interval) => a.start <= b.start);
    SortSum(Lengths(s), (a: real, b: real) => a <= b);
    SortSum(Reals(task.durations), (a: real, b: real) => a <= b);
    ForwardIgnoresOrder(s, t);
    forall i | 0 <= i < |t| ensures t[i] in s { assert t[i] in multiset(t); }
    ChainFits(t, task.windowStart as real, task.windowEnd as real);
  }

  lemma AdherentIsForward(raws: seq<RawInterval>, task: Task)
    requires TaskAdherent(raws, task)
    ensures AllForward(Intervals(raws))
  {
  }

  lemma AdherentPositive(raws: seq<RawInterval>, task: Task)
    requires TaskAdherent(raws, task)
    ensures |task.durations| == task.count && 1 <= task.count <= 128
    ensures AllPositive(task.durations)
  {
    hide Sort, PairwiseApart;
    var s := Intervals(raws);
    AdherentIsForward(raws, task);
    SortPermutes(Lengths(s), (a: real, b: real) => a <= b);
    SortPermutes(Reals(task.durations), (a: real, b: real) => a <= b);
    LengthsAt(s);
    forall i | 0 <= i < |task.durations| ensures task.durations[i] > 0 {
      var d := task.durations[i] as real;
      assert Reals(task.durations)[i] == d;
      assert d in multiset(Reals(task.durations));
      assert d in multiset(Lengths(s));
    }
  }

  lemma AdherentFits(raws: seq<RawInterval>, task: Task)
    requires TaskAdherent(raws, task)
    ensures Sum(Reals(task.durations)) <= (task.windowEnd - task.windowStart) as real
    ensures |task.durations| == task.count && 1 <= task.count <= 128
    ensures AllPositive(task.durations)
  {
    hide TaskAdherent;
    AdherentSum(raws, task);
    AdherentPositive(raws, task);
  }

  lemma {:induction false} LengthsAt(s: seq<Interval>)
    ensures |Lengths(s)| == |s|
    ensures forall i :: 0 <= i < |s| ==> Lengths(s)[i] == s[i].end - s[i].start
  {
    if s == [] {
    } else {
      LengthsAt(s[1..]);
    }
  }

  lemma AscendingAgree(x: seq<real>, y: seq<real>)
    ensures Ascending(x) == Ascending(y) <==> multiset(x) == multiset(y)
  {
    var le := (a: real, b: real) => a <= b;
    SortPermutes(x, le);
    SortPermutes(y, le);
    if multiset(x) == multiset(y) { SortIgnoresOrder(x, y, le); }
  }

  predicate RawInWindow(raws: seq<RawInterval>, task: Task)
    requires AllProper(raws)
  {
    forall i | 0 <= i < |raws| ::
      task.windowStart as real <= raws[i].start.value && raws[i].end.value <= task.windowEnd as real
  }

  lemma WindowMeans(raws: seq<RawInterval>, task: Task)
    requires AllProper(raws)
    ensures InWindow(Intervals(raws), task) <==> RawInWindow(raws, task)
  {
    var s := Intervals(raws);
    if InWindow(s, task) {
      forall i | 0 <= i < |raws| ensures
        task.windowStart as real <= raws[i].start.value && raws[i].end.value <= task.windowEnd as real {
        assert task.windowStart as real <= s[i].start;
      }
    }
  }

  /** What adherence asks, with the durations as a bag. */
  lemma AdherentMeaning(raws: seq<RawInterval>, task: Task)
    ensures TaskAdherent(raws, task) <==>
      && 1 <= |raws| <= 128 && |raws| == task.count
      && AllProper(raws) && RawInWindow(raws, task)
      && PairwiseApart(Intervals(raws))
      && multiset(Lengths(Intervals(raws))) == multiset(Reals(task.durations))
  {
    hide PairwiseApart, Lengths, Reals, AllProper, Ascending, InWindow, RawInWindow, Intervals;
    if AllProper(raws) {
      AscendingAgree(Lengths(Intervals(raws)), Reals(task.durations));
      WindowMeans(raws, task);
    }
  }

  /** `t` is `s` without the element at `k`. */
  predicate IsWithout<T(==)>(s: seq<T>, t: seq<T>, k: nat)
    requires k < |s|
  {
    |t| == |s| - 1 && t[..k] == s[..k] && t[k..] == s[k + 1..]
  }

  function CutAt<T(==)>(s: seq<T>, k: nat): (t: seq<T>)
    requires k < |s|
    ensures IsWithout(s, t, k)
  {
    s[..k] + s[k + 1..]
  }

  lemma CutOut<T>(s: seq<T>, t: seq<T>, k: nat)
    requires k < |s| && IsWithout(s, t, k)
    ensures multiset(s) == multiset(t) + multiset{s[k]}
  {
    assert s == s[..k] + [s[k]] + s[k + 1..];
    assert t == t[..k] + t[k..];
  }

  lemma IntervalsWithout(a: seq<RawInterval>, b: seq<RawInterval>, k: nat)
    requires AllProper(a) && k < |a| && IsWithout(a, b, k)
    ensures AllProper(b) && IsWithout(Intervals(a), Intervals(b), k)
  {
    hide Intervals;
    forall i | 0 <= i < |b| ensures b[i] == if i < k then a[i] else a[i + 1] {
      if i < k { assert b[..k][i] == a[..k][i]; } else { assert b[k..][i - k] == a[k + 1..][i - k]; }
    }
  }

  lemma LengthsWithout(a: seq<Interval>, b: seq<Interval>, k: nat)
    requires k < |a| && IsWithout(a, b, k)
    ensures |Lengths(a)| == |a| && IsWithout(Lengths(a), Lengths(b), k)
    ensures Lengths(a)[k] == a[k].end - a[k].start
  {
    hide Lengths;
    LengthsAt(a);
    LengthsAt(b);
    forall i | 0 <= i < |b| ensures b[i] == if i < k then a[i] else a[i + 1] {
      if i < k { assert b[..k][i] == a[..k][i]; } else { assert b[k..][i - k] == a[k + 1..][i - k]; }
    }
  }

  ghost function IntervalBag(raws: seq<RawInterval>): multiset<Interval>
    requires AllProper(raws)
  {
    multiset(Intervals(raws))
  }

  ghost function LengthBag(raws: seq<RawInterval>): multiset<real>
    requires AllProper(raws)
  {
    multiset(Lengths(Intervals(raws)))
  }

  lemma BagsWithout(raws: seq<RawInterval>, others: seq<RawInterval>, k: nat, raw: RawInterval)
    requires AllProper(raws) && k < |raws| && IsWithout(raws, others, k) && raws[k] == raw
    ensures AllProper(others) && multiset(raws) == multiset(others) + multiset{raw}
    ensures IntervalBag(raws) == IntervalBag(others) + multiset{Interval(raw.start.value, raw.end.value)}
    ensures LengthBag(raws) == LengthBag(others) + multiset{raw.end.value - raw.start.value}
  {
    hide Lengths;
    IntervalsWithout(raws, others, k);
    LengthsWithout(Intervals(raws), Intervals(others), k);
    CutOut(raws, others, k);
    CutOut(Intervals(raws), Intervals(others), k);
    CutOut(Lengths(Intervals(raws)), Lengths(Intervals(others)), k);
  }

  lemma {:induction false} BagsAgree(a: seq<RawInterval>, b: seq<RawInterval>)
    requires multiset(a) == multiset(b) && AllProper(a) && AllProper(b)
    ensures IntervalBag(a) == IntervalBag(b) && LengthBag(a) == LengthBag(b)
    decreases |a|
  {
    hide IntervalBag, LengthBag, Proper;
    SameSize(a, b);
    if a == [] {
      assert b == [];
    } else {
      assert a[0] in multiset(b);
      var k := Find(b, a[0]);
      var c, d := CutAt(a, 0), CutAt(b, k);
      BagsWithout(a, c, 0, a[0]);
      BagsWithout(b, d, k, a[0]);
      SameRest(multiset(a), multiset(c), multiset(b), multiset(d), a[0]);
      BagsAgree(c, d);
    }
  }

  lemma SameSize<T>(a: seq<T>, b: seq<T>)
    requires multiset(a) == multiset(b)
    ensures |a| == |b|
  {
    assert |a| == |multiset(a)| == |multiset(b)| == |b|;
  }

  lemma Find<T>(s: seq<T>, x: T) returns (k: nat)
    requires x in multiset(s)
    ensures k < |s| && s[k] == x
  {
    k :| 0 <= k < |s| && s[k] == x;
  }

  lemma SameRest<T>(a: multiset<T>, c: multiset<T>, b: multiset<T>, d: multiset<T>, x: T)
    requires a == c + multiset{x} && b == d + multiset{x} && a == b
    ensures c == d
  {
    assert c == a - multiset{x} && d == b - multiset{x};
  }

  lemma ProperIgnoresOrder(a: seq<RawInterval>, b: seq<RawInterval>)
    requires multiset(a) == multiset(b) && AllProper(a)
    ensures AllProper(b)
  {
    forall i | 0 <= i < |b| ensures Proper(b[i]) {
      assert b[i] in multiset(b);
      var j :| 0 <= j < |a| && a[j] == b[i];
    }
  }

  lemma WindowIgnoresOrder(a: seq<RawInterval>, b: seq<RawInterval>, task: Task, durations: seq<int>)
    requires multiset(a) == multiset(b) && AllProper(a) && AllProper(b) && RawInWindow(a, task)
    ensures RawInWindow(b, task.(durations := durations))
  {
    forall i | 0 <= i < |b| ensures
      task.windowStart as real <= b[i].start.value && b[i].end.value <= task.windowEnd as real {
      var j := Find(a, b[i]);
    }
  }

  /** Neither the order of a schedule's intervals nor that of the task's durations matters. */
  lemma AdherentIgnoresOrder(a: seq<RawInterval>, b: seq<RawInterval>, task: Task, durations: seq<int>)
    requires multiset(a) == multiset(b)
    requires multiset(Reals(durations)) == multiset(Reals(task.durations))
    requires TaskAdherent(a, task)
    ensures TaskAdherent(b, task.(durations := durations))
  {
    hide PairwiseApart, Lengths, Reals, TaskAdherent, RawInWindow, AllProper, Intervals;
    SameSize(a, b);
    AdherentMeaning(a, task);
    ProperIgnoresOrder(a, b);
    BagsAgree(a, b);
    PairwiseIgnoresOrder(Intervals(a), Intervals(b));
    WindowIgnoresOrder(a, b, task, durations);
    AdherentMeaning(b, task.(durations := durations));
  }

  /** The schedule that runs the durations one after another from `at`. */
  function BackToBack(durations: seq<int>, at: int): seq<RawInterval> {
    if durations == [] then [] else
      [RawInterval(Finite(at as real), Finite((at + durations[0]) as real))]
      + BackToBack(durations[1..], at + durations[0])
  }

  lemma {:induction false} BackToBackWorks(durations: seq<int>, at: int)
    requires AllPositive(durations)
    ensures AllProper(BackToBack(durations, at)) && |BackToBack(durations, at)| == |durations|
    ensures var s := Intervals(BackToBack(durations, at));
      && PairwiseApart(s)
      && Lengths(s) == Reals(durations)
      && forall i :: 0 <= i < |s| ==> at as real <= s[i].start && s[i].end <= at as real + Sum(Reals(durations))
  {
    if durations == [] {
    } else {
      var d := durations[0];
      var rest := BackToBack(durations[1..], at + d);
      BackToBackWorks(durations[1..], at + d);
      var all := BackToBack(durations, at);
      var s, t := Intervals(all), Intervals(rest);
      assert all[1..] == rest;
      assert s == [Interval(at as real, (at + d) as real)] + t;
      assert d > 0;
      assert Reals(durations)[1..] == Reals(durations[1..]);
      assert s[1..] == t && Lengths(s) == [d as real] + Lengths(t);
      assert Sum(Reals(durations)) == d as real + Sum(Reals(durations[1..]));
      forall i, j | 0 <= i < j < |s| ensures Apart(s[i], s[j]) {
        assert s[j] == t[j - 1];
        if i > 0 { assert s[i] == t[i - 1]; }
      }
      SumNonNegative(durations[1..]);
    }
  }

  lemma {:induction false} SumNonNegative(durations: seq<int>)
    requires AllPositive(durations)
    ensures Sum(Reals(durations)) >= 0.0
  {
    if durations == [] {
    } else {
      SumNonNegative(durations[1..]);
      assert Reals(durations)[1..] == Reals(durations[1..]);
    }
  }

  /** A task can be met by some schedule exactly when its positive durations fit its window. */
  lemma Satisfiable(task: Task)
    ensures (exists raws :: TaskAdherent(raws, task)) <==>
      && |task.durations| == task.count && 1 <= task.count <= 128
      && AllPositive(task.durations)
      && Sum(Reals(task.durations)) <= (task.windowEnd - task.windowStart) as real
  {
    if raws :| TaskAdherent(raws, task) {
      AdherentFits(raws, task);
    }
    if && |task.durations| == task.count && 1 <= task.count <= 128
       && AllPositive(task.durations)
       && Sum(Reals(task.durations)) <= (task.windowEnd - task.windowStart) as real {
      var raws := BackToBack(task.durations, task.windowStart);
      BackToBackWorks(task.durations, task.windowStart);
      assert TaskAdherent(raws, task);
    }
  }
}
