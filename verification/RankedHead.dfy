/** The head of a ranked listing: scripts/hub_trending.py, `select_head` and its reload in `load_table`. */
module RankedHead {
  import opened RealFacts
  import opened Sorting
  import opened Wrappers

  /** `score` is `trendingScore`, an absent one counting as 0. */
  datatype Model = Model(id: string, score: real)

  datatype Rule = Whole | Coverage(share: real) | MinScore(score: real)

  datatype Summary = Summary(size: nat, listing: nat, weight: real, totalWeight: real)

  predicate HigherFirst(a: Model, b: Model) {
    a.score >= b.score
  }

  function Ranked(models: seq<Model>): seq<Model> {
    Sort(models, HigherFirst)
  }

  function Weight(models: seq<Model>): real {
    if models == [] then 0.0 else models[0].score + Weight(models[1..])
  }

  /** The listing's weight, summed in ranked order; `RankedWeight` equates it with any order's sum. */
  function TotalWeight(models: seq<Model>): real {
    Weight(Ranked(models))
  }

  function AtLeast(models: seq<Model>, score: real): seq<Model> {
    if models == [] then []
    else (if models[0].score >= score then [models[0]] else []) + AtLeast(models[1..], score)
  }

  /** The shortest prefix of `ranked` of at least `size` models that weighs `target`, or all of it. */
  function CoverSize(ranked: seq<Model>, target: real, size: nat): (n: nat)
    requires size <= |ranked|
    ensures size <= n <= |ranked|
    ensures n < |ranked| ==> Weight(ranked[..n]) >= target
    ensures forall k :: size <= k < n ==> Weight(ranked[..k]) < target
    decreases |ranked| - size
  {
    if size == |ranked| || Weight(ranked[..size]) >= target then size
    else CoverSize(ranked, target, size + 1)
  }

  function CoverTarget(models: seq<Model>, share: real): real {
    share * TotalWeight(models)
  }

  function CoverHead(ranked: seq<Model>, target: real): seq<Model> {
    ranked[..CoverSize(ranked, target, 0)]
  }

  function Head(models: seq<Model>, rule: Rule): seq<Model> {
    var ranked := Ranked(models);
    match rule
    case Whole => ranked
    case Coverage(share) => CoverHead(ranked, CoverTarget(models, share))
    case MinScore(score) => AtLeast(ranked, score)
  }

  /** The accumulation loop of the coverage rule. */
  method Cover(ranked: seq<Model>, target: real) returns (head: seq<Model>)
    ensures head == CoverHead(ranked, target)
  {
    var size, reached := 0, 0.0;
    while size < |ranked| && reached < target
      invariant 0 <= size <= |ranked| && reached == Weight(ranked[..size])
      invariant CoverSize(ranked, target, 0) == CoverSize(ranked, target, size)
    {
      WeightAppend(ranked[..size], ranked[size]);
      assert ranked[..size + 1] == ranked[..size] + [ranked[size]];
      reached := reached + ranked[size].score;
      size := size + 1;
    }
    head := ranked[..size];
  }

  method SelectHead(models: seq<Model>, rule: Rule) returns (head: seq<Model>, summary: Summary)
    ensures head == Head(models, rule)
    ensures summary == Summary(|head|, |models|, Weight(head), TotalWeight(models))
  {
    hide CoverTarget, CoverHead, Weight, Ranked, AtLeast;
    var ranked := Ranked(models);
    match rule {
      case Whole => head := ranked;
      case Coverage(share) => head := Cover(ranked, CoverTarget(models, share));
      case MinScore(score) => head := AtLeast(ranked, score);
    }
    summary := Summary(|head|, |models|, Weight(head), TotalWeight(models));
  }

  /** What `load_table` works on: the recorded size cut from the re-sorted listing, or the listing. */
  function Reloaded(listing: seq<Model>, recorded: Option<nat>): seq<Model> {
    if recorded.Some? && recorded.value < |Ranked(listing)| then Ranked(listing)[..recorded.value]
    else listing
  }

  lemma {:induction false} WeightAppend(models: seq<Model>, m: Model)
    ensures Weight(models + [m]) == Weight(models) + m.score
  {
    if models == [] {
    } else {
      WeightAppend(models[1..], m);
      assert (models + [m])[1..] == models[1..] + [m];
    }
  }

  lemma {:induction false} WeightWithout(models: seq<Model>, k: nat)
    requires k < |models|
    ensures Weight(models) == models[k].score + Weight(Minus(models, k))
  {
    if k == 0 {
      assert models[..0] + models[1..] == models[1..];
    } else {
      WeightWithout(models[1..], k - 1);
      assert (models[..k] + models[k + 1..])[1..] == models[1..][..k - 1] + models[1..][k..];
    }
  }

  lemma RankedSorts(models: seq<Model>)
    ensures |Ranked(models)| == |models| && multiset(Ranked(models)) == multiset(models)
    ensures Sorted(Ranked(models), HigherFirst)
  {
    SortPermutes(models, HigherFirst);
    SortSorts(models, HigherFirst);
  }

  lemma {:induction false} InsertWeight(m: Model, s: seq<Model>)
    ensures Weight(Insert(m, s, HigherFirst)) == m.score + Weight(s)
  {
    if s == [] || m.score >= s[0].score {
    } else {
      InsertWeight(m, s[1..]);
      assert ([s[0]] + Insert(m, s[1..], HigherFirst))[1..] == Insert(m, s[1..], HigherFirst);
    }
  }

  lemma {:induction false} RankedWeight(models: seq<Model>)
    ensures TotalWeight(models) == Weight(models)
  {
    RankedSorts(models);
    if models == [] {
    } else {
      RankedWeight(models[1..]);
      InsertWeight(models[0], Ranked(models[1..]));
    }
  }

  function Minus(s: seq<Model>, k: nat): seq<Model>
    requires k < |s|
  {
    s[..k] + s[k + 1..]
  }

  lemma Without(s: seq<Model>, k: nat)
    requires k < |s|
    ensures multiset(Minus(s, k)) == multiset(s) - multiset{s[k]}
  {
    assert s == s[..k] + [s[k]] + s[k + 1..];
  }

  lemma TopIsHeaviest(ranked: seq<Model>, m: Model)
    requires Sorted(ranked, HigherFirst) && m in multiset(ranked)
    ensures ranked != [] && m.score <= ranked[0].score
  {
    var i :| 0 <= i < |ranked| && ranked[i] == m;
    assert i == 0 || HigherFirst(ranked[0], ranked[i]);
  }

  lemma DropBoth(c: multiset<Model>, r: multiset<Model>, x: Model, top: Model)
    requires c <= r && (x == top || top !in c)
    ensures c - multiset{x} <= r - multiset{top}
  {
  }

  /** Some member of `c` can be traded for the top of the ranking without losing weight. */
  lemma Tradable(ranked: seq<Model>, c: seq<Model>) returns (k: nat)
    requires Sorted(ranked, HigherFirst) && multiset(c) <= multiset(ranked) && c != []
    ensures k < |c| && ranked != [] && c[k].score <= ranked[0].score
    ensures multiset(Minus(c, k)) <= multiset(ranked[1..])
  {
    assert c[0] in multiset(c);
    TopIsHeaviest(ranked, c[0]);
    k := Choose(c, ranked[0]);
    assert c[k] in multiset(c);
    TopIsHeaviest(ranked, c[k]);
    Shrinks(ranked, c, k);
  }

  lemma Shrinks(ranked: seq<Model>, c: seq<Model>, k: nat)
    requires multiset(c) <= multiset(ranked) && ranked != [] && k < |c|
    requires c[k] == ranked[0] || ranked[0] !in multiset(c)
    ensures multiset(Minus(c, k)) <= multiset(ranked[1..])
  {
    hide Minus;
    DropBoth(multiset(c), multiset(ranked), c[k], ranked[0]);
    Without(c, k);
    RestOf(ranked);
  }

  lemma Choose(c: seq<Model>, top: Model) returns (k: nat)
    requires c != []
    ensures k < |c| && (c[k] == top || top !in multiset(c))
  {
    if i :| 0 <= i < |c| && c[i] == top { k := i; } else { k := 0; }
  }

  /** No collection outweighs the equally long prefix of a ranking that contains it. */
  lemma {:induction false} PrefixIsHeaviest(ranked: seq<Model>, c: seq<Model>)
    requires Sorted(ranked, HigherFirst) && multiset(c) <= multiset(ranked)
    ensures |c| <= |ranked| && Weight(c) <= Weight(ranked[..|c|])
  {
    if c == [] {
    } else {
      var k := Tradable(ranked, c);
      var rest, others := ranked[1..], Minus(c, k);
      assert Sorted(rest, HigherFirst) by {
        forall i, j | 0 <= i < j < |rest| ensures HigherFirst(rest[i], rest[j]) {
          assert HigherFirst(ranked[i + 1], ranked[j + 1]);
        }
      }
      PrefixIsHeaviest(rest, others);
      WeightWithout(c, k);
      assert ranked[..|c|][1..] == rest[..|others|];
    }
  }

  lemma CoverIsMinimal(ranked: seq<Model>, target: real, c: seq<Model>)
    requires Sorted(ranked, HigherFirst) && multiset(c) <= multiset(ranked)
    requires Weight(c) >= target
    ensures |CoverHead(ranked, target)| <= |c|
  {
    PrefixIsHeaviest(ranked, c);
  }

  /** The coverage head has minimum size: every collection of listed models, of any shape, that
      reaches the share is at least as large. */
  lemma CoverageIsMinimal(models: seq<Model>, share: real, c: seq<Model>)
    requires multiset(c) <= multiset(models)
    requires Weight(c) >= CoverTarget(models, share)
    ensures |Head(models, Coverage(share))| <= |c|
  {
    hide CoverTarget;
    RankedSorts(models);
    CoverIsMinimal(Ranked(models), CoverTarget(models, share), c);
  }

  lemma CoverReaches(ranked: seq<Model>, target: real)
    requires target <= Weight(ranked)
    ensures Weight(CoverHead(ranked, target)) >= target
    ensures multiset(CoverHead(ranked, target)) <= multiset(ranked)
  {
    var n := CoverSize(ranked, target, 0);
    assert ranked[..|ranked|] == ranked && ranked == ranked[..n] + ranked[n..];
  }

  lemma AtMostWhole(models: seq<Model>, share: real)
    requires share <= 1.0 && TotalWeight(models) >= 0.0
    ensures CoverTarget(models, share) <= TotalWeight(models)
  {
    hide Weight, Ranked;
    Scale(share, 1.0, TotalWeight(models));
  }

  /** For a non-negative listing a share of at most 1 is always reached. */
  lemma CoverageReaches(models: seq<Model>, share: real)
    requires forall m :: m in models ==> m.score >= 0.0
    requires share <= 1.0
    ensures Weight(Head(models, Coverage(share))) >= CoverTarget(models, share)
    ensures multiset(Head(models, Coverage(share))) <= multiset(models)
  {
    hide CoverTarget, Weight;
    RankedSorts(models);
    RankedWeight(models);
    WeightNonNegative(models);
    AtMostWhole(models, share);
    CoverReaches(Ranked(models), CoverTarget(models, share));
  }

  lemma {:induction false} WeightNonNegative(models: seq<Model>)
    requires forall m :: m in models ==> m.score >= 0.0
    ensures Weight(models) >= 0.0
  {
    if models == [] {
    } else {
      assert forall m :: m in models[1..] ==> m in models;
      WeightNonNegative(models[1..]);
    }
  }

  lemma {:induction false} AtLeastIsPrefix(ranked: seq<Model>, score: real)
    requires Sorted(ranked, HigherFirst)
    ensures AtLeast(ranked, score) <= ranked
  {
    if ranked == [] {
    } else {
      var rest := ranked[1..];
      AtLeastIsPrefix(rest, score);
      if ranked[0].score < score {
        forall i | 0 <= i < |rest| ensures rest[i].score < score {
          assert HigherFirst(ranked[0], ranked[i + 1]);
        }
        NoneAtLeast(rest, score);
      } else {
        assert ranked == [ranked[0]] + rest;
      }
    }
  }

  lemma {:induction false} NoneAtLeast(models: seq<Model>, score: real)
    requires forall i :: 0 <= i < |models| ==> models[i].score < score
    ensures AtLeast(models, score) == []
  {
    if models == [] {
    } else {
      NoneAtLeast(models[1..], score);
    }
  }

  lemma {:induction false} AtLeastCounts(models: seq<Model>, score: real, m: Model)
    ensures multiset(AtLeast(models, score))[m] == if m.score >= score then multiset(models)[m] else 0
  {
    if models == [] {
    } else {
      AtLeastCounts(models[1..], score, m);
      assert models == [models[0]] + models[1..];
    }
  }

  /** The score rule keeps exactly the models whose score reaches it, as often as they are listed and best
      first; without a rule everything is kept. */
  lemma ScoreHeadIsExact(models: seq<Model>, score: real, m: Model)
    ensures multiset(Head(models, MinScore(score)))[m] == if m.score >= score then multiset(models)[m] else 0
    ensures Sorted(Head(models, MinScore(score)), HigherFirst)
    ensures multiset(Head(models, Whole)) == multiset(models)
  {
    hide Ranked, AtLeast;
    RankedSorts(models);
    AtLeastCounts(Ranked(models), score, m);
    AtLeastIsPrefix(Ranked(models), score);
  }

  /** Whatever rule cut the head, re-sorting the listing and taking the recorded size gives it back;
      only a head that is the whole listing comes back in listing order. */
  lemma ReloadGivesHead(models: seq<Model>, rule: Rule)
    ensures var head := Head(models, rule);
      && (|head| < |models| ==> Reloaded(models, Some(|head|)) == head)
      && multiset(Reloaded(models, Some(|head|))) == multiset(head)
  {
    hide CoverTarget, AtLeast, Ranked, CoverSize;
    var ranked := Ranked(models);
    RankedSorts(models);
    HeadIsPrefix(models, rule);
    assert ranked[..|ranked|] == ranked && Head(models, rule) == ranked[..|Head(models, rule)|];
  }

  lemma HeadIsPrefix(models: seq<Model>, rule: Rule)
    ensures Head(models, rule) <= Ranked(models)
  {
    hide CoverTarget, Ranked;
    RankedSorts(models);
    if rule.MinScore? { AtLeastIsPrefix(Ranked(models), rule.score); }
  }
}
