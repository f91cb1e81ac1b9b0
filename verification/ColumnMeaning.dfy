/** What the cross-section and group operators make of a column, apart from its ranks. */
module ColumnMeaning {
  import opened Common
  import opened Sums
  import opened Truncation
  import opened Operators
  import opened RankMeaning

  /** `root` is the square root: nothing else is used of it. */
  ghost predicate SquareRoot(root: real -> real) {
    forall x :: x >= 0.0 ==> root(x) >= 0.0 && Square(root(x)) == x
  }

  function Square(x: real): real { x * x }

  /** The squared distances of a column's values from `m`. */
  function Spread(v: Column, m: real): Column {
    map k | k in v :: Square(v[k] - m)
  }

  /** `x` taken `n` times is the total. */
  ghost predicate Averages(x: real, n: real, total: real) { x * n == total }

  /** `m` is the mean of the column and `s` its population deviation. */
  ghost predicate Moments(v: Column, m: real, s: real) {
    && Averages(m, |v.Keys| as real, SumOver(v.Keys, v))
    && s >= 0.0 && Averages(Square(s), |v.Keys| as real, SumOver(v.Keys, Spread(v, m)))
  }

  /** A standard score: zero when nothing deviates, otherwise the distance from the mean in deviations. */
  ghost predicate Scored(x: real, m: real, s: real, score: real) {
    (s == 0.0 ==> x == m && score == 0.0) && (s > 0.0 ==> score * s == x - m)
  }

  ghost predicate Standardized(v: Column, m: real, s: real, r: Column) {
    r.Keys == v.Keys && forall k :: k in v ==> Scored(v[k], m, s, r[k])
  }

  /** Values further than four deviations from the mean come in to that distance; the others stay. */
  ghost predicate Winsorized(v: Column, m: real, s: real, r: Column) {
    && r.Keys == v.Keys
    && forall k :: k in v ==>
         && (v[k] > m + 4.0 * s ==> r[k] == m + 4.0 * s)
         && (v[k] < m - 4.0 * s ==> r[k] == m - 4.0 * s)
         && (m - 4.0 * s <= v[k] <= m + 4.0 * s ==> r[k] == v[k])
  }

  lemma Divided(total: real, n: real)
    requires n > 0.0
    ensures total / n * n == total && Averages(total / n, n, total)
  {
  }

  lemma SquarePositive(x: real)
    requires x > 0.0
    ensures Square(x) > 0.0
  {
    TimesPositive(x, x);
    assert Times(x)(x) == Square(x);
  }

  lemma SquareOpposite(x: real)
    ensures Square(-x) == Square(x)
  {
  }

  lemma SquareSign(x: real)
    ensures Square(x) >= 0.0 && (Square(x) == 0.0 <==> x == 0.0)
  {
    SquareOpposite(x);
    if x > 0.0 { SquarePositive(x); } else if x < 0.0 { SquarePositive(-x); }
  }

  lemma SpreadNonNegative(v: Column, m: real)
    ensures SumOver(v.Keys, Spread(v, m)) >= 0.0
  {
    forall k | k in v ensures Spread(v, m)[k] >= 0.0 { SquareSign(v[k] - m); }
    SumNonNegative(v.Keys, Spread(v, m));
  }

  lemma NonNegativeShare(total: real, n: real)
    requires total >= 0.0 && n > 0.0
    ensures total / n >= 0.0
  {
  }

  /** The mean of non-negative values, as its product with their number. */
  lemma ShareOf(total: real, n: real, x: real)
    requires total >= 0.0 && n > 0.0 && x == total / n
    ensures x >= 0.0 && Averages(x, n, total)
  {
    Divided(total, n);
    NonNegativeShare(total, n);
  }

  lemma VarianceIs(v: Column)
    requires v.Keys != {}
    ensures var x := VarianceOf(v);
            x >= 0.0 && Averages(x, |v.Keys| as real, SumOver(v.Keys, Spread(v, MeanOf(v.Keys, v))))
  {
    var q := Spread(v, MeanOf(v.Keys, v));
    VarianceIsShare(v);
    SpreadNonNegative(v, MeanOf(v.Keys, v));
    ShareOf(SumOver(v.Keys, q), |v.Keys| as real, VarianceOf(v));
  }

  lemma VarianceIsShare(v: Column)
    requires v.Keys != {}
    ensures VarianceOf(v) == SumOver(v.Keys, Spread(v, MeanOf(v.Keys, v))) / |v.Keys| as real
  {
    var m := MeanOf(v.Keys, v);
    assert (map k | k in v :: (v[k] - m) * (v[k] - m)) == Spread(v, m);
  }

  lemma MomentsAre(v: Column, root: real -> real)
    requires v.Keys != {} && SquareRoot(root)
    ensures Moments(v, MeanOf(v.Keys, v), root(VarianceOf(v)))
  {
    Divided(SumOver(v.Keys, v), |v.Keys| as real);
    VarianceIs(v);
  }

  lemma NothingDeviates(v: Column, m: real, k: string)
    requires SumOver(v.Keys, Spread(v, m)) == 0.0 && k in v
    ensures v[k] == m
  {
    var q := Spread(v, m);
    forall j | j in v ensures q[j] >= 0.0 { SquareSign(v[j] - m); }
    SumRemove(v.Keys, q, k);
    SumNonNegative(v.Keys - {k}, q);
    SquareSign(v[k] - m);
  }

  lemma ScoreOf(x: real, m: real, s: real, score: real)
    requires s >= 0.0 && (s == 0.0 ==> x == m) && score == if s == 0.0 then 0.0 else (x - m) / s
    ensures Scored(x, m, s, score)
  {
    if s > 0.0 { Divided(x - m, s); }
  }

  lemma ZScoreEntry(v: Column, root: real -> real, k: string)
    requires k in v
    ensures var m, s := MeanOf(v.Keys, v), root(VarianceOf(v));
            CrossApply(CrossZScore, v, root)[k] == if s == 0.0 then 0.0 else (v[k] - m) / s
  {
  }

  lemma ZScoreMeans(v: Column, root: real -> real) returns (m: real, s: real)
    requires v.Keys != {} && SquareRoot(root)
    ensures Moments(v, m, s) && Standardized(v, m, s, CrossApply(CrossZScore, v, root))
  {
    m, s := MeanOf(v.Keys, v), root(VarianceOf(v));
    MomentsAre(v, root);
    var r := CrossApply(CrossZScore, v, root);
    forall k | k in v ensures Scored(v[k], m, s, r[k]) {
      ZScoreEntry(v, root, k);
      if s == 0.0 { StillMean(v, m, s, k); }
      ScoreOf(v[k], m, s, r[k]);
    }
  }

  /** Without a deviation every value is the mean. */
  lemma StillMean(v: Column, m: real, s: real, k: string)
    requires Moments(v, m, s) && s == 0.0 && k in v
    ensures v[k] == m
  {
    SquareSign(s);
    NothingDeviates(v, m, k);
  }

  lemma FourDeviations(x: real, m: real, s: real, low: real, high: real)
    requires s >= 0.0 && low == m - 4.0 * s && high == m + 4.0 * s
    ensures var r := MinReal(MaxReal(x, low), high);
            (x > high ==> r == high) && (x < low ==> r == low) && (low <= x <= high ==> r == x)
  {
  }

  lemma WinsorizeMeans(v: Column, root: real -> real) returns (m: real, s: real)
    requires v.Keys != {} && SquareRoot(root)
    ensures Moments(v, m, s) && Winsorized(v, m, s, CrossApply(Winsorize, v, root))
  {
    m, s := MeanOf(v.Keys, v), root(VarianceOf(v));
    MomentsAre(v, root);
    forall k | k in v ensures s == 0.0 ==> v[k] == m {
      if s == 0.0 { StillMean(v, m, s, k); }
    }
    forall k | k in v { FourDeviations(v[k], m, s, m - 4.0 * s, m + 4.0 * s); }
  }

  // ------------------------------------------------------------------ within groups

  lemma {:induction false} SumShifted(s: set<string>, m: map<string, real>, n: map<string, real>, d: real)
    requires s <= m.Keys && s <= n.Keys && forall k :: k in s ==> n[k] == m[k] - d
    ensures SumOver(s, n) == SumOver(s, m) - d * |s| as real
    decreases |s|
  {
    if s != {} {
      var k :| k in s;
      SumRemove(s, m, k);
      SumRemove(s, n, k);
      SumShifted(s - {k}, m, n, d);
      Distribute(d, |s| as real, |s - {k}| as real, 1.0);
    }
  }

  /** Values less their own group's mean: each group sums to zero and keeps the differences between its names. */
  ghost predicate Neutralized(v: Column, groups: map<string, string>, r: Column) {
    && r.Keys == v.Keys
    && (forall k :: k in v ==> SumOver(GroupNames(v, groups, k), r) == 0.0)
    && (forall j, k :: j in v && k in v && SameGroup(groups, j, k) ==> r[j] - r[k] == v[j] - v[k])
  }

  lemma LessMean(v: Column, keys: set<string>, r: Column)
    requires keys <= v.Keys && keys <= r.Keys && keys != {} && forall k :: k in keys ==> r[k] == v[k] - MeanOf(keys, v)
    ensures SumOver(keys, r) == 0.0
  {
    SumShifted(keys, v, r, MeanOf(keys, v));
    Divided(SumOver(keys, v), |keys| as real);
  }

  lemma NeutralizeMeans(v: Column, groups: map<string, string>)
    ensures Neutralized(v, groups, GroupApply(GroupNeutralize, v, groups))
  {
    var r := GroupApply(GroupNeutralize, v, groups);
    forall k | k in v ensures SumOver(GroupNames(v, groups, k), r) == 0.0 {
      PeersAreGroup(v, groups, k);
      var keys := Peers(v, groups, k);
      assert k in keys;
      forall j | j in keys ensures r[j] == v[j] - MeanOf(keys, v) { assert Peers(v, groups, j) == keys; }
      LessMean(v, keys, r);
    }
    forall j, k | j in v && k in v && SameGroup(groups, j, k) ensures r[j] - r[k] == v[j] - v[k] {
      assert Peers(v, groups, j) == Peers(v, groups, k);
    }
  }
}
