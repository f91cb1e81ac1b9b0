/** What a rank says about the values it is computed from: within a period, within a group, within a window. */
module RankMeaning {
  import opened Common
  import opened Operators

  ghost function Lower(keys: set<string>, v: Column, k: string): set<string>
    requires keys <= v.Keys && k in v
  {
    set j | j in keys && v[j] < v[k]
  }

  ghost function Higher(keys: set<string>, v: Column, k: string): set<string>
    requires keys <= v.Keys && k in v
  {
    set j | j in keys && v[j] > v[k]
  }

  ghost function Level(keys: set<string>, v: Column, k: string): set<string>
    requires keys <= v.Keys && k in v
  {
    set j | j in keys && v[j] == v[k]
  }

  /** A rank among `n` with `lower` below and `higher` above: a fraction that lies above the middle by as many
      half steps as there are more names below than above, at the ends exactly with all others on one side. */
  ghost predicate Placed(rank: real, n: nat, lower: nat, higher: nat) {
    && 0.0 <= rank <= 1.0
    && (n == 1 ==> rank == 0.5)
    && (n > 1 ==>
          && (2.0 * rank - 1.0) * (n as real - 1.0) == lower as real - higher as real
          && (rank == 0.0 <==> higher == n - 1)
          && (rank == 1.0 <==> lower == n - 1))
  }

  /** `r` ranks `keys` by value: it orders them as their values do, equal values equally, each in its place. */
  ghost predicate IsRanking(keys: set<string>, v: Column, r: Column)
    requires keys <= v.Keys && keys <= r.Keys
  {
    && (forall j, k :: j in keys && k in keys ==> (r[j] < r[k] <==> v[j] < v[k]) && (r[j] == r[k] <==> v[j] == v[k]))
    && (forall k :: k in keys ==> Placed(r[k], |keys|, |Lower(keys, v, k)|, |Higher(keys, v, k)|))
  }

  // ------------------------------------------------------------------ counting

  lemma Partition(keys: set<string>, v: Column, k: string)
    requires keys <= v.Keys && k in keys
    ensures |Lower(keys, v, k)| + |Level(keys, v, k)| + |Higher(keys, v, k)| == |keys|
    ensures |Level(keys, v, k)| >= 1
  {
    var a, b, c := Lower(keys, v, k), Level(keys, v, k), Higher(keys, v, k);
    assert keys == a + b + c;
    assert a !! b && (a + b) !! c;
    assert k in b;
  }

  lemma Smaller(a: set<string>, b: set<string>)
    requires a <= b
    ensures |a| <= |b| && (a != b ==> |a| < |b|)
  {
    assert b == a + (b - a);
  }

  /** A larger value has more below it and fewer above it. */
  lemma MoreBelow(keys: set<string>, v: Column, j: string, k: string)
    requires keys <= v.Keys && j in keys && k in keys && v[j] < v[k]
    ensures |Lower(keys, v, j)| < |Lower(keys, v, k)| && |Higher(keys, v, k)| < |Higher(keys, v, j)|
  {
    assert j in Lower(keys, v, k) - Lower(keys, v, j) && k in Higher(keys, v, j) - Higher(keys, v, k);
    Smaller(Lower(keys, v, j), Lower(keys, v, k));
    Smaller(Higher(keys, v, k), Higher(keys, v, j));
  }

  // ------------------------------------------------------------------ numbers only

  lemma PlaceOf(rank: real, n: nat, lower: nat, level: nat, higher: nat)
    requires n > 1 && level >= 1 && lower + level + higher == n
    requires rank == (lower as real + (level as real - 1.0) / 2.0) / (n as real - 1.0)
    ensures Placed(rank, n, lower, higher)
  {
    var m, up := n as real - 1.0, lower as real + (level as real - 1.0) / 2.0;
    assert rank * m == up;
    assert 2.0 * up - m == lower as real - higher as real;
    Twice(rank, m, up);
    Fraction(rank, m, up);
  }

  lemma Twice(rank: real, m: real, up: real)
    requires rank * m == up
    ensures (2.0 * rank - 1.0) * m == 2.0 * up - m
  {
  }

  lemma Fraction(q: real, m: real, a: real)
    requires m > 0.0 && 0.0 <= a <= m && q * m == a
    ensures 0.0 <= q <= 1.0 && (q == 0.0 <==> a == 0.0) && (q == 1.0 <==> a == m)
  {
  }

  lemma RanksCompare(a: real, b: real, m: real, x: real, y: real)
    requires m > 0.0 && (2.0 * a - 1.0) * m == x && (2.0 * b - 1.0) * m == y
    ensures (a < b <==> x < y) && (a == b <==> x == y)
  {
    assert y - x == 2.0 * (b - a) * m;
  }

  // ------------------------------------------------------------------ among names

  lemma PlacedAmong(keys: set<string>, v: Column, k: string)
    requires keys <= v.Keys && k in keys
    ensures Placed(RankAmong(keys, v, k), |keys|, |Lower(keys, v, k)|, |Higher(keys, v, k)|)
  {
    Partition(keys, v, k);
    if |keys| > 1 {
      PlaceOf(RankAmong(keys, v, k), |keys|, |Lower(keys, v, k)|, |Level(keys, v, k)|, |Higher(keys, v, k)|);
    }
  }

  lemma ComparedAmong(keys: set<string>, v: Column, j: string, k: string)
    requires keys <= v.Keys && j in keys && k in keys
    ensures var a, b := RankAmong(keys, v, j), RankAmong(keys, v, k);
            (a < b <==> v[j] < v[k]) && (a == b <==> v[j] == v[k])
  {
    if v[j] == v[k] {
      assert Lower(keys, v, j) == Lower(keys, v, k) && Level(keys, v, j) == Level(keys, v, k);
    } else {
      assert |keys| > 1 by { Smaller({j, k}, keys); }
      if v[j] < v[k] { MoreBelow(keys, v, j, k); } else { MoreBelow(keys, v, k, j); }
      PlacedAmong(keys, v, j);
      PlacedAmong(keys, v, k);
      RanksCompare(RankAmong(keys, v, j), RankAmong(keys, v, k), |keys| as real - 1.0,
                   |Lower(keys, v, j)| as real - |Higher(keys, v, j)| as real,
                   |Lower(keys, v, k)| as real - |Higher(keys, v, k)| as real);
    }
  }

  /** A column whose entries over `keys` are those names' ranks among them ranks them. */
  lemma RanksAreRanking(keys: set<string>, v: Column, r: Column)
    requires keys <= v.Keys && keys <= r.Keys && forall k :: k in keys ==> r[k] == RankAmong(keys, v, k)
    ensures IsRanking(keys, v, r)
  {
    forall j, k | j in keys && k in keys ensures (r[j] < r[k] <==> v[j] < v[k]) && (r[j] == r[k] <==> v[j] == v[k]) {
      ComparedAmong(keys, v, j, k);
    }
    forall k | k in keys ensures Placed(r[k], |keys|, |Lower(keys, v, k)|, |Higher(keys, v, k)|) { PlacedAmong(keys, v, k); }
  }

  /** `rank` ranks all names of the column. */
  lemma RankMeans(v: Column)
    ensures IsRanking(v.Keys, v, RankColumn(v))
  {
    RanksAreRanking(v.Keys, v, RankColumn(v));
  }

  /** Both unlabelled, or one label, "__ungrouped__" being the label of the unlabelled. */
  ghost predicate SameGroup(groups: map<string, string>, j: string, k: string) {
    if j in groups && k in groups then groups[j] == groups[k]
    else if j in groups then groups[j] == "__ungrouped__"
    else if k in groups then groups[k] == "__ungrouped__"
    else true
  }

  /** The names of the column in the group of `k`. */
  ghost function GroupNames(v: Column, groups: map<string, string>, k: string): set<string> {
    set j | j in v && SameGroup(groups, j, k)
  }

  lemma PeersAreGroup(v: Column, groups: map<string, string>, k: string)
    ensures Peers(v, groups, k) == GroupNames(v, groups, k)
  {
  }

  /** `group_rank` ranks every group within itself. */
  lemma GroupRankMeans(v: Column, groups: map<string, string>, k: string)
    requires k in v
    ensures IsRanking(GroupNames(v, groups, k), v, GroupRankColumn(v, groups))
  {
    PeersAreGroup(v, groups, k);
    var keys, r := Peers(v, groups, k), GroupRankColumn(v, groups);
    forall j | j in keys ensures r[j] == RankAmong(keys, v, j) { assert Peers(v, groups, j) == keys; }
    RanksAreRanking(keys, v, r);
  }

  // ------------------------------------------------------------------ in a window

  /** The places of a window's values below and above `x`. */
  ghost function PlacesBelow(w: seq<real>, x: real): set<nat> { set j: nat | j < |w| && w[j] < x }
  ghost function PlacesAbove(w: seq<real>, x: real): set<nat> { set j: nat | j < |w| && w[j] > x }

  lemma {:induction false} CountsArePlaces(w: seq<real>, x: real)
    ensures CountBelow(w, x) == |PlacesBelow(w, x)|
    ensures CountBelow(w, x) + CountSame(w, x) + |PlacesAbove(w, x)| == |w|
    decreases |w|
  {
    if w != [] {
      var n, init := |w| - 1, w[..|w| - 1];
      CountsArePlaces(init, x);
      assert PlacesBelow(w, x) == PlacesBelow(init, x) + (if w[n] < x then {n} else {});
      assert PlacesAbove(w, x) == PlacesAbove(init, x) + (if w[n] > x then {n} else {});
    }
  }

  lemma {:induction false} LastIsCounted(w: seq<real>)
    requires w != []
    ensures CountSame(w, w[|w| - 1]) >= 1
  {
  }

  /** `ts_rank` places the last value among the window's. */
  lemma WindowRankMeans(w: seq<real>)
    requires w != []
    ensures var x := w[|w| - 1]; Placed(WindowRank(w), |w|, |PlacesBelow(w, x)|, |PlacesAbove(w, x)|)
  {
    var x := w[|w| - 1];
    CountsArePlaces(w, x);
    LastIsCounted(w);
    if |w| > 1 { PlaceOf(WindowRank(w), |w|, CountBelow(w, x), CountSame(w, x), |PlacesAbove(w, x)|); }
  }
}
