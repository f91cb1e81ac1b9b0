/** Exact sums over the values of a dictionary, whatever the iteration order. */
module Sums {
  import opened Common

  ghost function SumOver(s: set<string>, m: map<string, real>): real
    requires s <= m.Keys
  {
    if s == {} then 0.0 else var k :| k in s; m[k] + SumOver(s - {k}, m)
  }

  /** Any key may be taken first. */
  lemma {:induction false} SumRemove(s: set<string>, m: map<string, real>, k: string)
    requires s <= m.Keys && k in s
    ensures SumOver(s, m) == m[k] + SumOver(s - {k}, m)
    decreases |s|
  {
    var j :| j in s && SumOver(s, m) == m[j] + SumOver(s - {j}, m);
    if j != k {
      SumRemove(s - {j}, m, k);
      SumRemove(s - {k}, m, j);
      assert s - {j} - {k} == s - {k} - {j};
    }
  }

  lemma {:induction false} SumSplit(a: set<string>, b: set<string>, m: map<string, real>)
    requires a + b <= m.Keys && a !! b
    ensures SumOver(a + b, m) == SumOver(a, m) + SumOver(b, m)
    decreases |a|
  {
    if a == {} {
      assert a + b == b;
    } else {
      var k :| k in a;
      SumRemove(a, m, k);
      SumRemove(a + b, m, k);
      assert a + b - {k} == (a - {k}) + b;
      SumSplit(a - {k}, b, m);
    }
  }

  lemma {:induction false} SumAtMost(s: set<string>, m: map<string, real>, n: map<string, real>)
    requires s <= m.Keys && s <= n.Keys && forall k :: k in s ==> m[k] <= n[k]
    ensures SumOver(s, m) <= SumOver(s, n)
    decreases |s|
  {
    if s != {} {
      var k :| k in s;
      SumRemove(s, m, k);
      SumRemove(s, n, k);
      SumAtMost(s - {k}, m, n);
    }
  }

  lemma SumSame(s: set<string>, m: map<string, real>, n: map<string, real>)
    requires s <= m.Keys && s <= n.Keys && forall k :: k in s ==> m[k] == n[k]
    ensures SumOver(s, m) == SumOver(s, n)
  {
    SumAtMost(s, m, n);
    SumAtMost(s, n, m);
  }

  lemma {:induction false} SumConstant(s: set<string>, m: map<string, real>, c: real)
    requires s <= m.Keys && forall k :: k in s ==> m[k] == c
    ensures SumOver(s, m) == c * |s| as real
    decreases |s|
  {
    if s != {} {
      var k :| k in s;
      SumRemove(s, m, k);
      SumConstant(s - {k}, m, c);
      Distribute(c, |s| as real, |s - {k}| as real, 1.0);
    }
  }

  lemma {:induction false} SumZero(s: set<string>, m: map<string, real>)
    requires s <= m.Keys && forall k :: k in s ==> m[k] == 0.0
    ensures SumOver(s, m) == 0.0
    decreases |s|
  {
    if s != {} {
      var k :| k in s;
      SumRemove(s, m, k);
      SumZero(s - {k}, m);
    }
  }

  lemma Distribute(f: real, t: real, a: real, b: real)
    requires t == a + b
    ensures f * t == f * a + f * b
  {
  }

  ghost predicate AddsUp(g: real -> real, a: real, b: real) {
    g(a + b) == g(a) + g(b)
  }

  ghost predicate Additive(g: real -> real) {
    g(0.0) == 0.0 && forall a, b :: AddsUp(g, a, b)
  }

  /** An additive function of every value is that function of the sum. */
  lemma {:induction false} SumAdditive(s: set<string>, m: map<string, real>, n: map<string, real>, g: real -> real)
    requires s <= m.Keys && s <= n.Keys && Additive(g) && forall k :: k in s ==> n[k] == g(m[k])
    ensures SumOver(s, n) == g(SumOver(s, m))
    decreases |s|
  {
    if s != {} {
      var k :| k in s;
      SumAdditive(s - {k}, m, n, g);
      SumRemove(s, m, k);
      SumRemove(s, n, k);
      assert AddsUp(g, m[k], SumOver(s - {k}, m));
    }
  }

  function Times(f: real): real -> real {
    x => f * x
  }

  lemma TimesIsAdditive(f: real)
    ensures Additive(Times(f))
  {
    forall a, b ensures AddsUp(Times(f), a, b) { Distribute(f, a + b, a, b); }
  }

  /** A multiple of every value is the same multiple of the sum. */
  lemma SumScaled(s: set<string>, m: map<string, real>, n: map<string, real>, f: real)
    requires s <= m.Keys && s <= n.Keys && forall k :: k in s ==> n[k] == f * m[k]
    ensures SumOver(s, n) == f * SumOver(s, m)
  {
    assert SumOver(s, n) == Times(f)(SumOver(s, m)) by {
      assert forall k :: k in s ==> n[k] == Times(f)(m[k]);
      TimesIsAdditive(f);
      SumAdditive(s, m, n, Times(f));
    }
  }

  lemma {:induction false} SumNonNegative(s: set<string>, m: map<string, real>)
    requires s <= m.Keys && forall k :: k in s ==> m[k] >= 0.0
    ensures SumOver(s, m) >= 0.0
    decreases |s|
  {
    if s != {} {
      var k :| k in s;
      SumRemove(s, m, k);
      SumNonNegative(s - {k}, m);
    }
  }

  lemma SumPositive(s: set<string>, m: map<string, real>)
    requires s <= m.Keys && s != {} && forall k :: k in s ==> m[k] > 0.0
    ensures SumOver(s, m) > 0.0
  {
    var k :| k in s;
    SumRemove(s, m, k);
    SumNonNegative(s - {k}, m);
  }

  /** The accumulating loop over a dictionary's values. */
  method SumValues(s: set<string>, m: map<string, real>) returns (total: real)
    requires s <= m.Keys
    ensures total == SumOver(s, m)
  {
    total := 0.0;
    var left := s;
    while left != {}
      invariant left <= s
      invariant total + SumOver(left, m) == SumOver(s, m)
      decreases |left|
    {
      var k :| k in left;
      SumRemove(left, m, k);
      total := total + m[k];
      left := left - {k};
    }
  }

  function Magnitudes(m: map<string, real>): map<string, real> {
    map k | k in m :: Abs(m[k])
  }

  /** Total absolute value. */
  ghost function Gross(m: map<string, real>): real {
    SumOver(m.Keys, Magnitudes(m))
  }
}
