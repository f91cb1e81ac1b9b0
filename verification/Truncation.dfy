/**
 `scale` and `truncate` of the operator library: weights are scaled to gross one and
 then capped, and what the capped names give up is shared among the others until no
 name is above the cap.  The result is a single water level.

 A level is carried as the function "times c"; the lemmas about sets of names use
 only that it is additive, and the arithmetic of `c` is kept to lemmas about numbers.
 */
module Truncation {
  import opened Common
  import opened Sums

  /** The comparison slack of the capping loop. */
  const SLACK := 0.000000000000001

  /** `scale`. */
  ghost function Scale(values: map<string, real>, target: real): map<string, real> {
    if Gross(values) == 0.0 then map k | k in values :: 0.0
    else map k | k in values :: values[k] * (target / Gross(values))
  }

  function Share(remaining: real, x: real, total: real): real
    requires total != 0.0
  {
    remaining * x / total
  }

  /** What each active name would receive of the remaining gross. */
  ghost function Shares(m: map<string, real>, active: set<string>, remaining: real): map<string, real>
    requires active <= m.Keys && SumOver(active, m) != 0.0
  {
    map k | k in active :: Share(remaining, m[k], SumOver(active, m))
  }

  ghost function Above(g: map<string, real>, cap: real): set<string> {
    set k | k in g && g[k] > cap + SLACK
  }

  ghost function Caps(over: set<string>, cap: real): map<string, real> {
    map k | k in over :: cap
  }

  /** `remaining` after the loop has subtracted the cap once for each overflowing name. */
  ghost function Left(remaining: real, over: set<string>, cap: real): real {
    remaining - SumOver(over, Caps(over, cap))
  }

  /** The magnitudes the `while active` loop freezes from here on. */
  ghost function Frozen(m: map<string, real>, active: set<string>, remaining: real, cap: real): map<string, real>
    requires active <= m.Keys
    decreases active
  {
    if active == {} || SumOver(active, m) == 0.0 then map[]
    else
      var g := Shares(m, active, remaining);
      var over := Above(g, cap);
      if over == {} then g
      else
        var left := Left(remaining, over, cap);
        Caps(over, cap) + (if left <= 0.0 then map[] else Frozen(m, active - over, left, cap))
  }

  ghost function Nonzero(m: map<string, real>): set<string> {
    set k | k in m && m[k] != 0.0
  }

  /** `truncate`, for a cap in (0, 1]. */
  ghost function Truncated(values: map<string, real>, cap: real): map<string, real> {
    var scaled := Scale(values, 1.0);
    Signed(scaled, Frozen(Weights(scaled), Nonzero(scaled), 1.0, cap))
  }

  /** `magnitudes`: the absolute value of every name that is not zero. */
  ghost function Weights(scaled: map<string, real>): map<string, real> {
    map k | k in Nonzero(scaled) :: Abs(scaled[k])
  }

  /** Frozen magnitudes with the signs of the scaled values; names that were not frozen are zero. */
  function Signed(scaled: map<string, real>, frozen: map<string, real>): map<string, real> {
    map k | k in scaled :: if k !in frozen then 0.0 else if scaled[k] > 0.0 then frozen[k] else -frozen[k]
  }

  // ------------------------------------------------------------ numbers only

  lemma Ordered(c: real, a: real, b: real)
    requires c >= 0.0 && a >= b
    ensures c * a >= c * b
  {
  }

  lemma OrderedStrictly(c: real, a: real, b: real)
    requires c > 0.0 && a > b
    ensures c * a > c * b
  {
  }

  lemma ShareIsLevel(remaining: real, x: real, total: real)
    requires total > 0.0
    ensures Share(remaining, x, total) == Times(remaining / total)(x)
  {
  }

  lemma LevelUsesAll(remaining: real, total: real)
    requires total > 0.0
    ensures Times(remaining / total)(total) == remaining
    ensures remaining > 0.0 ==> remaining / total > 0.0
  {
  }

  /** If what is left covers the rest at level `c`, then the next level is at least `c`. */
  lemma LevelRises(left: real, total: real, c: real)
    requires total > 0.0 && left >= Times(c)(total)
    ensures left / total >= c
  {
    LevelUsesAll(left, total);
    if left / total < c { OrderedStrictly(total, c, left / total); }
  }

  lemma HigherLevelGivesMore(c: real, d: real, x: real)
    requires d >= c && x >= 0.0
    ensures Times(d)(x) >= Times(c)(x)
  {
    Ordered(x, d, c);
  }

  // -------------------------------------------------------- sets of names

  /** All weights in play are positive and there is something left to share. */
  ghost predicate InPlay(m: map<string, real>, active: set<string>, remaining: real, cap: real) {
    active <= m.Keys && cap > 0.0 && remaining > 0.0 && forall k :: k in active ==> m[k] > 0.0
  }

  /** Every name of `g` is at level `lv`. */
  ghost predicate AllAt(g: map<string, real>, m: map<string, real>, lv: real -> real) {
    g.Keys <= m.Keys && forall k :: k in g ==> g[k] == lv(m[k])
  }

  lemma SharesAreLevel(m: map<string, real>, active: set<string>, remaining: real)
    requires active <= m.Keys && SumOver(active, m) > 0.0
    ensures AllAt(Shares(m, active, remaining), m, Times(remaining / SumOver(active, m)))
  {
    forall k | k in active
      ensures Share(remaining, m[k], SumOver(active, m)) == Times(remaining / SumOver(active, m))(m[k])
    {
      ShareIsLevel(remaining, m[k], SumOver(active, m));
    }
  }

  lemma SharesSum(m: map<string, real>, active: set<string>, remaining: real)
    requires active <= m.Keys && SumOver(active, m) > 0.0
    ensures SumOver(active, Shares(m, active, remaining)) == remaining
  {
    SharesAreLevel(m, active, remaining);
    LevelUsesAll(remaining, SumOver(active, m));
    TimesIsAdditive(remaining / SumOver(active, m));
    SumAdditive(active, m, Shares(m, active, remaining), Times(remaining / SumOver(active, m)));
  }

  /** Capping the overflowing names leaves more than the others would receive at the present level:
      so something is left, and the level can only rise. */
  lemma RoundLeavesMore(g: map<string, real>, cap: real, remaining: real)
    requires SumOver(g.Keys, g) == remaining && Above(g, cap) != {} && forall k :: k in g ==> g[k] >= 0.0
    ensures var over := Above(g, cap);
            && Left(remaining, over, cap) > SumOver(g.Keys - over, g)
            && Left(remaining, over, cap) > 0.0
  {
    var over := Above(g, cap);
    var rest := g.Keys - over;
    assert over + rest == g.Keys;
    SumSplit(over, rest, g);
    SumNonNegative(rest, g);
    var k :| k in over;
    SumRemove(over, g, k);
    SumRemove(over, Caps(over, cap), k);
    SumAtMost(over - {k}, Caps(over, cap), g);
  }

  /** A name of magnitude `mk` receives `x`: it is capped and the level is above the cap, or it is at
      the level, which is at most the cap plus the slack. */
  ghost predicate AtLevel(lv: real -> real, cap: real, mk: real, x: real) {
    (x == cap && lv(mk) > cap) || (x == lv(mk) && lv(mk) <= cap + SLACK)
  }

  /** The magnitudes `f` are one water level; they never exceed what there was to share, and they
      use it up exactly unless every name is capped. */
  ghost predicate Settled(m: map<string, real>, active: set<string>, remaining: real, cap: real,
                          lv: real -> real, f: map<string, real>)
  {
    && active <= m.Keys && f.Keys == active
    && (forall k :: k in active ==> AtLevel(lv, cap, m[k], f[k]))
    && SumOver(active, f) <= remaining
    && (SumOver(active, Caps(active, cap)) >= remaining ==> SumOver(active, f) == remaining)
  }

  lemma LastRoundSettles(m: map<string, real>, g: map<string, real>, remaining: real, cap: real, lv: real -> real)
    requires AllAt(g, m, lv) && SumOver(g.Keys, g) == remaining && Above(g, cap) == {}
    ensures Settled(m, g.Keys, remaining, cap, lv, g)
  {
    forall k | k in g ensures AtLevel(lv, cap, m[k], g[k]) { assert k !in Above(g, cap); }
  }

  /** A round that caps `over`, on top of the level at which the rest settles. */
  lemma CappedRoundSettles(m: map<string, real>, over: set<string>, rest: set<string>, remaining: real, cap: real,
                           lv: real -> real, tail: map<string, real>)
    requires over !! rest && over <= m.Keys && forall k :: k in over ==> lv(m[k]) > cap
    requires Settled(m, rest, Left(remaining, over, cap), cap, lv, tail)
    ensures Settled(m, over + rest, remaining, cap, lv, Caps(over, cap) + tail)
  {
    var f, all := Caps(over, cap) + tail, Caps(over + rest, cap);
    SumSplit(over, rest, f);
    SumSame(over, f, Caps(over, cap));
    SumSame(rest, f, tail);
    SumSplit(over, rest, all);
    SumSame(over, all, Caps(over, cap));
    SumSame(rest, all, Caps(rest, cap));
  }

  /** Names above the cap at one level are above it at every higher level. */
  lemma StayAbove(g: map<string, real>, m: map<string, real>, cap: real, c: real, d: real, k: string)
    requires AllAt(g, m, Times(c)) && k in Above(g, cap) && m[k] > 0.0 && d >= c
    ensures Times(d)(m[k]) > cap
  {
    HigherLevelGivesMore(c, d, m[k]);
  }

  /** The level of the next round: no lower than the present one. */
  lemma {:induction false} NextLevel(m: map<string, real>, active: set<string>, remaining: real, cap: real)
    requires InPlay(m, active, remaining, cap) && SumOver(active, m) > 0.0
    requires Above(Shares(m, active, remaining), cap) != {}
    ensures var over := Above(Shares(m, active, remaining), cap);
            var left, rest := Left(remaining, over, cap), active - over;
            && left > 0.0 && over <= active
            && (rest != {} ==> SumOver(rest, m) > 0.0 && left / SumOver(rest, m) >= remaining / SumOver(active, m))
  {
    var g, c := Shares(m, active, remaining), remaining / SumOver(active, m);
    var over := Above(g, cap);
    var rest := active - over;
    SharesAreLevel(m, active, remaining);
    SharesSum(m, active, remaining);
    assert g.Keys == active;
    forall k | k in g ensures g[k] >= 0.0 { SharePositive(m, active, remaining, cap, k); }
    RoundLeavesMore(g, cap, remaining);
    if rest != {} {
      SumPositive(rest, m);
      assert SumOver(rest, g) == Times(c)(SumOver(rest, m)) by {
        TimesIsAdditive(c);
        SumAdditive(rest, m, g, Times(c));
      }
      LevelRises(Left(remaining, over, cap), SumOver(rest, m), c);
    }
  }

  lemma SharePositive(m: map<string, real>, active: set<string>, remaining: real, cap: real, k: string)
    requires InPlay(m, active, remaining, cap) && SumOver(active, m) > 0.0 && k in active
    ensures Shares(m, active, remaining)[k] > 0.0
  {
    ShareIsLevel(remaining, m[k], SumOver(active, m));
    LevelUsesAll(remaining, SumOver(active, m));
    OrderedStrictly(remaining / SumOver(active, m), m[k], 0.0);
  }

  lemma LastStep(m: map<string, real>, active: set<string>, remaining: real, cap: real)
    requires InPlay(m, active, remaining, cap) && active != {} && SumOver(active, m) > 0.0
    requires Above(Shares(m, active, remaining), cap) == {}
    ensures Settled(m, active, remaining, cap, Times(remaining / SumOver(active, m)), Frozen(m, active, remaining, cap))
  {
    var g := Shares(m, active, remaining);
    assert g.Keys == active;
    SharesAreLevel(m, active, remaining);
    SharesSum(m, active, remaining);
    LastRoundSettles(m, g, remaining, cap, Times(remaining / SumOver(active, m)));
  }

  lemma CappedStep(m: map<string, real>, active: set<string>, remaining: real, cap: real, c: real, lv: real -> real)
    requires InPlay(m, active, remaining, cap) && active != {} && SumOver(active, m) > 0.0
    requires c >= remaining / SumOver(active, m) && lv == Times(c)
    requires var over := Above(Shares(m, active, remaining), cap);
             var left, rest := Left(remaining, over, cap), active - over;
             over != {} && left > 0.0 && Settled(m, rest, left, cap, lv, Frozen(m, rest, left, cap))
    ensures Settled(m, active, remaining, cap, lv, Frozen(m, active, remaining, cap))
  {
    var g := Shares(m, active, remaining);
    assert g.Keys == active;
    var over := Above(g, cap);
    var left, rest := Left(remaining, over, cap), active - over;
    SharesAreLevel(m, active, remaining);
    forall k | k in over ensures lv(m[k]) > cap { StayAbove(g, m, cap, remaining / SumOver(active, m), c, k); }
    CappedRoundSettles(m, over, rest, remaining, cap, lv, Frozen(m, rest, left, cap));
    assert over + rest == active;
  }

  /** The loop settles at one water level, no lower than any level it started from. */
  lemma {:induction false} FrozenSettles(m: map<string, real>, active: set<string>, remaining: real, cap: real, base: real)
    returns (c: real)
    requires InPlay(m, active, remaining, cap) && base > 0.0
    requires active != {} ==> SumOver(active, m) > 0.0 && remaining / SumOver(active, m) >= base
    ensures c >= base
    ensures Settled(m, active, remaining, cap, Times(c), Frozen(m, active, remaining, cap))
    decreases active
  {
    if active == {} {
      c := base;
    } else if Above(Shares(m, active, remaining), cap) == {} {
      c := remaining / SumOver(active, m);
      LastStep(m, active, remaining, cap);
    } else {
      var over := Above(Shares(m, active, remaining), cap);
      NextLevel(m, active, remaining, cap);
      c := FrozenSettles(m, active - over, Left(remaining, over, cap), cap, remaining / SumOver(active, m));
      CappedStep(m, active, remaining, cap, c, Times(c));
    }
  }

  // ------------------------------------------------------------------- truncate

  lemma TimesPositive(c: real, x: real)
    requires c > 0.0
    ensures x > 0.0 ==> Times(c)(x) > 0.0
    ensures x < 0.0 ==> Times(c)(x) < 0.0
    ensures x == 0.0 ==> Times(c)(x) == 0.0
  {
    if x > 0.0 { OrderedStrictly(c, x, 0.0); } else if x < 0.0 { OrderedStrictly(c, 0.0, x); }
  }

  lemma Inverse(g: real)
    requires g > 0.0
    ensures 1.0 / g > 0.0
  {
  }

  /** Scaling keeps every sign. */
  lemma ScaleKeepsSigns(values: map<string, real>)
    ensures Scale(values, 1.0).Keys == values.Keys
    ensures Gross(values) != 0.0 ==> forall k :: k in values ==>
              (values[k] > 0.0 <==> Scale(values, 1.0)[k] > 0.0) && (values[k] < 0.0 <==> Scale(values, 1.0)[k] < 0.0)
    ensures Gross(values) == 0.0 ==> forall k :: k in values ==> values[k] == 0.0 && Scale(values, 1.0)[k] == 0.0
  {
    var m := Magnitudes(values);
    if Gross(values) == 0.0 {
      forall k | k in values ensures values[k] == 0.0 {
        SumRemove(values.Keys, m, k);
        SumNonNegative(values.Keys - {k}, m);
      }
    } else {
      SumNonNegative(values.Keys, m);
      Inverse(Gross(values));
      forall k | k in values
        ensures (values[k] > 0.0 <==> Scale(values, 1.0)[k] > 0.0) && (values[k] < 0.0 <==> Scale(values, 1.0)[k] < 0.0)
      {
        TimesPositive(1.0 / Gross(values), values[k]);
      }
    }
  }

  lemma ScaleKeepsNonzero(values: map<string, real>)
    ensures Nonzero(Scale(values, 1.0)) == Nonzero(values)
  {
    ScaleKeepsSigns(values);
  }

  /** Signing positive magnitudes and leaving zeros out does not change the gross. */
  lemma GrossOfSigned(scaled: map<string, real>, frozen: map<string, real>)
    requires frozen.Keys <= scaled.Keys && forall k :: k in frozen ==> frozen[k] > 0.0
    ensures Gross(Signed(scaled, frozen)) == SumOver(frozen.Keys, frozen)
  {
    var m := Magnitudes(Signed(scaled, frozen));
    var rest := scaled.Keys - frozen.Keys;
    assert frozen.Keys + rest == scaled.Keys == m.Keys == Signed(scaled, frozen).Keys;
    SumSplit(frozen.Keys, rest, m);
    SumSame(frozen.Keys, m, frozen);
    SumZero(rest, m);
  }

  /** Between the ideal water level and the slack above it. */
  ghost predicate NearLevel(lv: real -> real, cap: real, magnitude: real, x: real) {
    MinReal(cap, lv(magnitude)) <= Abs(x) <= MinReal(cap, lv(magnitude)) + SLACK
  }

  /** Names that settled are near the level, whichever sign they take back; the others are zero. */
  lemma SignedIsNear(scaled: map<string, real>, f: map<string, real>, cap: real, lv: real -> real)
    requires cap > 0.0 && lv(0.0) == 0.0 && f.Keys == Nonzero(scaled)
    requires forall k :: k in f ==> lv(Abs(scaled[k])) > 0.0 && AtLevel(lv, cap, Abs(scaled[k]), f[k])
    ensures var r := Signed(scaled, f);
            && r.Keys == scaled.Keys
            && (forall k :: k in scaled ==> (scaled[k] > 0.0 <==> r[k] > 0.0) && (scaled[k] < 0.0 <==> r[k] < 0.0))
            && (forall k :: k in scaled ==> NearLevel(lv, cap, Abs(scaled[k]), r[k]))
            && (forall k :: k in f ==> f[k] > 0.0)
  {
  }

  /** The loop on its own: it starts with gross one and every non-zero name in play. */
  lemma FrozenFromOne(m: map<string, real>, cap: real) returns (c: real)
    requires cap > 0.0 && forall k :: k in m ==> m[k] > 0.0
    ensures c > 0.0 && Settled(m, m.Keys, 1.0, cap, Times(c), Frozen(m, m.Keys, 1.0, cap))
  {
    var base := 1.0;
    if m.Keys != {} {
      SumPositive(m.Keys, m);
      base := 1.0 / SumOver(m.Keys, m);
      Inverse(SumOver(m.Keys, m));
    }
    c := FrozenSettles(m, m.Keys, 1.0, cap, base);
  }

  /** Every name has the magnitude min(cap, level of its scaled magnitude) up to the slack, and its sign. */
  ghost predicate LevelsNames(values: map<string, real>, scaled: map<string, real>, cap: real,
                              lv: real -> real, r: map<string, real>)
  {
    && r.Keys == values.Keys == scaled.Keys
    && (forall k :: k in values ==> (values[k] > 0.0 <==> r[k] > 0.0) && (values[k] < 0.0 <==> r[k] < 0.0))
    && (forall k :: k in values ==> NearLevel(lv, cap, Abs(scaled[k]), r[k]))
  }

  /** Gross is at most one, and exactly one whenever the non-zero names can hold it under the cap. */
  ghost predicate FillsBook(names: set<string>, cap: real, r: map<string, real>) {
    && Gross(r) <= 1.0
    && (Capacity(names, cap) >= 1.0 ==> Gross(r) == 1.0)
  }

  /** What the names can hold under the cap: the cap once for each (see `CapacityIsProduct`). */
  ghost function Capacity(names: set<string>, cap: real): real {
    SumOver(names, Caps(names, cap))
  }

  ghost predicate IsWaterLevel(values: map<string, real>, scaled: map<string, real>, cap: real,
                               lv: real -> real, r: map<string, real>)
  {
    LevelsNames(values, scaled, cap, lv, r) && FillsBook(Nonzero(values), cap, r)
  }

  lemma SettledFillsBook(scaled: map<string, real>, f: map<string, real>, cap: real, lv: real -> real)
    requires Settled(Weights(scaled), Nonzero(scaled), 1.0, cap, lv, f) && forall k :: k in f ==> f[k] > 0.0
    ensures FillsBook(Nonzero(scaled), cap, Signed(scaled, f))
  {
    GrossOfSigned(scaled, f);
  }

  ghost predicate SameSigns(values: map<string, real>, scaled: map<string, real>) {
    && scaled.Keys == values.Keys
    && Nonzero(scaled) == Nonzero(values)
    && forall k :: k in values ==> (values[k] > 0.0 <==> scaled[k] > 0.0) && (values[k] < 0.0 <==> scaled[k] < 0.0)
  }

  lemma SettledLevelsNames(values: map<string, real>, scaled: map<string, real>, f: map<string, real>, cap: real,
                           lv: real -> real)
    requires cap > 0.0 && lv(0.0) == 0.0 && SameSigns(values, scaled)
    requires Settled(Weights(scaled), Nonzero(scaled), 1.0, cap, lv, f)
    requires forall k :: k in Nonzero(scaled) ==> lv(Abs(scaled[k])) > 0.0
    ensures LevelsNames(values, scaled, cap, lv, Signed(scaled, f)) && forall k :: k in f ==> f[k] > 0.0
  {
    forall k | k in f ensures AtLevel(lv, cap, Abs(scaled[k]), f[k]) {
      assert AtLevel(lv, cap, Weights(scaled)[k], f[k]);
    }
    SignedIsNear(scaled, f, cap, lv);
  }

  lemma ScaleSameSigns(values: map<string, real>)
    ensures SameSigns(values, Scale(values, 1.0))
  {
    ScaleKeepsSigns(values);
    ScaleKeepsNonzero(values);
  }

  lemma ScaledWaterLevel(values: map<string, real>, scaled: map<string, real>, cap: real) returns (c: real)
    requires cap > 0.0 && SameSigns(values, scaled)
    ensures c > 0.0
    ensures IsWaterLevel(values, scaled, cap, Times(c), Signed(scaled, Frozen(Weights(scaled), Nonzero(scaled), 1.0, cap)))
  {
    var m := Weights(scaled);
    assert m.Keys == Nonzero(scaled);
    c := FrozenFromOne(m, cap);
    TimesPositive(c, 0.0);
    forall k | k in Nonzero(scaled) ensures Times(c)(Abs(scaled[k])) > 0.0 { TimesPositive(c, Abs(scaled[k])); }
    SettledLevelsNames(values, scaled, Frozen(m, m.Keys, 1.0, cap), cap, Times(c));
    SettledFillsBook(scaled, Frozen(m, m.Keys, 1.0, cap), cap, Times(c));
  }

  /** A level over the scaled magnitude is a level over the magnitude itself. */
  lemma LevelOfMagnitude(c: real, g: real, x: real)
    requires g > 0.0
    ensures Times(c)(Abs(x * (1.0 / g))) == Times(c / g)(Abs(x))
  {
    var f, n := 1.0 / g, -x;
    assert n * f == -(x * f);
    if x >= 0.0 { ProductSign(x, f); } else { ProductSign(n, f); }
    QuotientMoves(c, g, Abs(x));
  }

  lemma ProductSign(a: real, b: real)
    requires a >= 0.0 && b > 0.0
    ensures a * b >= 0.0
  {
  }

  lemma QuotientMoves(c: real, g: real, x: real)
    requires g > 0.0
    ensures c * (x * (1.0 / g)) == c / g * x
  {
  }

  lemma PositiveQuotient(c: real, g: real)
    requires c > 0.0 && g > 0.0
    ensures c / g > 0.0
  {
  }

  lemma ScaledEntry(values: map<string, real>, k: string)
    requires k in values && Gross(values) > 0.0
    ensures Scale(values, 1.0)[k] == values[k] * (1.0 / Gross(values))
  {
  }

  lemma SameLevel(values: map<string, real>, c: real, g: real, k: string)
    requires k in values && g == Gross(values) > 0.0
    ensures Times(c)(Abs(Scale(values, 1.0)[k])) == Times(c / g)(Abs(values[k]))
  {
    ScaledEntry(values, k);
    LevelOfMagnitude(c, g, values[k]);
  }

  /** Levels that agree on every name's magnitude name the same weights. */
  lemma LevelsMove(values: map<string, real>, scaled: map<string, real>, cap: real, a: real -> real, b: real -> real,
                   r: map<string, real>)
    requires IsWaterLevel(values, scaled, cap, a, r)
    requires forall k :: k in values ==> a(Abs(scaled[k])) == b(Abs(values[k]))
    ensures IsWaterLevel(values, values, cap, b, r)
  {
    forall k | k in values ensures NearLevel(b, cap, Abs(values[k]), r[k]) {
      assert NearLevel(a, cap, Abs(scaled[k]), r[k]);
    }
  }

  /** The level at the scaled magnitudes, taken back to the caller's own values. */
  lemma LevelOfValues(values: map<string, real>, cap: real, c: real, r: map<string, real>) returns (d: real)
    requires c > 0.0 && IsWaterLevel(values, Scale(values, 1.0), cap, Times(c), r)
    ensures d > 0.0 && IsWaterLevel(values, values, cap, Times(d), r)
  {
    SumNonNegative(values.Keys, Magnitudes(values));
    var g := Gross(values);
    if g == 0.0 {
      d := c;
      ScaleKeepsSigns(values);
    } else {
      d := c / g;
      PositiveQuotient(c, g);
      forall k | k in values ensures Times(c)(Abs(Scale(values, 1.0)[k])) == Times(d)(Abs(values[k])) {
        SameLevel(values, c, g, k);
      }
    }
    LevelsMove(values, Scale(values, 1.0), cap, Times(c), Times(d), r);
  }

  /** `truncate` is one water level c over the caller's values: every name keeps its sign and its magnitude
      is the least of the cap and c times its own, up to the slack; and the book is filled if it can be. */
  lemma {:induction false} WaterLevel(values: map<string, real>, cap: real) returns (c: real)
    requires 0.0 < cap <= 1.0
    ensures c > 0.0 && IsWaterLevel(values, values, cap, Times(c), Truncated(values, cap))
  {
    ScaleSameSigns(values);
    c := ScaledWaterLevel(values, Scale(values, 1.0), cap);
    c := LevelOfValues(values, cap, c, Truncated(values, cap));
  }

  lemma CapacityIsProduct(names: set<string>, cap: real)
    ensures Capacity(names, cap) == cap * |names| as real
  {
    SumConstant(names, Caps(names, cap), cap);
  }

  lemma GrossAtMostOne(values: map<string, real>, cap: real)
    requires 0.0 < cap <= 1.0
    ensures Gross(Truncated(values, cap)) <= 1.0
  {
    var c := WaterLevel(values, cap);
  }

  /** Gross is exactly one whenever (number of non-zero names) times the cap reaches it. */
  lemma GrossExactlyOne(values: map<string, real>, cap: real)
    requires 0.0 < cap <= 1.0 && cap * |Nonzero(values)| as real >= 1.0
    ensures Gross(Truncated(values, cap)) == 1.0
  {
    CapacityIsProduct(Nonzero(values), cap);
    var c := WaterLevel(values, cap);
  }

  /** Each weight is within the cap plus the slack. */
  lemma {:induction false} TruncatedWithinCap(values: map<string, real>, cap: real, k: string)
    requires 0.0 < cap <= 1.0 && k in values
    ensures k in Truncated(values, cap) && Abs(Truncated(values, cap)[k]) <= cap + SLACK
  {
    var c := WaterLevel(values, cap);
    assert NearLevel(Times(c), cap, Abs(values[k]), Truncated(values, cap)[k]);
  }

  // -------------------------------------------------------------- the loop itself

  ghost predicate SameRatio(values: map<string, real>, r: map<string, real>, j: string, k: string)
    requires j in values && k in values && r.Keys == values.Keys
  {
    r[j] * values[k] == r[k] * values[j]
  }

  /** The values rescaled to a gross: every ratio between two names is kept, every sign is the value's, or its
      opposite for a negative target, and the gross is the target's magnitude. */
  ghost predicate RescaledTo(values: map<string, real>, target: real, r: map<string, real>) {
    && r.Keys == values.Keys
    && (forall j, k :: j in values && k in values ==> SameRatio(values, r, j, k))
    && (target > 0.0 && Gross(values) != 0.0 ==>
          forall k :: k in values ==> (values[k] > 0.0 <==> r[k] > 0.0) && (values[k] < 0.0 <==> r[k] < 0.0))
    && (target < 0.0 && Gross(values) != 0.0 ==>
          forall k :: k in values ==> (values[k] > 0.0 <==> r[k] < 0.0) && (values[k] < 0.0 <==> r[k] > 0.0))
    && Gross(r) == (if Gross(values) == 0.0 then 0.0 else Abs(target))
  }

  lemma RatioKept(x: real, y: real, f: real)
    ensures x * f * y == y * f * x
  {
  }

  lemma AbsScaled(x: real, f: real)
    ensures Abs(x * f) == Abs(f) * Abs(x)
  {
    var n := -x;
    assert n * f == -(x * f);
    if f >= 0.0 {
      if x >= 0.0 { Ordered(f, x, 0.0); } else { Ordered(f, n, 0.0); }
    } else {
      var m := -f;
      assert x * m == -(x * f) && n * m == x * f;
      if x >= 0.0 { Ordered(m, x, 0.0); } else { Ordered(m, n, 0.0); }
    }
  }

  function Factor(target: real, gross: real): real {
    if gross == 0.0 then 0.0 else target / gross
  }

  lemma FactorOnce(target: real, gross: real)
    requires gross > 0.0
    ensures var f := Factor(target, gross);
            && (if f >= 0.0 then f * gross == target else -f * gross == -target)
            && (f > 0.0 <==> target > 0.0) && (f < 0.0 <==> target < 0.0)
  {
    var q := target / gross;
    assert q * gross == target;
    assert -q * gross == -(q * gross);
  }

  /** The factor makes the gross the target's magnitude, and is of the target's sign. */
  lemma WholeGross(target: real, gross: real)
    requires gross >= 0.0
    ensures Times(Abs(Factor(target, gross)))(gross) == if gross == 0.0 then 0.0 else Abs(target)
    ensures gross > 0.0 ==> (Factor(target, gross) > 0.0 <==> target > 0.0) && (-Factor(target, gross) > 0.0 <==> target < 0.0)
  {
    if gross > 0.0 { FactorOnce(target, gross); }
  }

  lemma SignScaled(x: real, f: real)
    ensures f > 0.0 ==> (x > 0.0 <==> x * f > 0.0) && (x < 0.0 <==> x * f < 0.0)
    ensures -f > 0.0 ==> (x > 0.0 <==> x * f < 0.0) && (x < 0.0 <==> x * f > 0.0)
  {
    if f > 0.0 { TimesPositive(f, x); }
    if -f > 0.0 {
      TimesPositive(-f, x);
      assert x * f == -(-f * x);
    }
  }

  /** One factor for every name. */
  ghost predicate Factored(values: map<string, real>, f: real, r: map<string, real>) {
    r.Keys == values.Keys && forall k :: k in values ==> r[k] == values[k] * f
  }

  lemma FactorKeepsRatios(values: map<string, real>, f: real, r: map<string, real>)
    requires Factored(values, f, r)
    ensures forall j, k :: j in values && k in values ==> SameRatio(values, r, j, k)
  {
    forall j, k | j in values && k in values ensures SameRatio(values, r, j, k) { RatioKept(values[j], values[k], f); }
  }

  lemma MagnitudeScaled(values: map<string, real>, f: real, a: real, r: map<string, real>, k: string)
    requires Factored(values, f, r) && k in values && a == Abs(f)
    ensures Magnitudes(r)[k] == Times(a)(Magnitudes(values)[k])
  {
    AbsScaled(values[k], f);
    assert Magnitudes(r)[k] == Abs(values[k] * f);
  }

  lemma FactorOfGross(values: map<string, real>, f: real, a: real, r: map<string, real>)
    requires Factored(values, f, r) && a == Abs(f)
    ensures Gross(r) == Times(a)(Gross(values))
  {
    forall k | k in values.Keys ensures Magnitudes(r)[k] == Times(a)(Magnitudes(values)[k]) {
      MagnitudeScaled(values, f, a, r, k);
    }
    TimesIsAdditive(a);
    SumAdditive(values.Keys, Magnitudes(values), Magnitudes(r), Times(a));
  }

  lemma FactorKeepsSigns(values: map<string, real>, f: real, r: map<string, real>)
    requires Factored(values, f, r)
    ensures f > 0.0 ==> forall k :: k in values ==> (values[k] > 0.0 <==> r[k] > 0.0) && (values[k] < 0.0 <==> r[k] < 0.0)
    ensures -f > 0.0 ==> forall k :: k in values ==> (values[k] > 0.0 <==> r[k] < 0.0) && (values[k] < 0.0 <==> r[k] > 0.0)
  {
    forall k | k in values
      ensures f > 0.0 ==> (values[k] > 0.0 <==> r[k] > 0.0) && (values[k] < 0.0 <==> r[k] < 0.0)
      ensures -f > 0.0 ==> (values[k] > 0.0 <==> r[k] < 0.0) && (values[k] < 0.0 <==> r[k] > 0.0)
    {
      SignScaled(values[k], f);
    }
  }

  lemma ScaleFactored(values: map<string, real>, target: real)
    ensures Factored(values, Factor(target, Gross(values)), Scale(values, target))
  {
  }

  lemma ScaleMeaning(values: map<string, real>, target: real)
    ensures RescaledTo(values, target, Scale(values, target))
  {
    var r, f := Scale(values, target), Factor(target, Gross(values));
    ScaleFactored(values, target);
    SumNonNegative(values.Keys, Magnitudes(values));
    WholeGross(target, Gross(values));
    FactorKeepsRatios(values, f, r);
    FactorOfGross(values, f, Abs(f), r);
    FactorKeepsSigns(values, f, r);
  }

  /** `scale` as the source computes it. */
  method ScaleValues(values: map<string, real>, target: real) returns (r: map<string, real>)
    ensures r == Scale(values, target) && RescaledTo(values, target, r)
  {
    ScaleMeaning(values, target);
    var gross := SumValues(values.Keys, Magnitudes(values));
    if gross == 0.0 { return map k | k in values :: 0.0; }
    var factor := target / gross;
    r := map k | k in values :: values[k] * factor;
  }

  /** The `for key in overflow` loop. */
  method FreezeOverflow(over: set<string>, cap: real, frozen0: map<string, real>, active0: set<string>, remaining0: real)
    returns (frozen: map<string, real>, active: set<string>, remaining: real)
    requires over <= active0 && frozen0.Keys !! active0
    ensures frozen == frozen0 + Caps(over, cap)
    ensures active == active0 - over
    ensures remaining == Left(remaining0, over, cap)
  {
    frozen, active, remaining := frozen0, active0, remaining0;
    var todo := over;
    while todo != {}
      invariant todo <= over
      invariant frozen == frozen0 + Caps(over - todo, cap)
      invariant active == active0 - (over - todo)
      invariant remaining - SumOver(todo, Caps(over, cap)) == Left(remaining0, over, cap)
      decreases todo
    {
      var key :| key in todo;
      SumRemove(todo, Caps(over, cap), key);
      frozen := frozen[key := cap];
      active := active - {key};
      remaining := remaining - cap;
      assert over - (todo - {key}) == over - todo + {key};
      todo := todo - {key};
    }
    assert over - todo == over;
  }

  method SharesOf(m: map<string, real>, active: set<string>, remaining: real, total: real) returns (g: map<string, real>)
    requires active <= m.Keys && total == SumOver(active, m) && total != 0.0
    ensures g == Shares(m, active, remaining)
  {
    g := map k | k in active :: Share(remaining, m[k], total);
  }

  /** One turn of the `while active` loop; `done` is its `break`. */
  method FreezeRound(m: map<string, real>, active: set<string>, remaining: real, cap: real, frozen: map<string, real>)
    returns (done: bool, frozen1: map<string, real>, active1: set<string>, remaining1: real)
    requires active != {} && active <= m.Keys && frozen.Keys !! active
    ensures done ==> frozen1 == frozen + Frozen(m, active, remaining, cap)
    ensures !done ==>
              && active1 < active && frozen1.Keys !! active1
              && frozen1 + Frozen(m, active1, remaining1, cap) == frozen + Frozen(m, active, remaining, cap)
  {
    active1, remaining1 := active, remaining;
    var total := SumValues(active, m);
    if total == 0.0 { return true, frozen, active, remaining; }
    var shares := SharesOf(m, active, remaining, total);
    var overflow := set k | k in shares && shares[k] > cap + SLACK;
    if overflow == {} { return true, frozen + shares, active, remaining; }
    frozen1, active1, remaining1 := FreezeOverflow(overflow, cap, frozen, active, remaining);
    done := remaining1 <= 0.0;
    FrozenUnfolds(m, active, remaining, cap, overflow);
    MergeAssociates(frozen, Caps(overflow, cap), if done then map[] else Frozen(m, active1, remaining1, cap));
  }

  lemma FrozenUnfolds(m: map<string, real>, active: set<string>, remaining: real, cap: real, over: set<string>)
    requires active != {} && active <= m.Keys && SumOver(active, m) != 0.0
    requires over == Above(Shares(m, active, remaining), cap) && over != {}
    ensures over <= active && active - over < active
    ensures Frozen(m, active, remaining, cap) == Caps(over, cap) +
            (if Left(remaining, over, cap) <= 0.0 then map[] else Frozen(m, active - over, Left(remaining, over, cap), cap))
  {
    var k :| k in over;
    assert k in active && k !in active - over;
  }

  lemma MergeAssociates(a: map<string, real>, b: map<string, real>, c: map<string, real>)
    ensures a + (b + c) == a + b + c
  {
  }

  /** The `while active` loop. */
  method FreezeAll(magnitudes: map<string, real>, cap: real) returns (frozen: map<string, real>)
    ensures frozen == Frozen(magnitudes, magnitudes.Keys, 1.0, cap)
  {
    var active, remaining, done := magnitudes.Keys, 1.0, false;
    frozen := map[];
    while active != {}
      invariant active <= magnitudes.Keys && frozen.Keys !! active
      invariant frozen + Frozen(magnitudes, active, remaining, cap) == Frozen(magnitudes, magnitudes.Keys, 1.0, cap)
      decreases active
    {
      done, frozen, active, remaining := FreezeRound(magnitudes, active, remaining, cap, frozen);
      if done { return; }
    }
  }

  /** `truncate`, for every input and every cap; `None` is its ValueError. */
  method Truncate(values: map<string, real>, cap: real) returns (r: Option<map<string, real>>)
    ensures r.None? <==> !(0.0 < cap <= 1.0)
    ensures r.Some? ==> r.value == Truncated(values, cap)
  {
    if !(0.0 < cap <= 1.0) { return None; }
    var scaled := ScaleValues(values, 1.0);
    var magnitudes := map k | k in scaled && scaled[k] != 0.0 :: Abs(scaled[k]);
    var frozen := FreezeAll(magnitudes, cap);
    assert magnitudes == Weights(scaled) && magnitudes.Keys == Nonzero(scaled);
    r := Some(Signed(scaled, frozen));
  }
}
