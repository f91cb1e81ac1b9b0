/** Cross-section simulation, and the weight bounds that survive delay and decay. */
module HistoryBounds {
  import opened Common
  import opened Sums
  import opened Truncation
  import opened Operators
  import opened Dsl
  import opened History

  datatype Neutralization = NoNeutralization | Market | ByGroup

  /** `AlphaSimulationSettings`, as its `__post_init__` admits it. */
  datatype Settings = Settings(book: real, delay: nat, decay: nat, neutralization: Neutralization, truncation: real,
                               longOnly: bool)

  predicate SettingsValid(s: Settings) { s.book > 0.0 && 0.0 < s.truncation <= 1.0 }

  /** The most one weight may be. */
  function Limit(s: Settings): real { (s.truncation + SLACK) * s.book }

  ghost function Neutralized(raw: Column, s: Settings, groups: map<string, string>, root: real -> real): Column {
    var w := CrossApply(Winsorize, raw, root);
    match s.neutralization
    case Market => GroupApply(GroupNeutralize, w, map[])
    case ByGroup => GroupApply(GroupNeutralize, w, groups)
    case NoNeutralization => w
  }

  function LongOnly(v: Column): Column { map k | k in v :: MaxReal(v[k], 0.0) }

  function Booked(book: real, x: real): real { book * x }

  function TimesBook(v: Column, book: real): Column { map k | k in v :: Booked(book, v[k]) }

  /** `simulate_cross_section`: the weights; `None` is its ValueError for missing groups. */
  ghost function SimulateCrossSection(raw: Column, s: Settings, groups: map<string, string>, root: real -> real): Option<Column> {
    if s.neutralization.ByGroup? && groups == map[] then None
    else
      var n := Neutralized(raw, s, groups, root);
      var v := if s.longOnly then LongOnly(n) else n;
      if s.longOnly && forall k :: k in v ==> v[k] <= 0.0 then Some(map k | k in v :: 0.0)
      else Some(TimesBook(Truncated(v, s.truncation), s.book))
  }

  // ------------------------------------------------------------------ numbers only

  lemma TimesAtMost(c: real, a: real, b: real)
    requires c >= 0.0 && a <= b
    ensures c * a <= c * b
  {
  }

  lemma AbsTimes(c: real, x: real)
    requires c >= 0.0
    ensures Abs(c * x) == c * Abs(x)
  {
    if x >= 0.0 { TimesAtMost(c, 0.0, x); } else { TimesAtMost(c, x, 0.0); }
  }

  // ---------------------------------------------------------------- one cross-section

  ghost predicate Within(v: Column, book: real, limit: real) {
    Gross(v) <= book && forall k :: k in v ==> Abs(v[k]) <= limit
  }

  lemma BookMagnitude(v: Column, book: real, k: string)
    requires book > 0.0 && k in v
    ensures Magnitudes(TimesBook(v, book))[k] == Booked(book, Magnitudes(v)[k])
  {
    AbsBooked(book, v[k]);
  }

  lemma AbsBooked(book: real, x: real)
    requires book > 0.0
    ensures Abs(Booked(book, x)) == Booked(book, Abs(x))
  {
    if x >= 0.0 {
      assert Booked(book, x) >= 0.0 by { TimesAtMost(book, 0.0, x); }
    } else {
      assert Booked(book, x) <= 0.0 by { TimesAtMost(book, x, 0.0); }
      assert Booked(book, Abs(x)) == -Booked(book, x) by { Distribute(book, 0.0, x, Abs(x)); }
    }
  }

  lemma TimesBookGross(v: Column, book: real)
    requires book > 0.0
    ensures Gross(TimesBook(v, book)) == Booked(book, Gross(v))
  {
    var w := TimesBook(v, book);
    forall k | k in v ensures Magnitudes(w)[k] == Booked(book, Magnitudes(v)[k]) { BookMagnitude(v, book, k); }
    assert w.Keys == v.Keys;
    BookedSum(v.Keys, Magnitudes(v), Magnitudes(w), book);
  }

  lemma BookedSum(s: set<string>, m: map<string, real>, n: map<string, real>, book: real)
    requires s <= m.Keys && s <= n.Keys && forall k :: k in s ==> n[k] == Booked(book, m[k])
    ensures SumOver(s, n) == Booked(book, SumOver(s, m))
  {
    SumScaled(s, m, n, book);
  }

  lemma BookEach(x: real, s: Settings)
    requires SettingsValid(s) && Abs(x) <= s.truncation + SLACK
    ensures Abs(s.book * x) <= Limit(s)
  {
    AbsTimes(s.book, x);
    TimesAtMost(s.book, Abs(x), s.truncation + SLACK);
  }

  lemma BookGross(t: Column, book: real)
    requires book > 0.0 && Gross(t) <= 1.0
    ensures Gross(TimesBook(t, book)) <= book
  {
    TimesBookGross(t, book);
    TimesAtMost(book, Gross(t), 1.0);
  }

  lemma BookEachIn(t: Column, s: Settings, k: string)
    requires SettingsValid(s) && k in t && Abs(t[k]) <= s.truncation + SLACK
    ensures Abs(TimesBook(t, s.book)[k]) <= Limit(s)
  {
    var x := t[k];
    BookEach(x, s);
    assert TimesBook(t, s.book)[k] == s.book * x;
  }

  lemma BookWithin(t: Column, s: Settings)
    requires SettingsValid(s) && Gross(t) <= 1.0 && forall k :: k in t ==> Abs(t[k]) <= s.truncation + SLACK
    ensures Within(TimesBook(t, s.book), s.book, Limit(s))
  {
    BookGross(t, s.book);
    forall k | k in t ensures Abs(TimesBook(t, s.book)[k]) <= Limit(s) { BookEachIn(t, s, k); }
  }

  lemma TruncatedWithin(v: Column, s: Settings)
    requires SettingsValid(s)
    ensures Within(TimesBook(Truncated(v, s.truncation), s.book), s.book, Limit(s))
  {
    var t := Truncated(v, s.truncation);
    GrossAtMostOne(v, s.truncation);
    forall k | k in t ensures Abs(t[k]) <= s.truncation + SLACK { CapOf(v, s.truncation, k); }
    BookWithin(t, s);
  }

  lemma CapOf(v: Column, cap: real, k: string)
    requires 0.0 < cap <= 1.0 && k in Truncated(v, cap)
    ensures Abs(Truncated(v, cap)[k]) <= cap + SLACK
  {
    var c := WaterLevel(v, cap);
    TruncatedWithinCap(v, cap, k);
  }

  lemma ZerosWithin(v: Column, s: Settings)
    requires SettingsValid(s)
    ensures Within(map k | k in v :: 0.0, s.book, Limit(s))
  {
    var z: Column := map k | k in v :: 0.0;
    SumZero(z.Keys, Magnitudes(z));
    TimesAtMost(s.book, 0.0, s.truncation + SLACK);
  }

  /** A cross-section's gross weight is at most the book and each weight at most the capped share. */
  lemma {:induction false} CrossSectionWithin(raw: Column, s: Settings, groups: map<string, string>, root: real -> real)
    requires SettingsValid(s) && SimulateCrossSection(raw, s, groups, root).Some?
    ensures Within(SimulateCrossSection(raw, s, groups, root).value, s.book, Limit(s))
  {
    var n := Neutralized(raw, s, groups, root);
    var v := if s.longOnly then LongOnly(n) else n;
    ZerosWithin(v, s);
    TruncatedWithin(v, s);
  }

  // ------------------------------------------------------------------- cells of a session

  function Magnitude(c: Cell): real { if c.None? then 0.0 else Abs(c.value) }

  function CellMagnitudes(c: Cells): map<string, real> { map k | k in c :: Magnitude(c[k]) }

  ghost function CellGross(c: Cells): real { SumOver(c.Keys, CellMagnitudes(c)) }

  ghost predicate CellsWithin(c: Cells, book: real, limit: real) {
    CellGross(c) <= book && forall k :: k in c ==> Magnitude(c[k]) <= limit
  }

  /** The magnitudes a set of names has in some cells; names not there count nothing. */
  ghost function Held(names: set<string>, c: Cells): map<string, real> {
    map k | k in names :: Magnitude(Get(c, k))
  }

  lemma HeldAtMostGross(names: set<string>, c: Cells)
    ensures SumOver(names, Held(names, c)) <= CellGross(c)
  {
    var inside, outside := names * c.Keys, names - c.Keys;
    assert inside + outside == names;
    SumSplit(inside, outside, Held(names, c));
    SumZero(outside, Held(names, c));
    SumSame(inside, Held(names, c), CellMagnitudes(c));
    assert inside + (c.Keys - inside) == c.Keys;
    SumSplit(inside, c.Keys - inside, CellMagnitudes(c));
    SumNonNegative(c.Keys - inside, CellMagnitudes(c));
  }

  /** Picking the cells of some instruments out of bounded cells keeps the bounds. */
  lemma PickedWithin(c: Cells, picked: Cells, book: real, limit: real)
    requires CellsWithin(c, book, limit) && limit >= 0.0 && forall k :: k in picked ==> picked[k] == Get(c, k)
    ensures CellsWithin(picked, book, limit)
  {
    HeldAtMostGross(picked.Keys, c);
    SumSame(picked.Keys, CellMagnitudes(picked), Held(picked.Keys, c));
  }

  lemma ColumnCellsWithin(out: Column, instruments: seq<string>, book: real, limit: real)
    requires Within(out, book, limit) && limit >= 0.0
    ensures CellsWithin(CellsOf(out, instruments), book, limit)
  {
    var c: Cells := map k | k in out :: Some(out[k]);
    assert c.Keys == out.Keys;
    SumSame(out.Keys, CellMagnitudes(c), Magnitudes(out));
    PickedWithin(c, CellsOf(out, instruments), book, limit);
  }

  lemma NoCellsWithin(instruments: seq<string>, book: real, limit: real)
    requires book >= 0.0 && limit >= 0.0
    ensures CellsWithin(NoCells(instruments), book, limit)
  {
    SumZero(NoCells(instruments).Keys, CellMagnitudes(NoCells(instruments)));
  }

  // ------------------------------------------------------------------------- decay

  /** 1x + 2x + ... + nx. */
  function Ramp(n: nat, x: real): real {
    if n == 0 then 0.0 else Ramp(n - 1, x) + n as real * x
  }

  lemma {:induction false} RampIsTriangle(n: nat, x: real)
    ensures Ramp(n, x) == Triangle(n) * x
  {
    if n > 0 {
      RampIsTriangle(n - 1, x);
      assert Triangle(n) == Triangle(n - 1) + n as real;
      Distribute(x, Triangle(n), Triangle(n - 1), n as real);
    }
  }

  /** The weighted magnitudes one name has over the first `n` sessions of a window. */
  function HeldRamp(window: seq<Cells>, k: string, n: nat): real
    requires n <= |window|
  {
    if n == 0 then 0.0 else HeldRamp(window, k, n - 1) + n as real * Magnitude(Get(window[n - 1], k))
  }

  ghost function HeldRamps(names: set<string>, window: seq<Cells>, n: nat): map<string, real>
    requires n <= |window|
  {
    map k | k in names :: HeldRamp(window, k, n)
  }

  lemma SumPlus(s: set<string>, a: map<string, real>, b: map<string, real>, c: map<string, real>)
    requires s <= a.Keys && s <= b.Keys && s <= c.Keys && forall k :: k in s ==> c[k] == a[k] + b[k]
    ensures SumOver(s, c) == SumOver(s, a) + SumOver(s, b)
    decreases |s|
  {
    if s != {} {
      var k :| k in s;
      SumRemove(s, a, k);
      SumRemove(s, b, k);
      SumRemove(s, c, k);
      SumPlus(s - {k}, a, b, c);
    }
  }

  /** One more session's turn, weighted by an additive `lv`. */
  lemma AddTurn(names: set<string>, prev: map<string, real>, held: map<string, real>, next: map<string, real>,
                lv: real -> real, book: real, bound: real)
    requires names <= prev.Keys && names == held.Keys && names <= next.Keys && Additive(lv)
    requires forall k :: k in names ==> next[k] == prev[k] + lv(held[k])
    requires SumOver(names, prev) <= bound && lv(SumOver(names, held)) <= lv(book)
    ensures SumOver(names, next) <= bound + lv(book)
  {
    var turn := map k | k in names :: lv(held[k]);
    SumPlus(names, prev, turn, next);
    SumAdditive(names, held, turn, lv);
  }

  /** What session `n` of a window adds, as an additive function of the magnitudes held there. */
  lemma TurnOf(names: set<string>, window: seq<Cells>, n: nat, book: real) returns (lv: real -> real)
    requires 1 <= n <= |window| && CellGross(window[n - 1]) <= book
    ensures Additive(lv)
    ensures forall k :: k in names ==>
              HeldRamps(names, window, n)[k] == HeldRamps(names, window, n - 1)[k] + lv(Held(names, window[n - 1])[k])
    ensures lv(SumOver(names, Held(names, window[n - 1]))) <= lv(book)
    ensures Ramp(n, book) == Ramp(n - 1, book) + lv(book)
  {
    lv := Times(n as real);
    TimesIsAdditive(n as real);
    HeldAtMostGross(names, window[n - 1]);
    TurnOrdered(n, SumOver(names, Held(names, window[n - 1])), book, lv);
    forall k | k in names
      ensures HeldRamps(names, window, n)[k] == HeldRamps(names, window, n - 1)[k] + lv(Held(names, window[n - 1])[k])
    {
      RampTurn(window, k, n, lv);
    }
  }

  lemma TurnOrdered(n: nat, a: real, book: real, lv: real -> real)
    requires n >= 1 && a <= book && lv == Times(n as real)
    ensures lv(a) <= lv(book) && Ramp(n, book) == Ramp(n - 1, book) + lv(book)
  {
    TimesAtMost(n as real, a, book);
  }

  lemma RampTurn(window: seq<Cells>, k: string, n: nat, lv: real -> real)
    requires 1 <= n <= |window| && lv == Times(n as real)
    ensures HeldRamp(window, k, n) == HeldRamp(window, k, n - 1) + lv(Magnitude(Get(window[n - 1], k)))
  {
  }

  /** Summing first over names and then over sessions: each session holds at most the book. */
  lemma {:induction false} RampsWithinBook(names: set<string>, window: seq<Cells>, n: nat, book: real)
    requires n <= |window| && forall j :: 0 <= j < n ==> CellGross(window[j]) <= book
    ensures SumOver(names, HeldRamps(names, window, n)) <= Ramp(n, book)
    decreases n
  {
    if n == 0 {
      SumZero(names, HeldRamps(names, window, 0));
    } else {
      RampsWithinBook(names, window, n - 1, book);
      var lv := TurnOf(names, window, n, book);
      AddTurn(names, HeldRamps(names, window, n - 1), Held(names, window[n - 1]), HeldRamps(names, window, n), lv, book,
              Ramp(n - 1, book));
    }
  }

  lemma RampStep(held: real, ramp: real, c: real, m: real, limit: real)
    requires held <= ramp && c >= 0.0 && m <= limit
    ensures held + c * m <= ramp + c * limit
  {
    var a, b := c * m, c * limit;
    assert a <= b by { TimesAtMost(c, m, limit); }
    assert held + a <= ramp + b;
  }

  lemma {:induction false} RampWithinLimit(window: seq<Cells>, k: string, n: nat, limit: real)
    requires n <= |window| && limit >= 0.0
    requires forall j :: 0 <= j < n ==> Magnitude(Get(window[j], k)) <= limit
    ensures HeldRamp(window, k, n) <= Ramp(n, limit)
    decreases n
  {
    if n > 0 {
      RampWithinLimit(window, k, n - 1, limit);
      RampStep(HeldRamp(window, k, n - 1), Ramp(n - 1, limit), n as real, Magnitude(Get(window[n - 1], k)), limit);
    }
  }

  lemma AbsStep(w: real, h: real, c: real, x: real)
    requires Abs(w) <= h && c >= 0.0
    ensures Abs(w + c * x) <= h + c * Abs(x)
  {
    AbsTimes(c, x);
  }

  lemma {:induction false} WeightedAtMostRamp(window: seq<Cells>, k: string, n: nat)
    requires n <= |window| && forall j :: 0 <= j < n ==> Get(window[j], k).Some?
    ensures Abs(WeightedCells(window, k, n)) <= HeldRamp(window, k, n)
    decreases n
  {
    if n > 0 {
      WeightedAtMostRamp(window, k, n - 1);
      var x := Get(window[n - 1], k).value;
      AbsStep(WeightedCells(window, k, n - 1), HeldRamp(window, k, n - 1), n as real, x);
    }
  }

  /** A share 1/t of at most t times x is at most x. */
  lemma DividesBack(t: real, x: real, y: real)
    requires t > 0.0 && y <= t * x
    ensures Times(1.0 / t)(y) <= x
  {
    TimesAtMost(1.0 / t, y, t * x);
    assert (1.0 / t) * (t * x) == x;
  }

  lemma ShareOfRamp(d: nat, h: real, x: real)
    requires d >= 1 && h <= Ramp(d, x)
    ensures Triangle(d) > 0.0 && Times(1.0 / Triangle(d))(h) <= x
  {
    TrianglePositive(d);
    RampIsTriangle(d, x);
    DividesBack(Triangle(d), x, h);
  }

  lemma TrianglePositive(d: nat)
    requires d >= 1
    ensures Triangle(d) > 0.0
  {
    TimesAtMost(d as real, 1.0, d as real + 1.0);
  }

  lemma AbsQuotient(x: real, t: real, y: real)
    requires t > 0.0 && Abs(x) <= y
    ensures Abs(x / t) <= Times(1.0 / t)(y)
  {
    assert x / t == (1.0 / t) * x;
    AbsTimes(1.0 / t, x);
    TimesAtMost(1.0 / t, Abs(x), y);
  }

  /** A decayed weight is at most its share of the ramp. */
  lemma DecayedAtMost(window: seq<Cells>, k: string)
    requires |window| >= 1 && Triangle(|window|) > 0.0
    ensures Magnitude(DecayedCell(window, k)) <= Times(1.0 / Triangle(|window|))(HeldRamp(window, k, |window|))
  {
    var d, t := |window|, Triangle(|window|);
    if DecayedCell(window, k).Some? {
      WeightedAtMostRamp(window, k, d);
      AbsQuotient(WeightedCells(window, k, d), t, HeldRamp(window, k, d));
    } else {
      RampNonNegative(window, k, d);
      AbsQuotient(0.0, t, HeldRamp(window, k, d));
    }
  }

  lemma {:induction false} RampNonNegative(window: seq<Cells>, k: string, n: nat)
    requires n <= |window|
    ensures HeldRamp(window, k, n) >= 0.0
    decreases n
  {
    if n > 0 {
      RampNonNegative(window, k, n - 1);
      TimesAtMost(n as real, 0.0, Magnitude(Get(window[n - 1], k)));
    }
  }

  lemma ShareGross(names: set<string>, mags: map<string, real>, ramps: map<string, real>, lv: real -> real, book: real)
    requires names <= mags.Keys && names <= ramps.Keys && Additive(lv)
    requires forall k :: k in names ==> mags[k] <= lv(ramps[k])
    requires lv(SumOver(names, ramps)) <= book
    ensures SumOver(names, mags) <= book
  {
    var shares := map k | k in names :: lv(ramps[k]);
    SumAtMost(names, mags, shares);
    SumAdditive(names, ramps, shares, lv);
  }

  /** Averaging bounded weights over a window keeps the gross within the book. */
  lemma DecayGross(window: seq<Cells>, out: Cells, book: real)
    requires |window| >= 1 && forall j :: 0 <= j < |window| ==> CellGross(window[j]) <= book
    requires forall k :: k in out ==> out[k] == DecayedCell(window, k)
    ensures CellGross(out) <= book
  {
    var d := |window|;
    var names, ramps := out.Keys, HeldRamps(out.Keys, window, d);
    RampsWithinBook(names, window, d, book);
    ShareOfRamp(d, SumOver(names, ramps), book);
    TimesIsAdditive(1.0 / Triangle(d));
    forall k | k in names ensures CellMagnitudes(out)[k] <= Times(1.0 / Triangle(d))(ramps[k]) { DecayedAtMost(window, k); }
    ShareGross(names, CellMagnitudes(out), ramps, Times(1.0 / Triangle(d)), book);
  }

  lemma OneNameWithin(window: seq<Cells>, k: string, limit: real)
    requires |window| >= 1 && limit >= 0.0
    requires forall j :: 0 <= j < |window| ==> Magnitude(Get(window[j], k)) <= limit
    ensures Magnitude(DecayedCell(window, k)) <= limit
  {
    RampWithinLimit(window, k, |window|, limit);
    ShareOfRamp(|window|, HeldRamp(window, k, |window|), limit);
    DecayedAtMost(window, k);
  }

  lemma DecayWithin(window: seq<Cells>, out: Cells, book: real, limit: real)
    requires |window| >= 1 && limit >= 0.0 && forall j :: 0 <= j < |window| ==> CellsWithin(window[j], book, limit)
    requires forall k :: k in out ==> out[k] == DecayedCell(window, k)
    ensures CellsWithin(out, book, limit)
  {
    DecayGross(window, out, book);
    forall k | k in out ensures Magnitude(out[k]) <= limit {
      forall j | 0 <= j < |window| ensures Magnitude(Get(window[j], k)) <= limit { assert CellsWithin(window[j], book, limit); }
      OneNameWithin(window, k, limit);
    }
  }

  // ------------------------------------------------------------------- whole history

  ghost function PanelOf(e: Expr, r: Resolver, root: real -> real): Option<Panel> {
    var v := Evaluate(e, r, root);
    if v.Some? && v.value.PanelValue? then Some(v.value.panel) else None
  }

  /** The engine of a compiled expression under given settings. */
  ghost function EngineFor(e: Expr, s: Settings, root: real -> real): Engine {
    Engine(r => PanelOf(e, r, root), (v, groups) => SimulateCrossSection(v, s, groups, root))
  }

  lemma LimitNonNegative(s: Settings)
    requires SettingsValid(s)
    ensures Limit(s) >= 0.0
  {
    TimesAtMost(s.book, 0.0, s.truncation + SLACK);
  }

  /** Whatever the transformation gives is within the bounds. */
  ghost predicate Bounding(transform: (Column, map<string, string>) -> Option<Column>, book: real, limit: real) {
    forall v, groups :: transform(v, groups).Some? ==> Within(transform(v, groups).value, book, limit)
  }

  lemma SignalWithin(g: Engine, sessions: seq<Session>, delay: nat, i: nat, book: real, limit: real)
    requires Bounding(g.transform, book, limit) && book >= 0.0 && limit >= 0.0
    requires i < |sessions| && Signal(g, sessions, delay, i).Some?
    ensures CellsWithin(Signal(g, sessions, delay, i).value.1, book, limit)
  {
    var instruments := sessions[i].instruments;
    NoCellsWithin(instruments, book, limit);
    if i >= delay {
      var source := sessions[i - delay];
      var raw := RawSignal(g.evaluate(source.resolver).value, source.instruments);
      if Available(raw) != map[] {
        ColumnCellsWithin(g.transform(Available(raw), source.groups).value, instruments, book, limit);
      }
    }
  }

  lemma EngineBounds(e: Expr, s: Settings, root: real -> real)
    requires SettingsValid(s)
    ensures Bounding(EngineFor(e, s, root).transform, s.book, Limit(s))
  {
    forall v, groups | SimulateCrossSection(v, s, groups, root).Some?
      ensures Within(SimulateCrossSection(v, s, groups, root).value, s.book, Limit(s))
    {
      CrossSectionWithin(v, s, groups, root);
    }
  }

  lemma BaseWithin(e: Expr, s: Settings, root: real -> real, sessions: seq<Session>, i: nat)
    requires SettingsValid(s) && i < |sessions| && Signal(EngineFor(e, s, root), sessions, s.delay, i).Some?
    ensures CellsWithin(Signal(EngineFor(e, s, root), sessions, s.delay, i).value.1, s.book, Limit(s))
  {
    LimitNonNegative(s);
    EngineBounds(e, s, root);
    SignalWithin(EngineFor(e, s, root), sessions, s.delay, i, s.book, Limit(s));
  }

  lemma DecayedWithin(bases: seq<Cells>, instruments: seq<string>, decay: nat, book: real, limit: real)
    requires bases != [] && book >= 0.0 && limit >= 0.0 && forall j :: 0 <= j < |bases| ==> CellsWithin(bases[j], book, limit)
    ensures CellsWithin(Decayed(bases, instruments, decay), book, limit)
  {
    if decay <= 1 {
      PickedWithin(bases[|bases| - 1], Decayed(bases, instruments, decay), book, limit);
    } else if |bases| < decay {
      NoCellsWithin(instruments, book, limit);
    } else {
      DecayWithin(bases[|bases| - decay..], Decayed(bases, instruments, decay), book, limit);
    }
  }

  /** At every session of every simulated history, after any decay: gross weight is at most the book
      and each weight at most (truncation + slack) times the book. */
  lemma {:induction false} WeightsWithinBook(e: Expr, s: Settings, root: real -> real, sessions: seq<Session>, i: nat)
    requires SettingsValid(s) && AllSignals(EngineFor(e, s, root), sessions, s.delay) && i < |sessions|
    ensures CellsWithin(PointAt(EngineFor(e, s, root), sessions, s.delay, s.decay, i).weights, s.book, Limit(s))
  {
    var g := EngineFor(e, s, root);
    var bases := Bases(g, sessions, s.delay, i + 1);
    LimitNonNegative(s);
    forall j | 0 <= j < |bases| ensures CellsWithin(bases[j], s.book, Limit(s)) { BaseWithin(e, s, root, sessions, j); }
    DecayedWithin(bases, sessions[i].instruments, s.decay, s.book, Limit(s));
  }
}
