/** What a simulated point's signal, weights and decay are, in terms of the sessions' own data. */
module HistoryMeaning {
  import opened Common
  import opened Sums
  import opened Truncation
  import opened Operators
  import opened Dsl
  import opened ColumnMeaning
  import opened OperatorMeaning
  import opened History
  import opened HistoryBounds

  // ------------------------------------------------------------------ one cross-section

  /** The signal less its mean over the market or over each group, or as it is. */
  ghost predicate Centered(w: Column, s: Settings, groups: map<string, string>, n: Column) {
    match s.neutralization
    case NoNeutralization => n == w
    case ByGroup => ColumnMeaning.Neutralized(w, groups, n)
    case Market => MarketNeutral(w, n)
  }

  ghost predicate Clipped(raw: Column, w: Column) {
    if raw == map[] then w == raw else exists m, s :: Moments(raw, m, s) && Winsorized(raw, m, s, w)
  }

  /** The values that may be held: without shorts, only the positive ones. */
  ghost predicate Held(n: Column, longOnly: bool, v: Column) {
    v.Keys == n.Keys && forall k :: k in n ==> v[k] == if longOnly && n[k] < 0.0 then 0.0 else n[k]
  }

  ghost predicate OfBook(r: Column, book: real, t: Column) {
    r.Keys == t.Keys && forall k :: k in t ==> r[k] == Times(book)(t[k])
  }

  lemma WholeMarket(w: Column, k: string)
    requires k in w
    ensures RankMeaning.GroupNames(w, map[], k) == w.Keys
  {
    forall j | j in w ensures RankMeaning.SameGroup(map[], j, k) {}
  }

  lemma MarketSumsToZero(w: Column, n: Column)
    requires ColumnMeaning.Neutralized(w, map[], n)
    ensures SumOver(w.Keys, n) == 0.0
  {
    if w.Keys != {} {
      var k :| k in w.Keys;
      WholeMarket(w, k);
    }
  }

  lemma MarketKeepsDifference(w: Column, n: Column, j: string, k: string)
    requires ColumnMeaning.Neutralized(w, map[], n) && j in w && k in w
    ensures n[j] - n[k] == w[j] - w[k]
  {
    assert RankMeaning.SameGroup(map[], j, k);
  }

  ghost predicate MarketNeutral(w: Column, n: Column) {
    && n.Keys == w.Keys && SumOver(n.Keys, n) == 0.0
    && forall j, k :: j in w && k in w ==> n[j] - n[k] == w[j] - w[k]
  }

  /** The whole market is one group. */
  lemma MarketIsNeutral(w: Column)
    ensures MarketNeutral(w, GroupApply(GroupNeutralize, w, map[]))
  {
    var n := GroupApply(GroupNeutralize, w, map[]);
    NeutralizeMeans(w, map[]);
    MarketSumsToZero(w, n);
    forall j, k | j in w && k in w ensures n[j] - n[k] == w[j] - w[k] { MarketKeepsDifference(w, n, j, k); }
  }

  lemma SignalIsClipped(raw: Column, root: real -> real)
    requires SquareRoot(root)
    ensures Clipped(raw, CrossApply(Winsorize, raw, root))
  {
    if raw != map[] {
      assert raw.Keys != {} by { var k :| k in raw; }
      var m, d := WinsorizeMeans(raw, root);
    }
  }

  lemma SignalIsCentered(raw: Column, s: Settings, groups: map<string, string>, root: real -> real)
    ensures Centered(CrossApply(Winsorize, raw, root), s, groups, HistoryBounds.Neutralized(raw, s, groups, root))
  {
    var w := CrossApply(Winsorize, raw, root);
    match s.neutralization
    case NoNeutralization =>
    case Market => MarketIsNeutral(w);
    case ByGroup => NeutralizeMeans(w, groups);
  }

  lemma NothingHeld(v: Column, cap: real)
    requires cap > 0.0 && forall k :: k in v ==> v[k] == 0.0
    ensures IsWaterLevel(v, v, cap, Times(1.0), v)
  {
    SumZero(v.Keys, Magnitudes(v));
    assert Nonzero(v) == {};
  }

  /** What of a signal is held: its water level, or nothing when it is long only and nowhere positive. */
  ghost function Levelled(v: Column, s: Settings): Column {
    if s.longOnly && forall k :: k in v ==> v[k] <= 0.0 then v else Truncated(v, s.truncation)
  }

  lemma HeldLevel(v: Column, s: Settings) returns (c: real)
    requires SettingsValid(s) && (s.longOnly ==> forall k :: k in v ==> v[k] >= 0.0)
    ensures c > 0.0 && IsWaterLevel(v, v, s.truncation, Times(c), Levelled(v, s))
  {
    if s.longOnly && forall k :: k in v ==> v[k] <= 0.0 {
      c := 1.0;
      NothingHeld(v, s.truncation);
    } else {
      c := WaterLevel(v, s.truncation);
    }
  }

  lemma BookedTimes(book: real, x: real)
    ensures Booked(book, x) == Times(book)(x)
  {
  }

  /** What may be held of a centered signal. */
  ghost function Holdable(n: Column, longOnly: bool): Column { if longOnly then LongOnly(n) else n }

  lemma HoldableIsHeld(n: Column, longOnly: bool)
    ensures Held(n, longOnly, Holdable(n, longOnly))
    ensures longOnly ==> forall k :: k in n ==> Holdable(n, longOnly)[k] >= 0.0
  {
  }

  lemma SimulationEnds(raw: Column, s: Settings, groups: map<string, string>, root: real -> real, n: Column)
    requires SimulateCrossSection(raw, s, groups, root).Some? && n == HistoryBounds.Neutralized(raw, s, groups, root)
    ensures Ends(Holdable(n, s.longOnly), s, SimulateCrossSection(raw, s, groups, root).value)
  {
  }

  lemma ZerosOfBook(v: Column, book: real, r: Column)
    requires r.Keys == v.Keys && forall k :: k in v ==> v[k] == 0.0 == r[k]
    ensures OfBook(r, book, v)
  {
    assert Times(book)(0.0) == 0.0;
  }

  lemma TimesOfBook(t: Column, book: real)
    ensures OfBook(TimesBook(t, book), book, t)
  {
    forall k | k in t ensures TimesBook(t, book)[k] == Times(book)(t[k]) { BookedTimes(book, t[k]); }
  }

  /** The two ways a cross-section ends. */
  ghost predicate Ends(v: Column, s: Settings, r: Column) {
    if s.longOnly && forall k :: k in v ==> v[k] <= 0.0 then r == map k | k in v :: 0.0
    else r == TimesBook(Truncated(v, s.truncation), s.book)
  }

  lemma EndsOfBook(v: Column, s: Settings, r: Column)
    requires Ends(v, s, r) && (s.longOnly ==> forall k :: k in v ==> v[k] >= 0.0)
    ensures OfBook(r, s.book, Levelled(v, s))
  {
    if s.longOnly && forall k :: k in v ==> v[k] <= 0.0 {
      ZerosOfBook(v, s.book, r);
    } else {
      TimesOfBook(Truncated(v, s.truncation), s.book);
    }
  }

  /** The weights of a cross-section are the book times the water level of its clipped and centered signal, without the
      negative names where only long positions are allowed. */
  lemma {:induction false} CrossSectionMeans(raw: Column, s: Settings, groups: map<string, string>, root: real -> real)
    returns (w: Column, n: Column, v: Column, t: Column, c: real)
    requires SettingsValid(s) && SquareRoot(root) && SimulateCrossSection(raw, s, groups, root).Some?
    ensures Clipped(raw, w) && Centered(w, s, groups, n) && Held(n, s.longOnly, v)
    ensures c > 0.0 && IsWaterLevel(v, v, s.truncation, Times(c), t)
    ensures OfBook(SimulateCrossSection(raw, s, groups, root).value, s.book, t)
  {
    w, n := CrossApply(Winsorize, raw, root), HistoryBounds.Neutralized(raw, s, groups, root);
    v := Holdable(n, s.longOnly);
    t := Levelled(v, s);
    SignalIsClipped(raw, root);
    SignalIsCentered(raw, s, groups, root);
    HoldableIsHeld(n, s.longOnly);
    c := HeldLevel(v, s);
    SimulationEnds(raw, s, groups, root, n);
    EndsOfBook(v, s, SimulateCrossSection(raw, s, groups, root).value);
  }

  /** Without groups a group-neutral cross-section is refused, and nothing else is. */
  lemma RefusedWithoutGroups(raw: Column, s: Settings, groups: map<string, string>, root: real -> real)
    ensures SimulateCrossSection(raw, s, groups, root).None? <==> s.neutralization == ByGroup && groups == map[]
  {
  }

  // ------------------------------------------------------------------ decay

  /** The last `d` weights of an instrument, oldest first. */
  ghost predicate Lately(bases: seq<Cells>, k: string, d: nat, ws: seq<real>) {
    d <= |bases| && |ws| == d && forall j :: 0 <= j < d ==> Get(bases[|bases| - d + j], k) == Some(ws[j])
  }

  /** The newest weight; or, once there are `decay` of them, their average with weights 1 to `decay`, oldest first, if
      none is missing. */
  ghost predicate DecaysTo(bases: seq<Cells>, k: string, decay: nat, cell: Cell)
    requires bases != []
  {
    if decay <= 1 then cell == Get(bases[|bases| - 1], k)
    else
      && (cell.Some? <==> exists ws :: Lately(bases, k, decay, ws))
      && (cell.Some? ==> exists ws :: Lately(bases, k, decay, ws) && Averages(cell.value, (decay * (decay + 1)) as real, 2.0 * Rising(ws, 1)))
  }

  ghost function ValuesOf(window: seq<Cells>, k: string): seq<real>
    requires forall j :: 0 <= j < |window| ==> Get(window[j], k).Some?
  {
    seq(|window|, j requires 0 <= j < |window| => Get(window[j], k).value)
  }

  lemma {:induction false} WeightedCellsRise(window: seq<Cells>, k: string, n: nat)
    requires n <= |window| && forall j :: 0 <= j < |window| ==> Get(window[j], k).Some?
    ensures WeightedCells(window, k, n) == Rising(ValuesOf(window, k)[..n], 1)
    decreases n
  {
    if n > 0 {
      var ws := ValuesOf(window, k);
      WeightedCellsRise(window, k, n - 1);
      RisingAppend(ws[..n - 1], ws[n - 1], 1);
      assert ws[..n] == ws[..n - 1] + [ws[n - 1]];
    }
  }

  lemma TriangleAverage(total: real, d: nat)
    requires d >= 1
    ensures Triangle(d) > 0.0 && Averages(total / Triangle(d), (d * (d + 1)) as real, 2.0 * total)
  {
    var t := Triangle(d);
    assert (d * (d + 1)) as real == 2.0 * t;
    TrianglePositive(d);
    Divided(total, t);
    TwiceAs(total / t, t, total);
  }

  lemma TwiceAs(x: real, t: real, total: real)
    requires x * t == total
    ensures x * (2.0 * t) == 2.0 * total
  {
  }

  lemma DecayedCellMeans(window: seq<Cells>, k: string)
    requires window != []
    ensures DecayedCell(window, k).Some? <==> forall j :: 0 <= j < |window| ==> Get(window[j], k).Some?
    ensures DecayedCell(window, k).Some? ==>
              var ws := ValuesOf(window, k);
              Averages(DecayedCell(window, k).value, (|window| * (|window| + 1)) as real, 2.0 * Rising(ws, 1))
  {
    if DecayedCell(window, k).Some? {
      WeightedCellsRise(window, k, |window|);
      assert ValuesOf(window, k)[..|window|] == ValuesOf(window, k);
      TriangleAverage(WeightedCells(window, k, |window|), |window|);
    }
  }

  lemma DecayedMeans(bases: seq<Cells>, instruments: seq<string>, decay: nat, k: string)
    requires bases != [] && k in instruments
    ensures k in Decayed(bases, instruments, decay) && DecaysTo(bases, k, decay, Decayed(bases, instruments, decay)[k])
  {
    if 1 < decay <= |bases| {
      var window := bases[|bases| - decay..];
      DecayedCellMeans(window, k);
      if DecayedCell(window, k).Some? {
        assert Lately(bases, k, decay, ValuesOf(window, k));
      } else if exists ws :: Lately(bases, k, decay, ws) {
        var ws :| Lately(bases, k, decay, ws);
        forall j | 0 <= j < decay ensures Get(window[j], k).Some? { assert Get(bases[|bases| - decay + j], k) == Some(ws[j]); }
      }
    }
  }

  // ------------------------------------------------------------------ a whole point

  /** The latest value of each of the source session's instruments, evaluated on what was known then. */
  ghost predicate SignalledBy(raw: Cells, panel: Panel, source: Session) {
    && (forall k :: k in raw <==> k in source.instruments)
    && forall k :: k in raw ==> raw[k] == if k in panel && panel[k] != [] then panel[k][|panel[k]| - 1] else None
  }

  ghost predicate Values(raw: Cells, v: Column) {
    forall k :: (k in v <==> k in raw && raw[k].Some?) && (k in v ==> raw[k] == Some(v[k]))
  }

  /** The weights made of those values and the source session's groups, for the instruments of the effective one. */
  ghost predicate WeightedBy(g: Engine, raw: Cells, source: Session, base: Cells, instruments: seq<string>) {
    && (forall k :: k in base <==> k in instruments)
    && exists v :: Values(raw, v) &&
         if v == map[] then forall k :: k in base ==> base[k].None?
         else g.transform(v, source.groups).Some? && forall k :: k in base ==> base[k] == CellOf(g.transform(v, source.groups).value, k)
  }

  ghost predicate PointMeans(g: Engine, sessions: seq<Session>, delay: nat, i: nat, p: Point)
    requires i < |sessions|
  {
    && p.time == sessions[i].time
    && if i < delay
       then p.source.None? && (forall k :: k in p.raw ==> p.raw[k].None?) && (forall k :: k in p.base ==> p.base[k].None?)
       else
         var source := sessions[i - delay];
         && p.source == Some(source.time)
         && g.evaluate(source.resolver).Some? && SignalledBy(p.raw, g.evaluate(source.resolver).value, source)
         && WeightedBy(g, p.raw, source, p.base, sessions[i].instruments)
  }

  lemma AvailableIsValues(raw: Cells)
    ensures Values(raw, Available(raw))
  {
  }

  lemma SignalMeans(g: Engine, sessions: seq<Session>, delay: nat, i: nat)
    requires delay <= i < |sessions| && Signal(g, sessions, delay, i).Some?
    ensures var (raw, base), source := Signal(g, sessions, delay, i).value, sessions[i - delay];
            && g.evaluate(source.resolver).Some? && SignalledBy(raw, g.evaluate(source.resolver).value, source)
            && WeightedBy(g, raw, source, base, sessions[i].instruments)
  {
    var source := sessions[i - delay];
    AvailableIsValues(RawSignal(g.evaluate(source.resolver).value, source.instruments));
  }

  /** Every point: its signal is the expression on the data of the session `delay` before it, its base weights are made of
      that signal, and its weights are the decayed base weights of the sessions up to it. */
  lemma {:induction false} PointsMean(g: Engine, sessions: seq<Session>, delay: nat, decay: nat, i: nat)
    requires i < |sessions| && AllSignals(g, sessions, delay)
    ensures var ps := Points(g, sessions, delay, decay);
            var bases := seq(i + 1, j requires 0 <= j <= i => ps[j].base);
            && PointMeans(g, sessions, delay, i, ps[i])
            && (forall k :: k in ps[i].weights <==> k in sessions[i].instruments)
            && (forall k :: k in ps[i].weights ==> DecaysTo(bases, k, decay, ps[i].weights[k]))
  {
    var ps := Points(g, sessions, delay, decay);
    var bases := seq(i + 1, j requires 0 <= j <= i => ps[j].base);
    assert bases == Bases(g, sessions, delay, i + 1);
    if i >= delay { SignalMeans(g, sessions, delay, i); }
    forall k | k in sessions[i].instruments ensures k in ps[i].weights && DecaysTo(bases, k, decay, ps[i].weights[k]) {
      DecayedMeans(bases, sessions[i].instruments, decay, k);
    }
  }
}
