/**
 Point-in-time historical simulation: delay selects the signal session, the signal's
 cross-section becomes capped book weights, and decay averages weights over sessions.
 */
module History {
  import opened Common
  import opened Sums
  import opened Operators
  import opened Dsl

  type Cells = map<string, Cell>

  /** What `HistoricalSession.__post_init__` lets exist: at least one instrument, none twice. */
  datatype Session = Session(time: int, resolver: Resolver, instruments: seq<string>, groups: map<string, string>)

  datatype Point = Point(time: int, source: Option<int>, raw: Cells, base: Cells, weights: Cells)

  /** The instrument's latest value, if it has a series at all. */
  function LastCell(p: Panel, k: string): Cell {
    if k in p && |p[k]| > 0 then p[k][|p[k]| - 1] else None
  }

  /** `_last_cross_section` */
  function RawSignal(p: Panel, instruments: seq<string>): Cells {
    map k | k in instruments :: LastCell(p, k)
  }

  function Available(raw: Cells): Column {
    map k | k in raw && raw[k].Some? :: raw[k].value
  }

  function NoCells(instruments: seq<string>): Cells {
    map k | k in instruments :: None
  }

  function CellsOf(out: Column, instruments: seq<string>): Cells {
    map k | k in instruments :: CellOf(out, k)
  }

  function Get(c: Cells, k: string): Cell {
    if k in c then c[k] else None
  }

  /** The two computations a run is parameterized by: evaluating the expression on a session's
      resolver, and turning a signal's cross-section into weights.  `None` is an exception. */
  datatype Engine = Engine(evaluate: Resolver -> Option<Panel>, transform: (Column, map<string, string>) -> Option<Column>)

  /** Raw signal and base weights effective at session `i`. */
  function Signal(g: Engine, sessions: seq<Session>, delay: nat, i: nat): Option<(Cells, Cells)>
    requires i < |sessions|
  {
    var instruments := sessions[i].instruments;
    if i < delay then Some((NoCells(instruments), NoCells(instruments)))
    else
      var source := sessions[i - delay];
      var panel := g.evaluate(source.resolver);
      if panel.None? then None
      else
        var raw := RawSignal(panel.value, source.instruments);
        if Available(raw) == map[] then Some((raw, NoCells(instruments)))
        else
          var out := g.transform(Available(raw), source.groups);
          if out.None? then None else Some((raw, CellsOf(out.value, instruments)))
  }

  /** Weights 1, 2, ..., oldest first, over the first `n` sessions of the window. */
  function WeightedCells(window: seq<Cells>, k: string, n: nat): real
    requires n <= |window| && forall j :: 0 <= j < n ==> Get(window[j], k).Some?
  {
    if n == 0 then 0.0 else WeightedCells(window, k, n - 1) + n as real * Get(window[n - 1], k).value
  }

  /** The denominator d(d + 1)/2. */
  function Triangle(d: nat): real { d as real * (d as real + 1.0) / 2.0 }

  function DecayedCell(window: seq<Cells>, k: string): Cell
    requires |window| >= 1
  {
    if exists j :: 0 <= j < |window| && Get(window[j], k).None? then None
    else Some(WeightedCells(window, k, |window|) / Triangle(|window|))
  }

  /** `_decayed_weights` */
  function Decayed(bases: seq<Cells>, instruments: seq<string>, decay: nat): Cells
    requires bases != []
  {
    if decay <= 1 then map k | k in instruments :: Get(bases[|bases| - 1], k)
    else if |bases| < decay then NoCells(instruments)
    else map k | k in instruments :: DecayedCell(bases[|bases| - decay..], k)
  }

  /** No exception up to session `n`. */
  predicate SignalsUpTo(g: Engine, sessions: seq<Session>, delay: nat, n: nat)
    requires n <= |sessions|
  {
    forall i :: 0 <= i < n ==> Signal(g, sessions, delay, i).Some?
  }

  predicate AllSignals(g: Engine, sessions: seq<Session>, delay: nat) {
    SignalsUpTo(g, sessions, delay, |sessions|)
  }

  function Bases(g: Engine, sessions: seq<Session>, delay: nat, n: nat): seq<Cells>
    requires n <= |sessions| && SignalsUpTo(g, sessions, delay, n)
  {
    seq(n, i requires 0 <= i < n => Signal(g, sessions, delay, i).value.1)
  }

  function PointAt(g: Engine, sessions: seq<Session>, delay: nat, decay: nat, i: nat): Point
    requires i < |sessions| && SignalsUpTo(g, sessions, delay, i + 1)
  {
    var s := Signal(g, sessions, delay, i).value;
    Point(sessions[i].time, if i < delay then None else Some(sessions[i - delay].time), s.0, s.1,
          Decayed(Bases(g, sessions, delay, i + 1), sessions[i].instruments, decay))
  }

  predicate Ordered(sessions: seq<Session>) {
    sessions != [] && forall i, j :: 0 <= i < j < |sessions| ==> sessions[i].time < sessions[j].time
  }

  function Points(g: Engine, sessions: seq<Session>, delay: nat, decay: nat): seq<Point>
    requires AllSignals(g, sessions, delay)
  {
    seq(|sessions|, i requires 0 <= i < |sessions| => PointAt(g, sessions, delay, decay, i))
  }

  lemma BasesOne(g: Engine, sessions: seq<Session>, delay: nat, i: nat)
    requires i < |sessions| && SignalsUpTo(g, sessions, delay, i) && Signal(g, sessions, delay, i).Some?
    ensures SignalsUpTo(g, sessions, delay, i + 1)
    ensures Bases(g, sessions, delay, i + 1) == Bases(g, sessions, delay, i) + [Signal(g, sessions, delay, i).value.1]
  {
  }

  ghost predicate PointsSoFar(g: Engine, sessions: seq<Session>, delay: nat, decay: nat, points: seq<Point>, n: nat) {
    && n <= |sessions| && SignalsUpTo(g, sessions, delay, n) && |points| == n
    && forall j :: 0 <= j < n ==> points[j] == PointAt(g, sessions, delay, decay, j)
  }

  /** `simulate_history`, point construction: one pass that appends to `points` and `base_history`. */
  method SimulateHistory(g: Engine, sessions: seq<Session>, delay: nat, decay: nat) returns (r: Option<seq<Point>>)
    ensures r.Some? <==> Ordered(sessions) && AllSignals(g, sessions, delay)
    ensures r.Some? ==> r.value == Points(g, sessions, delay, decay)
  {
    if sessions == [] || exists i, j :: 0 <= i < j < |sessions| && sessions[i].time >= sessions[j].time { return None; }
    r := BuildPoints(g, sessions, delay, decay);
  }

  /** The pass itself. */
  method BuildPoints(g: Engine, sessions: seq<Session>, delay: nat, decay: nat) returns (r: Option<seq<Point>>)
    ensures r.Some? <==> AllSignals(g, sessions, delay)
    ensures r.Some? ==> r.value == Points(g, sessions, delay, decay)
  {
    var points: seq<Point>, bases: seq<Cells> := [], [];
    for i := 0 to |sessions|
      invariant SignalsUpTo(g, sessions, delay, i) && bases == Bases(g, sessions, delay, i)
      invariant PointsSoFar(g, sessions, delay, decay, points, i)
    {
      var s := Signal(g, sessions, delay, i);
      if s.None? { return None; }
      BasesOne(g, sessions, delay, i);
      bases := bases + [s.value.1];
      var source := if i < delay then None else Some(sessions[i - delay].time);
      var point := Point(sessions[i].time, source, s.value.0, s.value.1, Decayed(bases, sessions[i].instruments, decay));
      PointsOne(g, sessions, delay, decay, points, i, point);
      points := points + [point];
    }
    r := Some(points);
  }

  lemma PointsOne(g: Engine, sessions: seq<Session>, delay: nat, decay: nat, points: seq<Point>, i: nat, point: Point)
    requires PointsSoFar(g, sessions, delay, decay, points, i) && i < |sessions| && SignalsUpTo(g, sessions, delay, i + 1)
    requires point == PointAt(g, sessions, delay, decay, i)
    ensures PointsSoFar(g, sessions, delay, decay, points + [point], i + 1)
  {
  }

  // ---------------------------------------------------------- prefix stability

  /** Extending the session list leaves every earlier point unchanged. */
  lemma {:induction false} PrefixStable(g: Engine, sessions: seq<Session>, delay: nat, decay: nat, n: nat)
    requires AllSignals(g, sessions, delay) && n <= |sessions|
    ensures AllSignals(g, sessions[..n], delay)
    ensures Points(g, sessions[..n], delay, decay) == Points(g, sessions, delay, decay)[..n]
  {
    forall i | 0 <= i < n ensures Signal(g, sessions[..n], delay, i) == Signal(g, sessions, delay, i) {}
    forall i | 0 <= i < n ensures PointAt(g, sessions[..n], delay, decay, i) == PointAt(g, sessions, delay, decay, i) {
      assert Bases(g, sessions[..n], delay, i + 1) == Bases(g, sessions, delay, i + 1);
    }
  }

  /** Two session lists that hold the same sessions up to `i - delay`, and the same instruments and times
      up to `i`, produce the same point at `i`: no signal, base or decayed weight effective at a
      session uses any later session's data. */
  lemma {:induction false} DelayHides(g: Engine, a: seq<Session>, b: seq<Session>, delay: nat, decay: nat, i: nat)
    requires i < |a| && i < |b| && AllSignals(g, a, delay) && AllSignals(g, b, delay)
    requires forall j :: 0 <= j <= i - delay ==> a[j] == b[j]
    requires forall j :: 0 <= j <= i ==> a[j].instruments == b[j].instruments && a[j].time == b[j].time
    ensures PointAt(g, a, delay, decay, i) == PointAt(g, b, delay, decay, i)
  {
    forall j | 0 <= j <= i ensures Signal(g, a, delay, j) == Signal(g, b, delay, j) {
      if j >= delay { assert a[j - delay] == b[j - delay]; }
    }
    assert Bases(g, a, delay, i + 1) == Bases(g, b, delay, i + 1);
  }
}
