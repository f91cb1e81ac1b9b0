/**
 The operator library: time-series operators as functions of one oldest-to-newest
 series, cross-section operators as functions of one instrument-to-value column.
 Numbers are exact reals and `root` stands for the square root, about which nothing
 is assumed.
 */
module Operators {
  import opened Common
  import opened Sums
  import opened Truncation

  type Cell = Option<real>
  type Series = seq<Cell>
  type Column = map<string, real>

  predicate Integral(x: real) { x == x.Floor as real }

  datatype TimeOp = Delay | Delta | Sum | Mean | StdDev | ZScore | Rank | DecayLinear | Maximum | Minimum
  datatype CrossOp = CrossRank | CrossZScore | CrossScale | Winsorize
  datatype GroupOp = GroupNeutralize | GroupRank

  // ---------------------------------------------------------------- time series

  /** The operator does not raise for this window. */
  predicate WindowOk(op: TimeOp, d: int) {
    match op
    case Delay => d >= 0
    case Delta => d >= 0
    case StdDev => d >= 2
    case ZScore => d >= 2
    case _ => d >= 1
  }

  /** `_window`: the last `d` values up to `i`, or `None` while any is missing. */
  function Window(s: Series, d: int, i: int): Option<seq<real>>
    requires d >= 1 && 0 <= i < |s|
  {
    if i - d + 1 < 0 || exists j :: i - d + 1 <= j <= i && s[j].None? then None
    else Some(seq(d, j requires 0 <= j < d => s[i - d + 1 + j].value))
  }

  function SumSeq(w: seq<real>): real {
    if w == [] then 0.0 else SumSeq(w[..|w| - 1]) + w[|w| - 1]
  }

  function SumSquares(w: seq<real>, mean: real): real {
    if w == [] then 0.0 else SumSquares(w[..|w| - 1], mean) + (w[|w| - 1] - mean) * (w[|w| - 1] - mean)
  }

  /** Weights 1, 2, ..., oldest first. */
  function WeightedSum(w: seq<real>): real {
    if w == [] then 0.0 else WeightedSum(w[..|w| - 1]) + |w| as real * w[|w| - 1]
  }

  function CountBelow(w: seq<real>, x: real): nat {
    if w == [] then 0 else CountBelow(w[..|w| - 1], x) + (if w[|w| - 1] < x then 1 else 0)
  }

  function CountSame(w: seq<real>, x: real): nat {
    if w == [] then 0 else CountSame(w[..|w| - 1], x) + (if w[|w| - 1] == x then 1 else 0)
  }

  function MaxSeq(w: seq<real>): real
    requires w != []
  {
    if |w| == 1 then w[0] else MaxReal(MaxSeq(w[..|w| - 1]), w[|w| - 1])
  }

  function MinSeq(w: seq<real>): real
    requires w != []
  {
    if |w| == 1 then w[0] else MinReal(MinSeq(w[..|w| - 1]), w[|w| - 1])
  }

  /** Percentile of the last value within its window, ties averaged. */
  function WindowRank(w: seq<real>): real
    requires w != []
  {
    if |w| == 1 then 0.5
    else
      var x := w[|w| - 1];
      (CountBelow(w, x) as real + (CountSame(w, x) as real - 1.0) / 2.0) / (|w| as real - 1.0)
  }

  function Deviation(w: seq<real>, root: real -> real): real
    requires |w| >= 2
  {
    root(SumSquares(w, SumSeq(w) / |w| as real) / (|w| as real - 1.0))
  }

  /** The value of a window operator on a full window. */
  function OfWindow(op: TimeOp, w: seq<real>, root: real -> real): real
    requires |w| >= 1 && WindowOk(op, |w|) && !op.Delay? && !op.Delta?
  {
    match op
    case Sum => SumSeq(w)
    case Mean => SumSeq(w) / |w| as real
    case StdDev => Deviation(w, root)
    case ZScore =>
      var std := Deviation(w, root);
      if std == 0.0 then 0.0 else (w[|w| - 1] - SumSeq(w) / |w| as real) / std
    case Rank => WindowRank(w)
    case DecayLinear => WeightedSum(w) / ((|w| * (|w| + 1)) as real / 2.0)
    case Maximum => MaxSeq(w)
    case Minimum => MinSeq(w)
  }

  /** Cell `i` of a time-series operator. */
  function TimeCell(op: TimeOp, s: Series, d: int, i: int, root: real -> real): Cell
    requires WindowOk(op, d) && 0 <= i < |s|
  {
    match op
    case Delay => if i - d >= 0 then s[i - d] else None
    case Delta => if i - d >= 0 && s[i].Some? && s[i - d].Some? then Some(s[i].value - s[i - d].value) else None
    case _ =>
      var w := Window(s, d, i);
      if w.None? then None else Some(OfWindow(op, w.value, root))
  }

  function TimeSeries(op: TimeOp, s: Series, d: int, root: real -> real): (r: Series)
    requires WindowOk(op, d)
    ensures |r| == |s|
  {
    seq(|s|, i requires 0 <= i < |s| => TimeCell(op, s, d, i, root))
  }

  /** Which window literal a call notices: an integral, admissible window always works; a fractional one raises only where a
      slice or an index uses it, and a non-positive one only where the operator looks at it. */
  predicate Answers(op: TimeOp, d: real, length: nat) {
    match op
    case Delay => d >= 0.0 && (Integral(d) || length as real < d + 1.0)
    case Delta => d >= 0.0 && (Integral(d) || length as real < d + 1.0)
    case StdDev => d >= 2.0 && (Integral(d) || length as real < d)
    case ZScore => d >= 2.0 && (Integral(d) || length as real < d)
    case DecayLinear => d >= 1.0 && Integral(d)
    case _ => length == 0 || (d > 0.0 && (Integral(d) || length as real < d))
  }

  predicate Admissible(op: TimeOp, d: real) { Integral(d) && WindowOk(op, d.Floor) }

  /** The series an operator answers with: warm-up only, when the window was never used. */
  function Answer(op: TimeOp, s: Series, d: real, root: real -> real): (r: Series)
    requires Answers(op, d, |s|)
    ensures |r| == |s|
  {
    if Admissible(op, d) then TimeSeries(op, s, d.Floor, root) else seq(|s|, _ => None)
  }

  lemma AdmissibleAnswers(op: TimeOp, d: real, length: nat)
    requires Admissible(op, d)
    ensures Answers(op, d, length)
  {
  }

  /** A window that works on a history works on every shorter one. */
  lemma ShorterAnswers(op: TimeOp, d: real, length: nat, n: nat)
    requires Answers(op, d, length) && n <= length
    ensures Answers(op, d, n)
  {
  }

  /** A cell reads nothing after its own index. */
  lemma TimeCellIsCausal(op: TimeOp, s: Series, d: int, i: int, n: int, root: real -> real)
    requires WindowOk(op, d) && 0 <= i < n <= |s|
    ensures TimeCell(op, s[..n], d, i, root) == TimeCell(op, s, d, i, root)
  {
    if !op.Delay? && !op.Delta? {
      WindowIsCausal(s, d, i, n);
    }
  }

  lemma WindowIsCausal(s: Series, d: int, i: int, n: int)
    requires d >= 1 && 0 <= i < n <= |s|
    ensures Window(s[..n], d, i) == Window(s, d, i)
  {
    if i - d + 1 >= 0 {
      assert forall j :: i - d + 1 <= j <= i ==> s[..n][j] == s[j];
      if Window(s, d, i).None? {
        var j :| i - d + 1 <= j <= i && s[j].None?;
        assert s[..n][j].None?;
      } else {
        assert forall j :: i - d + 1 <= j <= i ==> s[..n][j].Some?;
        assert Window(s[..n], d, i).value == Window(s, d, i).value;
      }
    }
  }

  /** Truncating the history and then applying the operator is applying it and then truncating. */
  lemma TimeSeriesIsCausal(op: TimeOp, s: Series, d: int, n: nat, root: real -> real)
    requires WindowOk(op, d) && n <= |s|
    ensures TimeSeries(op, s[..n], d, root) == TimeSeries(op, s, d, root)[..n]
  {
    forall i | 0 <= i < n ensures TimeSeries(op, s[..n], d, root)[i] == TimeSeries(op, s, d, root)[i] {
      TimeCellIsCausal(op, s, d, i, n, root);
    }
  }

  lemma AnswerIsCausal(op: TimeOp, s: Series, d: real, n: nat, root: real -> real)
    requires Answers(op, d, |s|) && n <= |s|
    ensures Answers(op, d, n) && Answer(op, s[..n], d, root) == Answer(op, s, d, root)[..n]
  {
    ShorterAnswers(op, d, |s|, n);
    if Admissible(op, d) { TimeSeriesIsCausal(op, s, d.Floor, n, root); }
  }

  /** How many more leading cells an operator leaves empty. */
  function Lag(op: TimeOp, d: int): int {
    if op.Delay? || op.Delta? then d else d - 1
  }

  /** Empty cells below `w` in the input make empty cells below `w` plus the lag in the output. */
  lemma WarmUpAdds(op: TimeOp, s: Series, d: int, w: nat, i: int, root: real -> real)
    requires WindowOk(op, d) && 0 <= i < |s| && i < w + Lag(op, d)
    requires forall j :: 0 <= j < w && j < |s| ==> s[j].None?
    ensures TimeCell(op, s, d, i, root).None?
  {
    if !op.Delay? && !op.Delta? && i - d + 1 >= 0 {
      assert s[i - d + 1].None?;
    }
  }

  // -------------------------------------------------------------- cross section

  ghost function MeanOf(keys: set<string>, v: Column): real
    requires keys <= v.Keys && keys != {}
  {
    SumOver(keys, v) / |keys| as real
  }

  ghost function VarianceOf(v: Column): real
    requires v.Keys != {}
  {
    var mean := MeanOf(v.Keys, v);
    SumOver(v.Keys, map k | k in v :: (v[k] - mean) * (v[k] - mean)) / |v.Keys| as real
  }

  /** `rank` of the names in `keys`: average rank less one over count less one, ties averaged. */
  function RankAmong(keys: set<string>, v: Column, k: string): real
    requires keys <= v.Keys && k in keys
  {
    if |keys| == 1 then 0.5
    else
      var below := |set j | j in keys && v[j] < v[k]|;
      var same := |set j | j in keys && v[j] == v[k]|;
      assert |keys| >= 1 by { assert keys - {k} != keys; }
      (below as real + (same as real - 1.0) / 2.0) / (|keys| as real - 1.0)
  }

  function RankColumn(v: Column): (r: Column)
    ensures r.Keys == v.Keys
  {
    map k | k in v :: RankAmong(v.Keys, v, k)
  }

  ghost function CrossApply(op: CrossOp, v: Column, root: real -> real): (r: Column)
    ensures r.Keys == v.Keys
  {
    if v.Keys == {} then map[]
    else
      match op
      case CrossRank => RankColumn(v)
      case CrossZScore =>
        var mean, std := MeanOf(v.Keys, v), root(VarianceOf(v));
        map k | k in v :: if std == 0.0 then 0.0 else (v[k] - mean) / std
      case CrossScale => Scale(v, 1.0)
      case Winsorize =>
        var mean, sigma := MeanOf(v.Keys, v), root(VarianceOf(v));
        map k | k in v ::
          if sigma == 0.0 then v[k]
          else MinReal(MaxReal(v[k], mean - 4.0 * sigma), mean + 4.0 * sigma)
  }

  const UNGROUPED: string := "__ungrouped__"

  function GroupOf(groups: map<string, string>, k: string): string {
    if k in groups then groups[k] else UNGROUPED
  }

  /** The names of the column that share a group with `k`. */
  function Peers(v: Column, groups: map<string, string>, k: string): set<string> {
    set j | j in v && GroupOf(groups, j) == GroupOf(groups, k)
  }

  function GroupRankColumn(v: Column, groups: map<string, string>): (r: Column)
    ensures r.Keys == v.Keys
  {
    map k | k in v :: RankAmong(Peers(v, groups, k), v, k)
  }

  ghost function GroupApply(op: GroupOp, v: Column, groups: map<string, string>): (r: Column)
    ensures r.Keys == v.Keys
  {
    match op
    case GroupNeutralize => map k | k in v :: (assert k in Peers(v, groups, k); v[k] - MeanOf(Peers(v, groups, k), v))
    case GroupRank => GroupRankColumn(v, groups)
  }

  function SignOf(x: real): real {
    if x > 0.0 then 1.0 else if x < 0.0 then -1.0 else 0.0
  }
}
