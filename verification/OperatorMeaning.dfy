/**
 What an evaluated operator call says about the values it was given, operator by operator, in terms of those values
 and not of the functions that compute the answer.
 */
module OperatorMeaning {
  import opened Common
  import opened Sums
  import opened Truncation
  import opened Operators
  import opened Dsl
  import opened RankMeaning
  import opened ColumnMeaning

  // ------------------------------------------------------------------ one full window, oldest first

  ghost function Total(w: seq<real>): real {
    if w == [] then 0.0 else w[0] + Total(w[1..])
  }

  ghost function SquaresAbout(w: seq<real>, m: real): real {
    if w == [] then 0.0 else Square(w[0] - m) + SquaresAbout(w[1..], m)
  }

  /** The first value `weight` times, every later one once more often than the one before. */
  ghost function Rising(w: seq<real>, weight: nat): real {
    if w == [] then 0.0 else weight as real * w[0] + Rising(w[1..], weight + 1)
  }

  /** `m` is the mean of the window and `s` its sample deviation. */
  ghost predicate SampleMoments(w: seq<real>, m: real, s: real) {
    && Averages(m, |w| as real, Total(w))
    && s >= 0.0 && Averages(Square(s), |w| as real - 1.0, SquaresAbout(w, m))
  }

  ghost predicate WindowMeans(op: TimeOp, w: seq<real>, x: real)
    requires w != [] && !op.Delay? && !op.Delta?
  {
    var last := w[|w| - 1];
    match op
    case Sum => x == Total(w)
    case Mean => Averages(x, |w| as real, Total(w))
    case StdDev => exists m :: SampleMoments(w, m, x)
    case ZScore => exists m, s :: SampleMoments(w, m, s) && Scored(last, m, s, x)
    case Rank => Placed(x, |w|, |PlacesBelow(w, last)|, |PlacesAbove(w, last)|)
    case DecayLinear => x * (|w| * (|w| + 1)) as real == 2.0 * Rising(w, 1)
    case Maximum => x in w && forall j :: 0 <= j < |w| ==> w[j] <= x
    case Minimum => x in w && forall j :: 0 <= j < |w| ==> w[j] >= x
  }

  lemma {:induction false} TotalIsSum(w: seq<real>, x: real)
    ensures Total(w + [x]) == Total(w) + x
    decreases |w|
  {
    if w != [] {
      assert (w + [x])[1..] == w[1..] + [x];
      TotalIsSum(w[1..], x);
    }
  }

  lemma {:induction false} SumIsTotal(w: seq<real>)
    ensures SumSeq(w) == Total(w)
    decreases |w|
  {
    if w != [] {
      var init, last := w[..|w| - 1], w[|w| - 1];
      SumIsTotal(init);
      TotalIsSum(init, last);
      assert w == init + [last];
    }
  }

  lemma {:induction false} SquaresAppend(w: seq<real>, x: real, m: real)
    ensures SquaresAbout(w + [x], m) == SquaresAbout(w, m) + Square(x - m)
    decreases |w|
  {
    if w != [] {
      assert (w + [x])[1..] == w[1..] + [x];
      SquaresAppend(w[1..], x, m);
    }
  }

  lemma {:induction false} SquaresAre(w: seq<real>, m: real)
    ensures SumSquares(w, m) == SquaresAbout(w, m)
    decreases |w|
  {
    if w != [] {
      var init, last := w[..|w| - 1], w[|w| - 1];
      SquaresAre(init, m);
      SquaresAppend(init, last, m);
      assert w == init + [last];
    }
  }

  lemma {:induction false} RisingAppend(w: seq<real>, x: real, weight: nat)
    ensures Rising(w + [x], weight) == Rising(w, weight) + (weight + |w|) as real * x
    decreases |w|
  {
    if w != [] {
      assert (w + [x])[1..] == w[1..] + [x];
      RisingAppend(w[1..], x, weight + 1);
    }
  }

  lemma {:induction false} WeightedIsRising(w: seq<real>)
    ensures WeightedSum(w) == Rising(w, 1)
    decreases |w|
  {
    if w != [] {
      var init, last := w[..|w| - 1], w[|w| - 1];
      WeightedIsRising(init);
      RisingAppend(init, last, 1);
      assert w == init + [last];
    }
  }

  lemma {:induction false} GreatestIs(w: seq<real>)
    requires w != []
    ensures MaxSeq(w) in w && forall j :: 0 <= j < |w| ==> w[j] <= MaxSeq(w)
    decreases |w|
  {
    if |w| > 1 {
      var init := w[..|w| - 1];
      GreatestIs(init);
      assert forall j :: 0 <= j < |w| - 1 ==> w[j] == init[j];
    }
  }

  lemma {:induction false} LeastIs(w: seq<real>)
    requires w != []
    ensures MinSeq(w) in w && forall j :: 0 <= j < |w| ==> w[j] >= MinSeq(w)
    decreases |w|
  {
    if |w| > 1 {
      var init := w[..|w| - 1];
      LeastIs(init);
      assert forall j :: 0 <= j < |w| - 1 ==> w[j] == init[j];
    }
  }

  lemma {:induction false} SquaresNonNegative(w: seq<real>, m: real)
    ensures SquaresAbout(w, m) >= 0.0
    ensures SquaresAbout(w, m) == 0.0 ==> forall j :: 0 <= j < |w| ==> w[j] == m
    decreases |w|
  {
    if w != [] {
      SquareSign(w[0] - m);
      SquaresNonNegative(w[1..], m);
      assert forall j :: 0 < j < |w| ==> w[j] == w[1..][j - 1];
    }
  }

  lemma RootOfShare(total: real, n: real, root: real -> real)
    requires total >= 0.0 && n > 0.0 && SquareRoot(root)
    ensures root(total / n) >= 0.0 && Averages(Square(root(total / n)), n, total)
  {
    ShareOf(total, n, total / n);
  }

  lemma SquaresMean(w: seq<real>, m: real)
    ensures SumSquares(w, m) == SquaresAbout(w, m) >= 0.0
  {
    SquaresAre(w, m);
    SquaresNonNegative(w, m);
  }

  /** The deviation the loops compute is the sample deviation about the mean. */
  lemma DeviationMeans(w: seq<real>, root: real -> real)
    requires |w| >= 2 && SquareRoot(root)
    ensures SampleMoments(w, SumSeq(w) / |w| as real, Deviation(w, root))
  {
    var m, n := SumSeq(w) / |w| as real, |w| as real - 1.0;
    assert Averages(m, |w| as real, Total(w)) by {
      SumIsTotal(w);
      Divided(SumSeq(w), |w| as real);
    }
    SquaresMean(w, m);
    RootOfShare(SumSquares(w, m), n, root);
  }

  lemma ScoreMeans(w: seq<real>, root: real -> real)
    requires |w| >= 2 && SquareRoot(root)
    ensures WindowMeans(ZScore, w, OfWindow(ZScore, w, root))
  {
    var m, s, last := SumSeq(w) / |w| as real, Deviation(w, root), w[|w| - 1];
    DeviationMeans(w, root);
    if s == 0.0 {
      SquareSign(s);
      SquaresNonNegative(w, m);
    }
    ScoreOf(last, m, s, OfWindow(ZScore, w, root));
  }

  lemma DecayMeans(w: seq<real>, root: real -> real)
    requires w != []
    ensures WindowMeans(DecayLinear, w, OfWindow(DecayLinear, w, root))
  {
    WeightedIsRising(w);
    var n := (|w| * (|w| + 1)) as real;
    assert n > 0.0;
    Divided(WeightedSum(w), n / 2.0);
  }

  lemma MeanMeans(w: seq<real>, root: real -> real)
    requires w != []
    ensures WindowMeans(Mean, w, OfWindow(Mean, w, root))
  {
    SumIsTotal(w);
    Divided(SumSeq(w), |w| as real);
  }

  /** Every window operator answers what it is named for. */
  lemma OfWindowMeans(op: TimeOp, w: seq<real>, root: real -> real)
    requires w != [] && WindowOk(op, |w|) && !op.Delay? && !op.Delta? && SquareRoot(root)
    ensures WindowMeans(op, w, OfWindow(op, w, root))
  {
    match op
    case Sum => SumIsTotal(w);
    case Mean => MeanMeans(w, root);
    case StdDev => DeviationMeans(w, root);
    case ZScore => ScoreMeans(w, root);
    case Rank => WindowRankMeans(w);
    case DecayLinear => DecayMeans(w, root);
    case Maximum => GreatestIs(w);
    case Minimum => LeastIs(w);
  }

  // ------------------------------------------------------------------ one cell of a series

  /** The `d` values of the series up to `i`, oldest first. */
  ghost predicate Recent(s: Series, d: int, i: int, w: seq<real>)
    requires 0 <= i < |s|
  {
    && 1 <= d <= i + 1 && |w| == d
    && forall j :: 0 <= j < d ==> s[i - d + 1 + j] == Some(w[j])
  }

  ghost predicate AllPresent(s: Series, d: int, i: int)
    requires 0 <= i < |s|
  {
    d <= i + 1 && forall j :: i - d < j <= i && 0 <= j ==> s[j].Some?
  }

  /** Cell `i` of a time operator: the value `d` periods ago, the change since then, or the operator on the last `d`
      values, which is there exactly when all of them are. */
  ghost predicate CellMeans(op: TimeOp, s: Series, d: int, i: int, cell: Cell)
    requires 0 <= i < |s|
  {
    match op
    case Delay => d >= 0 && cell == if d <= i then s[i - d] else None
    case Delta =>
      && d >= 0
      && (cell.Some? <==> d <= i && s[i].Some? && s[i - d].Some?)
      && (cell.Some? ==> s[i - d].value + cell.value == s[i].value)
    case _ =>
      && (cell.Some? <==> AllPresent(s, d, i))
      && (cell.Some? ==> exists w :: Recent(s, d, i, w) && WindowMeans(op, w, cell.value))
  }

  lemma WindowIsRecent(s: Series, d: int, i: int)
    requires d >= 1 && 0 <= i < |s|
    ensures Window(s, d, i).Some? <==> AllPresent(s, d, i)
    ensures Window(s, d, i).Some? ==> Recent(s, d, i, Window(s, d, i).value)
  {
  }

  lemma TimeCellMeans(op: TimeOp, s: Series, d: int, i: int, root: real -> real)
    requires WindowOk(op, d) && 0 <= i < |s| && SquareRoot(root)
    ensures CellMeans(op, s, d, i, TimeCell(op, s, d, i, root))
  {
    if !op.Delay? && !op.Delta? {
      WindowIsRecent(s, d, i);
      var w := Window(s, d, i);
      if w.Some? { OfWindowMeans(op, w.value, root); }
    }
  }

  // ------------------------------------------------------------------ one period

  /** The values a panel holds at a period. */
  ghost function RowAt(q: Panel, i: nat): Column {
    map k | k in q && i < |q[k]| && q[k][i].Some? :: q[k][i].value
  }

  /** What a cross-section operator makes of a period's values. */
  ghost predicate CrossMeans(op: CrossOp, v: Column, r: Column) {
    && r.Keys == v.Keys
    && (v != map[] ==>
          match op
          case CrossRank => IsRanking(v.Keys, v, r)
          case CrossZScore => exists m, s :: Moments(v, m, s) && Standardized(v, m, s, r)
          case CrossScale => RescaledTo(v, 1.0, r)
          case Winsorize => exists m, s :: Moments(v, m, s) && Winsorized(v, m, s, r))
  }

  /** What a group operator makes of them, given each name's label. */
  ghost predicate GroupMeans(op: GroupOp, v: Column, groups: map<string, string>, r: Column) {
    && r.Keys == v.Keys
    && match op
       case GroupRank => forall k :: k in v ==> IsRanking(GroupNames(v, groups, k), v, r)
       case GroupNeutralize => Neutralized(v, groups, r)
  }

  /** The column is the panel's values at the period, for just the names that are members then. */
  ghost predicate Seen(r: Resolver, p: Panel, i: nat, v: Column) {
    forall k ::
      && (k in v <==> k in p && i < |p[k]| && p[k][i].Some? &&
                      (r.members.Some? ==> i < |r.members.value| && k in r.members.value[i]))
      && (k in v ==> p[k][i] == Some(v[k]))
  }

  /** The labels are those of the group field at the period: fixed ones, or just the members' then. */
  ghost predicate LabelsSeen(r: Resolver, p: Panel, g: Groups, i: nat, labels: map<string, string>) {
    match g
    case Static(fixed) => labels == fixed
    case Timed(history) =>
      forall k ::
        && (k in labels <==> k in history && i < |history[k]| && history[k][i].Some? &&
                             (if r.members.Some? then i < |r.members.value| && k in r.members.value[i] else k in p))
        && (k in labels ==> history[k][i] == Some(labels[k]))
  }

  lemma LabelsAreSeen(r: Resolver, p: Panel, g: Groups, i: nat)
    ensures LabelsSeen(r, p, g, i, LabelsAt(r, p, g, i))
  {
  }

  lemma ColumnIsSeen(r: Resolver, p: Panel, i: nat)
    ensures Seen(r, p, i, ColumnAt(r, p, i))
  {
  }

  lemma CrossApplyMeans(op: CrossOp, v: Column, root: real -> real)
    requires op.CrossRank? || op.CrossScale? || SquareRoot(root)
    ensures CrossMeans(op, v, CrossApply(op, v, root))
  {
    if v != map[] {
      assert v.Keys != {} by { var k :| k in v; }
      match op
      case CrossRank => RankMeans(v);
      case CrossZScore => var m, s := ZScoreMeans(v, root);
      case CrossScale => ScaleMeaning(v, 1.0);
      case Winsorize => var m, s := WinsorizeMeans(v, root);
    }
  }

  lemma GroupApplyMeans(op: GroupOp, v: Column, groups: map<string, string>)
    ensures GroupMeans(op, v, groups, GroupApply(op, v, groups))
  {
    match op
    case GroupRank => forall k | k in v ensures IsRanking(GroupNames(v, groups, k), v, GroupRankColumn(v, groups)) {
        GroupRankMeans(v, groups, k);
      }
    case GroupNeutralize => NeutralizeMeans(v, groups);
  }

  lemma CrossRow(op: CrossOp, r: Resolver, p: Panel, root: real -> real, i: nat)
    ensures RowAt(CrossPanel(op, r, p, root), i) == CrossApply(op, ColumnAt(r, p, i), root)
  {
  }

  lemma GroupRow(op: GroupOp, r: Resolver, p: Panel, g: Groups, i: nat)
    ensures RowAt(GroupPanel(op, r, p, g), i) == GroupApply(op, ColumnAt(r, p, i), LabelsAt(r, p, g, i))
  {
  }

  // ------------------------------------------------------------------ an evaluated call

  ghost predicate SameShape(q: Panel, p: Panel) {
    q.Keys == p.Keys && forall k :: k in p ==> |q[k]| == |p[k]|
  }

  /** A window no operator refuses: not negative for delays and changes, two for deviations and scores, whole and positive
      for the decay, and positive for the others once there is anything to look at. */
  ghost predicate Askable(op: TimeOp, d: real, length: nat) {
    match op
    case Delay => d >= 0.0
    case Delta => d >= 0.0
    case StdDev => d >= 2.0
    case ZScore => d >= 2.0
    case DecayLinear => d >= 1.0 && Integral(d)
    case _ => length > 0 ==> d > 0.0
  }

  ghost predicate TimeCallMeans(op: TimeOp, p: Panel, d: real, q: Panel) {
    && SameShape(q, p)
    && (forall k :: k in p ==> Askable(op, d, |p[k]|))
    && forall k, i :: k in p && 0 <= i < |p[k]| ==>
         if Admissible(op, d) then CellMeans(op, p[k], d.Floor, i, q[k][i]) else q[k][i].None?
  }

  ghost predicate CrossCallMeans(op: CrossOp, r: Resolver, p: Panel, q: Panel) {
    SameShape(q, p) && forall i: nat :: CrossRowMeans(op, r, p, q, i)
  }

  ghost predicate CrossRowMeans(op: CrossOp, r: Resolver, p: Panel, q: Panel, i: nat) {
    exists v :: Seen(r, p, i, v) && CrossMeans(op, v, RowAt(q, i))
  }

  ghost predicate GroupCallMeans(op: GroupOp, r: Resolver, p: Panel, g: Groups, q: Panel) {
    SameShape(q, p) && forall i: nat :: GroupRowMeans(op, r, p, g, q, i)
  }

  ghost predicate GroupRowMeans(op: GroupOp, r: Resolver, p: Panel, g: Groups, q: Panel, i: nat) {
    exists v, labels :: Seen(r, p, i, v) && LabelsSeen(r, p, g, i, labels) && GroupMeans(op, v, labels, RowAt(q, i))
  }

  ghost predicate SignCallMeans(p: Panel, q: Panel) {
    && SameShape(q, p)
    && forall k, i :: k in p && 0 <= i < |p[k]| ==>
         && (q[k][i].Some? <==> p[k][i].Some?)
         && (p[k][i].Some? && p[k][i].value > 0.0 ==> q[k][i].value == 1.0)
         && (p[k][i].Some? && p[k][i].value < 0.0 ==> q[k][i].value == -1.0)
         && (p[k][i].Some? && p[k][i].value == 0.0 ==> q[k][i].value == 0.0)
  }

  /** The panel `q` is what the operator's name promises of its arguments' values. */
  ghost predicate CallMeans(op: Operator, args: seq<Value>, r: Resolver, q: Panel) {
    match op
    case Time(t) =>
      |args| == 2 && args[0].PanelValue? && Number(args[1]).Some? && TimeCallMeans(t, args[0].panel, Number(args[1]).value, q)
    case Cross(c) => |args| == 1 && args[0].PanelValue? && CrossCallMeans(c, r, args[0].panel, q)
    case Grouped(g) =>
      |args| == 2 && args[0].PanelValue? && args[1].GroupValue? && GroupCallMeans(g, r, args[0].panel, args[1].labels, q)
    case Sign => |args| == 1 && args[0].PanelValue? && SignCallMeans(args[0].panel, q)
    case NotRegistered(_) => false
  }

  lemma TimePanelMeans(op: TimeOp, p: Panel, d: real, root: real -> real)
    requires PanelAnswers(op, p, d) && SquareRoot(root)
    ensures TimeCallMeans(op, p, d, TimePanel(op, p, d, root))
  {
    var q := TimePanel(op, p, d, root);
    forall k, i | k in p && 0 <= i < |p[k]|
      ensures if Admissible(op, d) then CellMeans(op, p[k], d.Floor, i, q[k][i]) else q[k][i].None?
    {
      if Admissible(op, d) { TimeCellMeans(op, p[k], d.Floor, i, root); }
    }
  }

  lemma CrossPanelMeans(op: CrossOp, r: Resolver, p: Panel, root: real -> real)
    requires op.CrossRank? || op.CrossScale? || SquareRoot(root)
    ensures CrossCallMeans(op, r, p, CrossPanel(op, r, p, root))
  {
    forall i: nat ensures CrossRowMeans(op, r, p, CrossPanel(op, r, p, root), i) {
      CrossRow(op, r, p, root, i);
      CrossApplyMeans(op, ColumnAt(r, p, i), root);
      ColumnIsSeen(r, p, i);
    }
  }

  lemma GroupPanelMeans(op: GroupOp, r: Resolver, p: Panel, g: Groups)
    ensures GroupCallMeans(op, r, p, g, GroupPanel(op, r, p, g))
  {
    forall i: nat ensures GroupRowMeans(op, r, p, g, GroupPanel(op, r, p, g), i) {
      GroupRow(op, r, p, g, i);
      GroupApplyMeans(op, ColumnAt(r, p, i), LabelsAt(r, p, g, i));
      ColumnIsSeen(r, p, i);
      LabelsAreSeen(r, p, g, i);
    }
  }

  lemma ApplyMeans(op: Operator, args: seq<Value>, r: Resolver, root: real -> real)
    requires Apply(op, args, r, root).Some? && SquareRoot(root)
    ensures Apply(op, args, r, root).value.PanelValue? && CallMeans(op, args, r, Apply(op, args, r, root).value.panel)
  {
    match op
    case Time(t) => TimePanelMeans(t, args[0].panel, Number(args[1]).value, root);
    case Cross(c) => CrossPanelMeans(c, r, args[0].panel, root);
    case Grouped(g) => GroupPanelMeans(g, r, args[0].panel, args[1].labels);
    case Sign =>
  }

  /** The values of a call's arguments. */
  ghost predicate ArgumentsAre(e: Expr, r: Resolver, root: real -> real, args: seq<Value>)
    requires e.Call?
  {
    |args| == |e.args| && forall i :: 0 <= i < |args| ==> Evaluate(e.args[i], r, root) == Some(args[i])
  }

  /** Every call anywhere in an expression that evaluates gives the panel its operator's name promises, of the values
      its arguments evaluate to. */
  lemma EvaluatedCallMeans(e: Expr, r: Resolver, root: real -> real) returns (args: seq<Value>)
    requires e.Call? && Evaluate(e, r, root).Some? && SquareRoot(root)
    ensures ArgumentsAre(e, r, root, args)
    ensures Evaluate(e, r, root).value.PanelValue?
    ensures CallMeans(e.op, args, r, Evaluate(e, r, root).value.panel)
  {
    args := seq(|e.args|, i requires 0 <= i < |e.args| => Evaluate(e.args[i], r, root).value);
    ApplyMeans(e.op, args, r, root);
  }
}
