/** The loops of the time-series operators, each accumulator written out, proved against the operator functions. */
module TimeLoops {
  import opened Common
  import opened Operators

  /** `_window` on an admitted size: the slice ending at `i`, unless it starts too early or misses a value. */
  method ReadWindow(s: Series, d: int, i: int) returns (w: Option<seq<real>>)
    requires d >= 1 && 0 <= i < |s|
    ensures w == Window(s, d, i)
  {
    var start := i - d + 1;
    if start < 0 { return None; }
    var values: seq<real> := [];
    for j := start to i + 1
      invariant |values| == j - start
      invariant forall k :: start <= k < j ==> s[k].Some? && values[k - start] == s[k].value
    {
      if s[j].None? { return None; }
      values := values + [s[j].value];
    }
    assert Window(s, d, i).Some?;
    assert values == Window(s, d, i).value;
    w := Some(values);
  }

  method Total(w: seq<real>) returns (total: real)
    ensures total == SumSeq(w)
  {
    total := 0.0;
    for j := 0 to |w|
      invariant total == SumSeq(w[..j])
    {
      assert w[..j + 1][..j] == w[..j];
      total := total + w[j];
    }
    assert w[..|w|] == w;
  }

  method SquaredDistances(w: seq<real>, mean: real) returns (total: real)
    ensures total == SumSquares(w, mean)
  {
    total := 0.0;
    for j := 0 to |w|
      invariant total == SumSquares(w[..j], mean)
    {
      assert w[..j + 1][..j] == w[..j];
      var distance := w[j] - mean;
      total := total + distance * distance;
    }
    assert w[..|w|] == w;
  }

  /** The two counts behind a rank: values below the last one, and values equal to it. */
  method Counts(w: seq<real>, x: real) returns (less: nat, equal: nat)
    ensures less == CountBelow(w, x) && equal == CountSame(w, x)
  {
    less, equal := 0, 0;
    for j := 0 to |w|
      invariant less == CountBelow(w[..j], x) && equal == CountSame(w[..j], x)
    {
      assert w[..j + 1][..j] == w[..j];
      if w[j] < x { less := less + 1; }
      if w[j] == x { equal := equal + 1; }
    }
    assert w[..|w|] == w;
  }

  /** Weights 1 to d against the window, oldest first. */
  method Weighted(w: seq<real>) returns (total: real)
    ensures total == WeightedSum(w)
  {
    total := 0.0;
    for j := 0 to |w|
      invariant total == WeightedSum(w[..j])
    {
      assert w[..j + 1][..j] == w[..j] && |w[..j + 1]| == j + 1;
      total := total + (j + 1) as real * w[j];
    }
    assert w[..|w|] == w;
  }

  method WeightTotal(d: nat) returns (total: int)
    ensures total == d * (d + 1) / 2 && 2 * total == d * (d + 1)
  {
    total := 0;
    for j := 0 to d
      invariant 2 * total == j * (j + 1)
    {
      total := total + j + 1;
    }
  }

  /** What a finished loop has answered: the operator's series, or nothing where the source raises. */
  ghost predicate Answered(op: TimeOp, s: Series, d: int, root: real -> real, out: Option<Series>) {
    && (out.Some? <==> Answers(op, d as real, |s|))
    && (out.Some? ==> out.value == Answer(op, s, d as real, root))
  }

  /** The cells below `i` are done. */
  ghost predicate Done(op: TimeOp, s: Series, d: int, root: real -> real, out: Series, i: nat) {
    && WindowOk(op, d) && i <= |s| && |out| == i
    && forall j :: 0 <= j < i ==> out[j] == TimeCell(op, s, d, j, root)
  }

  lemma DoneAnswers(op: TimeOp, s: Series, d: int, root: real -> real, out: Series)
    requires Done(op, s, d, root, out, |s|)
    ensures Answered(op, s, d, root, Some(out))
  {
    assert (d as real).Floor == d;
    AdmissibleAnswers(op, d as real, |s|);
    assert out == TimeSeries(op, s, d, root);
  }

  lemma DoneOne(op: TimeOp, s: Series, d: int, root: real -> real, out: Series, i: nat, cell: Cell)
    requires Done(op, s, d, root, out, i) && i < |s| && cell == TimeCell(op, s, d, i, root)
    ensures Done(op, s, d, root, out + [cell], i + 1)
  {
  }

  /** The value of a standard score, once mean and deviation are known. */
  function Score(value: Cell, mean: Cell, std: Cell): Cell {
    if value.None? || mean.None? || std.None? then None
    else if std.value == 0.0 then Some(0.0)
    else Some((value.value - mean.value) / std.value)
  }

  lemma ScoreIsCell(s: Series, d: int, i: nat, root: real -> real)
    requires d >= 2 && i < |s|
    ensures TimeCell(ZScore, s, d, i, root) == Score(s[i], TimeCell(Mean, s, d, i, root), TimeCell(StdDev, s, d, i, root))
  {
    var w := Window(s, d, i);
    if w.Some? { assert w.value[d - 1] == s[i].value; }
  }

  lemma DecayIsCell(s: Series, d: int, i: nat, root: real -> real, denominator: int)
    requires d >= 1 && i < |s| && 2 * denominator == d * (d + 1)
    ensures var w := Window(s, d, i);
            TimeCell(DecayLinear, s, d, i, root) == if w.None? then None else Some(WeightedSum(w.value) / denominator as real)
  {
    assert denominator as real == (d * (d + 1)) as real / 2.0;
  }

  method TsMean(s: Series, d: int, root: real -> real) returns (out: Option<Series>)
    ensures Answered(Mean, s, d, root, out)
  {
    if |s| == 0 { return Some([]); }
    if d <= 0 { return None; }
    var cells: Series := [];
    for i := 0 to |s|
      invariant Done(Mean, s, d, root, cells, i)
    {
      var w := ReadWindow(s, d, i);
      var cell := None;
      if w.Some? {
        var total := Total(w.value);
        cell := Some(total / d as real);
      }
      DoneOne(Mean, s, d, root, cells, i, cell);
      cells := cells + [cell];
    }
    DoneAnswers(Mean, s, d, root, cells);
    out := Some(cells);
  }

  method TsStdDev(s: Series, d: int, root: real -> real) returns (out: Option<Series>)
    ensures Answered(StdDev, s, d, root, out)
  {
    if d < 2 { return None; }
    var cells: Series := [];
    for i := 0 to |s|
      invariant Done(StdDev, s, d, root, cells, i)
    {
      var w := ReadWindow(s, d, i);
      var cell := None;
      if w.Some? {
        var total := Total(w.value);
        var squares := SquaredDistances(w.value, total / d as real);
        cell := Some(root(squares / (d as real - 1.0)));
      }
      DoneOne(StdDev, s, d, root, cells, i, cell);
      cells := cells + [cell];
    }
    DoneAnswers(StdDev, s, d, root, cells);
    out := Some(cells);
  }

  /** Means and deviations first, then one pass that combines them. */
  method TsZScore(s: Series, d: int, root: real -> real) returns (out: Option<Series>)
    ensures Answered(ZScore, s, d, root, out)
  {
    var means := TsMean(s, d, root);
    if means.None? { return None; }
    var stds := TsStdDev(s, d, root);
    if stds.None? { return None; }
    assert (d as real).Floor == d;
    assert means.value == TimeSeries(Mean, s, d, root) && stds.value == TimeSeries(StdDev, s, d, root);
    var cells: Series := [];
    for i := 0 to |s|
      invariant Done(ZScore, s, d, root, cells, i)
    {
      var cell := Score(s[i], means.value[i], stds.value[i]);
      ScoreIsCell(s, d, i, root);
      DoneOne(ZScore, s, d, root, cells, i, cell);
      cells := cells + [cell];
    }
    DoneAnswers(ZScore, s, d, root, cells);
    out := Some(cells);
  }

  /** The percentile of a window's last value, ties averaged. */
  method RankLast(w: seq<real>) returns (rank: real)
    requires w != []
    ensures rank == WindowRank(w)
  {
    var n := |w|;
    if n == 1 { return 0.5; }
    var less, equal := Counts(w, w[n - 1]);
    var averageRank := less as real + (equal as real - 1.0) / 2.0 + 1.0;
    rank := (averageRank - 1.0) / (n as real - 1.0);
  }

  method TsRank(s: Series, d: int, root: real -> real) returns (out: Option<Series>)
    ensures Answered(Rank, s, d, root, out)
  {
    if |s| == 0 { return Some([]); }
    if d <= 0 { return None; }
    var cells: Series := [];
    for i := 0 to |s|
      invariant Done(Rank, s, d, root, cells, i)
    {
      var w := ReadWindow(s, d, i);
      var cell := None;
      if w.Some? {
        var rank := RankLast(w.value);
        cell := Some(rank);
      }
      DoneOne(Rank, s, d, root, cells, i, cell);
      cells := cells + [cell];
    }
    DoneAnswers(Rank, s, d, root, cells);
    out := Some(cells);
  }

  method TsDecayLinear(s: Series, d: int, root: real -> real) returns (out: Option<Series>)
    ensures Answered(DecayLinear, s, d, root, out)
  {
    if d <= 0 { return None; }
    var denominator := WeightTotal(d);
    var cells: Series := [];
    for i := 0 to |s|
      invariant Done(DecayLinear, s, d, root, cells, i)
    {
      var w := ReadWindow(s, d, i);
      var cell := None;
      if w.Some? {
        var total := Weighted(w.value);
        cell := Some(total / denominator as real);
      }
      DecayIsCell(s, d, i, root, denominator);
      DoneOne(DecayLinear, s, d, root, cells, i, cell);
      cells := cells + [cell];
    }
    DoneAnswers(DecayLinear, s, d, root, cells);
    out := Some(cells);
  }

  // ------------------------------------------------------------------- what a rank means

  lemma {:induction false} CountsPartition(w: seq<real>, x: real)
    ensures CountBelow(w, x) + CountSame(w, x) <= |w|
    decreases |w|
  {
    if w != [] { CountsPartition(w[..|w| - 1], x); }
  }

  /** A window rank is a fraction: zero exactly for a unique least value, one exactly for a unique greatest. */
  lemma WindowRankMeaning(w: seq<real>)
    requires |w| >= 2
    ensures var x := w[|w| - 1];
            && 0.0 <= WindowRank(w) <= 1.0
            && (WindowRank(w) == 0.0 <==> CountBelow(w, x) == 0 && CountSame(w, x) == 1)
            && (WindowRank(w) == 1.0 <==> CountBelow(w, x) == |w| - 1)
  {
    var x, n := w[|w| - 1], |w| as real - 1.0;
    CountsPartition(w, x);
    RankFraction(CountBelow(w, x) as real, CountSame(w, x) as real, n);
  }

  lemma RankFraction(less: real, same: real, n: real)
    requires 0.0 <= less && 1.0 <= same && less + same <= n + 1.0 && n > 0.0
    ensures var rank := (less + (same - 1.0) / 2.0) / n;
            && 0.0 <= rank <= 1.0
            && (rank == 0.0 <==> less == 0.0 && same == 1.0)
            && (rank == 1.0 <==> less == n)
  {
    var above := less + (same - 1.0) / 2.0;
    Ratio(above, n);
  }

  lemma Ratio(a: real, n: real)
    requires 0.0 <= a <= n && n > 0.0
    ensures 0.0 <= a / n <= 1.0 && (a / n == 0.0 <==> a == 0.0) && (a / n == 1.0 <==> a == n)
  {
    var q := a / n;
    assert q * n == a;
  }
}
