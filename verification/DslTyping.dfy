/** Type soundness of the Fast Expression language, its warm-up bound, and its cross-section loop. */
module DslTyping {
  import opened Common
  import opened Operators
  import opened Dsl
  import opened OperatorMeaning

  // ----------------------------------------------------------------- type soundness

  predicate HasType(v: Value, t: ValueType) {
    match v
    case IntValue(_) => t.IntegerType?
    case NumValue(_) => t.ScalarType?
    case PanelValue(_) => t.PanelType?
    case GroupValue(_) => t.GroupType?
  }

  /** Every leaf is read the way the validator typed it: names and data-field nodes are data fields,
      and group-field nodes are group fields that no data field shadows. */
  predicate LeavesAgree(e: Expr, data: set<string>, groups: set<string>) {
    match e
    case Literal(_) => true
    case Name(name) => name in data
    case DataField(name) => name in data
    case GroupField(name) => name in groups && name !in data
    case Call(_, args) => forall i :: 0 <= i < |args| ==> LeavesAgree(args[i], data, groups)
  }

  /** The resolver serves exactly the declared fields. */
  predicate Serves(r: Resolver, data: set<string>, groups: set<string>) {
    r.fields.Keys == data && r.groups.Keys == groups
  }

  ghost predicate Sound(e: Expr, r: Resolver, root: real -> real, t: ValueType) {
    Evaluate(e, r, root).Some? && HasType(Evaluate(e, r, root).value, t)
  }

  /** An operator accepts only arguments of its signature, but for a fractional window it never has to use. */
  lemma ApplyNeedsTypes(op: Operator, args: seq<Value>, r: Resolver, root: real -> real)
    requires Apply(op, args, r, root).Some?
    ensures |args| == |Signature(op)| && HasType(args[0], PanelType)
    ensures op.Grouped? ==> HasType(args[1], GroupType)
    ensures op.Time? ==> Number(args[1]).Some?
    ensures Apply(op, args, r, root).value.PanelValue?
  {
  }

  /** And on rectangular arguments of its signature, with an admissible window, it does not raise. */
  lemma ApplyAcceptsTypes(op: Operator, args: seq<Value>, r: Resolver, root: real -> real, length: nat)
    requires Rectangular(r, length) && !op.NotRegistered? && |args| == |Signature(op)|
    requires forall i :: 0 <= i < |args| ==> HasType(args[i], Signature(op)[i]) && ValueLength(args[i], length)
    requires op.Time? ==> args[1].IntValue? && WindowOk(op.time, args[1].i)
    ensures Apply(op, args, r, root).Some?
  {
    assert HasType(args[0], PanelType) && ValueLength(args[0], length);
    if op.Grouped? { assert HasType(args[1], GroupType) && ValueLength(args[1], length); }
    if op.Time? {
      forall k | k in args[0].panel ensures Answers(op.time, args[1].i as real, |args[0].panel[k]|) {
        AdmissibleAnswers(op.time, args[1].i as real, |args[0].panel[k]|);
      }
    }
  }

  ghost function Arguments(e: Expr, r: Resolver, root: real -> real): seq<Value>
    requires e.Call? && forall i :: 0 <= i < |e.args| ==> Evaluate(e.args[i], r, root).Some?
  {
    seq(|e.args|, i requires 0 <= i < |e.args| => Evaluate(e.args[i], r, root).value)
  }

  /** A validated expression whose leaves agree with the validator's reading of them evaluates to a value of its type,
      without any operator's error; and where no name is both a data and a group field, only then. */
  lemma {:induction false} SoundIffLeavesAgree(e: Expr, r: Resolver, root: real -> real, data: set<string>,
                                              groups: set<string>, length: nat)
    requires Rectangular(r, length) && Serves(r, data, groups) && Validate(e, data, groups).Some?
    ensures LeavesAgree(e, data, groups) ==> Sound(e, r, root, Validate(e, data, groups).value)
    ensures data !! groups ==> (Sound(e, r, root, Validate(e, data, groups).value) <==> LeavesAgree(e, data, groups))
    decreases e
  {
    if e.Call? {
      forall i | 0 <= i < |e.args|
        ensures LeavesAgree(e.args[i], data, groups) ==> Sound(e.args[i], r, root, Signature(e.op)[i])
        ensures data !! groups ==> (Sound(e.args[i], r, root, Signature(e.op)[i]) <==> LeavesAgree(e.args[i], data, groups))
      {
        SoundIffLeavesAgree(e.args[i], r, root, data, groups, length);
      }
      if LeavesAgree(e, data, groups) {
        CallIsSound(e, r, root, data, groups, length);
      } else if Sound(e, r, root, PanelType) && data !! groups {
        SoundCallNeedsLeaves(e, r, root, data, groups);
      }
    }
  }

  lemma SoundCallNeedsLeaves(e: Expr, r: Resolver, root: real -> real, data: set<string>, groups: set<string>)
    requires e.Call? && Validate(e, data, groups).Some? && Sound(e, r, root, PanelType)
    requires forall i :: 0 <= i < |e.args| ==> Sound(e.args[i], r, root, Signature(e.op)[i]) ==> LeavesAgree(e.args[i], data, groups)
    ensures LeavesAgree(e, data, groups)
  {
    var args := Arguments(e, r, root);
    ApplyNeedsTypes(e.op, args, r, root);
    forall i | 0 <= i < |e.args| ensures LeavesAgree(e.args[i], data, groups) {
      if !(e.op.Time? && i == 1) { assert HasType(args[i], Signature(e.op)[i]); }
    }
  }

  lemma CallIsSound(e: Expr, r: Resolver, root: real -> real, data: set<string>, groups: set<string>, length: nat)
    requires e.Call? && Rectangular(r, length) && Validate(e, data, groups).Some?
    requires forall i :: 0 <= i < |e.args| ==> Sound(e.args[i], r, root, Signature(e.op)[i])
    ensures Sound(e, r, root, PanelType)
  {
    var args := Arguments(e, r, root);
    forall i | 0 <= i < |args| ensures HasType(args[i], Signature(e.op)[i]) && ValueLength(args[i], length) {
      assert Sound(e.args[i], r, root, Signature(e.op)[i]);
      EvaluateKeepsLength(e.args[i], r, root, length);
    }
    if e.op.Time? {
      assert HasType(args[1], IntegerType) && args[1] == IntValue(e.args[1].value.Floor);
    }
    ApplyAcceptsTypes(e.op, args, r, root, length);
    ApplyNeedsTypes(e.op, args, r, root);
  }

  /** What the parser returns: bare names, no resolved field nodes. */
  predicate Parsed(e: Expr) {
    match e
    case Literal(_) => true
    case Name(_) => true
    case Call(_, args) => forall i :: 0 <= i < |args| ==> Parsed(args[i])
    case _ => false
  }

  /** Resolving a parsed tree makes the leaves agree and keeps the type. */
  lemma {:induction false} ResolveAgrees(e: Expr, data: set<string>, groups: set<string>)
    requires Parsed(e) && Resolve(e, data, groups).Some?
    ensures LeavesAgree(Resolve(e, data, groups).value, data, groups)
    ensures Validate(Resolve(e, data, groups).value, data, groups) == Validate(e, data, groups)
    decreases e
  {
    if e.Call? {
      var x := Resolve(e, data, groups).value;
      forall i | 0 <= i < |e.args|
        ensures LeavesAgree(x.args[i], data, groups) && Validate(x.args[i], data, groups) == Validate(e.args[i], data, groups)
      {
        ResolveAgrees(e.args[i], data, groups);
      }
      assert WindowAllowed(e.op, x.args) == WindowAllowed(e.op, e.args) by { LiteralsStay(e, data, groups); }
    }
  }

  lemma LiteralsStay(e: Expr, data: set<string>, groups: set<string>)
    requires Parsed(e) && e.Call? && Resolve(e, data, groups).Some?
    ensures forall i :: 0 <= i < |e.args| ==>
              (Resolve(e, data, groups).value.args[i].Literal? <==> e.args[i].Literal?) &&
              (e.args[i].Literal? ==> Resolve(e, data, groups).value.args[i] == e.args[i])
  {
  }

  /** `compile_expression` followed by `evaluate`: every accepted expression yields a panel on every
      rectangular resolver, with no operator error. */
  lemma {:induction false} CompiledEvaluates(e: Expr, r: Resolver, root: real -> real, data: set<string>, groups: set<string>, length: nat)
    requires Parsed(e) && Rectangular(r, length) && Serves(r, data, groups)
    requires Resolve(e, data, groups).Some? && Validate(Resolve(e, data, groups).value, data, groups) == Some(PanelType)
    ensures var v := Evaluate(Resolve(e, data, groups).value, r, root);
            v.Some? && v.value.PanelValue? && PanelLength(v.value.panel, length)
  {
    var x := Resolve(e, data, groups).value;
    ResolveAgrees(e, data, groups);
    SoundIffLeavesAgree(x, r, root, data, groups, length);
    EvaluateKeepsLength(x, r, root, length);
  }

  /** No look-ahead for accepted expressions: on the full history and on every shorter one they evaluate, and the shorter
      result is the longer one cut. */
  lemma {:induction false} AcceptedNeverLooksAhead(e: Expr, r: Resolver, root: real -> real, data: set<string>,
                                                  groups: set<string>, n: nat, length: nat)
    requires Rectangular(r, length) && Serves(r, data, groups) && n <= length
    requires Validate(e, data, groups).Some? && LeavesAgree(e, data, groups)
    ensures Evaluate(e, r, root).Some? && Evaluate(e, TakeResolver(r, n), root).Some?
    ensures Evaluate(e, TakeResolver(r, n), root).value == TakeValue(Evaluate(e, r, root).value, n)
  {
    SoundIffLeavesAgree(e, r, root, data, groups, length);
    NoLookAhead(e, r, root, n, length);
  }

  /** Whatever the parser returns and the compiler accepts, two histories that agree on their first `n` periods give panels
      that agree on them. */
  lemma {:induction false} CompiledPastDecidesPast(e: Expr, r: Resolver, q: Resolver, root: real -> real, data: set<string>,
                                                  groups: set<string>, n: nat, length: nat, other: nat)
    requires Parsed(e) && Rectangular(r, length) && Rectangular(q, other) && Serves(r, data, groups) && Serves(q, data, groups)
    requires n <= length && n <= other && TakeResolver(r, n) == TakeResolver(q, n)
    requires Resolve(e, data, groups).Some? && Validate(Resolve(e, data, groups).value, data, groups) == Some(PanelType)
    ensures var x := Resolve(e, data, groups).value;
            && Evaluate(x, r, root).Some? && Evaluate(x, q, root).Some?
            && TakeValue(Evaluate(x, r, root).value, n) == TakeValue(Evaluate(x, q, root).value, n)
  {
    var x := Resolve(e, data, groups).value;
    ResolveAgrees(e, data, groups);
    AcceptedNeverLooksAhead(x, r, root, data, groups, n, length);
    AcceptedNeverLooksAhead(x, q, root, data, groups, n, other);
  }

  /** Failure, unlike values, can depend on later periods: an unaccepted fractional window is not noticed on a history too
      short to use it. */
  lemma {:induction false} ShortHistoryHidesFailure(root: real -> real)
    ensures var e := Call(Time(Sum), [DataField("x"), Literal(2.5)]);
            exists r: Resolver ::
              && Rectangular(r, 3) && Evaluate(e, r, root).None?
              && Evaluate(e, TakeResolver(r, 1), root).Some?
  {
    var e := Call(Time(Sum), [DataField("x"), Literal(2.5)]);
    var p: Panel := map["k" := [Some(1.0), Some(2.0), Some(3.0)]];
    var r := Resolver(map["x" := p], map[], None);
    assert Rectangular(r, 3) by { assert PanelLength(p, 3); }
    assert "k" in p && "k" in TakePanel(p, 1);
    OddWindow(p, 3);
    OddWindow(TakePanel(p, 1), 1);
    assert TakeResolver(r, 1).fields["x"] == TakePanel(p, 1);
    FieldWindow(e, r, p, 2.5, root);
    FieldWindow(e, TakeResolver(r, 1), TakePanel(p, 1), 2.5, root);
  }

  /** A window of two and a half is noticed from the third period on. */
  lemma OddWindow(p: Panel, length: nat)
    requires PanelLength(p, length) && p != map[]
    ensures !Integral(2.5) && EqualLengths(p) && (PanelAnswers(Sum, p, 2.5) <==> length < 3)
  {
    assert 2.5.Floor == 2;
    var k :| k in p;
    assert Answers(Sum, 2.5, |p[k]|) <==> length < 3;
  }

  lemma FieldWindow(e: Expr, r: Resolver, p: Panel, d: real, root: real -> real)
    requires e == Call(Time(Sum), [DataField("x"), Literal(d)]) && !Integral(d)
    requires "x" in r.fields && r.fields["x"] == p && EqualLengths(p)
    ensures Evaluate(e, r, root).Some? <==> PanelAnswers(Sum, p, d)
  {
    assert Evaluate(e.args[0], r, root) == Some(PanelValue(p)) && Evaluate(e.args[1], r, root) == Some(NumValue(d));
    var args := Arguments(e, r, root);
    assert args == [PanelValue(p), NumValue(d)];
    assert Evaluate(e, r, root) == ApplyTime(Sum, args, root);
  }

  /** Validation alone is not enough: a hand-built tree whose group-field node carries a data field's
      name is accepted as a panel and yet does not evaluate to one. */
  lemma ValidatedButUnsound(root: real -> real)
    ensures exists e: Expr, r: Resolver ::
              Rectangular(r, 0) && Serves(r, {"close"}, {}) && Validate(e, {"close"}, {}) == Some(PanelType) &&
              !Sound(e, r, root, PanelType)
  {
    var e, r := GroupField("close"), Resolver(map["close" := map[]], map[], None);
    assert Rectangular(r, 0) && Serves(r, {"close"}, {}) && Validate(e, {"close"}, {}) == Some(PanelType);
    assert Evaluate(e, r, root).None?;
  }

  // --------------------------------------------------------------------- warm-up

  /** The additive bound: `d` for delay and delta, `d - 1` for window operators, nothing otherwise. */
  function WarmUp(e: Expr): int {
    match e
    case Call(Time(t), args) =>
      if |args| == 2 && args[1].Literal? then WarmUp(args[0]) + Lag(t, args[1].value.Floor) else 0
    case Call(_, args) => if |args| >= 1 then WarmUp(args[0]) else 0
    case _ => 0
  }

  /** Some instrument has a period at all. */
  ghost predicate Periods(p: Panel) { exists k :: k in p && p[k] != [] }

  ghost predicate EmptyBelow(p: Panel, w: int) {
    forall k, i :: k in p && 0 <= i < |p[k]| && i < w ==> p[k][i].None?
  }

  lemma TimeWarmsUp(t: TimeOp, p: Panel, d: real, w: int, root: real -> real)
    requires PanelAnswers(t, p, d) && (Periods(p) ==> w >= 0) && EmptyBelow(p, w)
    ensures EmptyBelow(TimePanel(t, p, d, root), w + Lag(t, d.Floor))
    ensures Periods(p) ==> w + Lag(t, d.Floor) >= 0
  {
    forall k, i | k in p && 0 <= i < |p[k]| && i < w + Lag(t, d.Floor) ensures TimePanel(t, p, d, root)[k][i].None? {
      if Admissible(t, d) { WarmUpAdds(t, p[k], d.Floor, w, i, root); }
    }
    if Periods(p) {
      var k :| k in p && p[k] != [];
      assert Answers(t, d, |p[k]|);
    }
  }

  lemma CrossWarmsUp(op: Operator, args: seq<Value>, r: Resolver, root: real -> real, w: int)
    requires !op.Time? && Apply(op, args, r, root).Some? && args[0].PanelValue? && EmptyBelow(args[0].panel, w)
    ensures EmptyBelow(Apply(op, args, r, root).value.panel, w)
    ensures Periods(Apply(op, args, r, root).value.panel) ==> Periods(args[0].panel)
  {
    var p := args[0].panel;
    forall k, i | k in p && 0 <= i < |p[k]| && i < w ensures k !in ColumnAt(r, p, i) { assert p[k][i].None?; }
  }

  /** Every evaluated panel is empty below the bound, whatever data the fields hold, and has exactly
      the instruments of the one field it is built on. */
  lemma {:induction false} WarmUpHolds(e: Expr, r: Resolver, root: real -> real)
    requires Evaluate(e, r, root).Some? && Evaluate(e, r, root).value.PanelValue?
    ensures EmptyBelow(Evaluate(e, r, root).value.panel, WarmUp(e))
    ensures Periods(Evaluate(e, r, root).value.panel) ==> WarmUp(e) >= 0
    ensures exists name :: name in r.fields && Evaluate(e, r, root).value.panel.Keys == r.fields[name].Keys
    decreases e
  {
    if e.Call? {
      var args := Arguments(e, r, root);
      ApplyNeedsTypes(e.op, args, r, root);
      assert HasType(args[0], Signature(e.op)[0]);
      WarmUpHolds(e.args[0], r, root);
      assert Evaluate(e, r, root) == Apply(e.op, args, r, root);
      if e.op.Time? {
        OnlyLiteralsAreNumbers(e.args[1], r, root);
        TimeWarmsUp(e.op.time, args[0].panel, Number(args[1]).value, WarmUp(e.args[0]), root);
      } else {
        CrossWarmsUp(e.op, args, r, root, WarmUp(e.args[0]));
      }
    } else {
      assert e.name in r.fields;
    }
  }

  lemma OnlyLiteralsAreNumbers(e: Expr, r: Resolver, root: real -> real)
    requires Evaluate(e, r, root).Some? && Number(Evaluate(e, r, root).value).Some?
    ensures e.Literal? && Number(Evaluate(e, r, root).value) == Some(e.value)
  {
    if e.Call? { ApplyNeedsTypes(e.op, Arguments(e, r, root), r, root); }
  }

  // ------------------------------------------------------------ the loop in place

  /** The panel the in-place loops are meant to fill, for a function of each period's column. */
  function Columnwise(p: Panel, r: Resolver, f: (nat, Column) -> Column): Panel {
    map k | k in p :: seq(|p[k]|, i requires 0 <= i => CellOf(f(i, ColumnAt(r, p, i)), k))
  }

  /** With a cross-section operator it is the panel the evaluator gives. */
  lemma ColumnwiseIsCross(op: CrossOp, p: Panel, r: Resolver, root: real -> real, f: (nat, Column) -> Column)
    requires forall i, v :: f(i, v) == CrossApply(op, v, root)
    ensures Columnwise(p, r, f) == CrossPanel(op, r, p, root)
  {
    forall k | k in p ensures Columnwise(p, r, f)[k] == CrossPanel(op, r, p, root)[k] {}
  }

  /** With a group operator on each period's labels, likewise. */
  lemma ColumnwiseIsGroup(op: GroupOp, p: Panel, g: Groups, r: Resolver, f: (nat, Column) -> Column)
    requires forall i, v :: f(i, v) == GroupApply(op, v, LabelsAt(r, p, g, i))
    ensures Columnwise(p, r, f) == GroupPanel(op, r, p, g)
  {
    forall k | k in p ensures Columnwise(p, r, f)[k] == GroupPanel(op, r, p, g)[k] {}
  }

  /** The loops of `_cross_section` and of the group branch: result lists start empty and are filled in place, column by
      column. */
  method CrossSection(p: Panel, r: Resolver, f: (nat, Column) -> Column, length: nat) returns (result: Panel)
    requires PanelLength(p, length) && forall i, v :: f(i, v).Keys <= v.Keys
    ensures result == Columnwise(p, r, f)
  {
    result := map k | k in p :: seq(length, _ => None);
    for index := 0 to length
      invariant result.Keys == p.Keys && PanelLength(result, length)
      invariant forall k, i :: k in p && 0 <= i < index ==> result[k][i] == CellOf(f(i, ColumnAt(r, p, i)), k)
      invariant forall k, i :: k in p && index <= i < length ==> result[k][i].None?
    {
      var transformed := f(index, ColumnAt(r, p, index));
      result := FillColumn(result, transformed, index, length);
    }
    forall k | k in p ensures result[k] == Columnwise(p, r, f)[k] {}
  }

  /** `rank` over a panel, by the loop. */
  method RankPanel(p: Panel, r: Resolver, root: real -> real, length: nat) returns (result: Panel)
    requires PanelLength(p, length)
    ensures result == CrossPanel(CrossRank, r, p, root) && CrossCallMeans(CrossRank, r, p, result)
  {
    var f := (i: nat, v: Column) => RankColumn(v);
    forall i, v ensures f(i, v) == CrossApply(CrossRank, v, root) {}
    result := CrossSection(p, r, f, length);
    ColumnwiseIsCross(CrossRank, p, r, root, f);
    CrossPanelMeans(CrossRank, r, p, root);
  }

  /** `group_rank` over a panel, by the loop, with the labels of each period. */
  method GroupRankPanel(p: Panel, g: Groups, r: Resolver, length: nat) returns (result: Panel)
    requires PanelLength(p, length)
    ensures result == GroupPanel(GroupRank, r, p, g) && GroupCallMeans(GroupRank, r, p, g, result)
  {
    var f := (i: nat, v: Column) => GroupRankColumn(v, LabelsAt(r, p, g, i));
    result := CrossSection(p, r, f, length);
    ColumnwiseIsGroup(GroupRank, p, g, r, f);
    GroupPanelMeans(GroupRank, r, p, g);
  }

  /** One column's values are stored at its index, name by name. */
  method FillColumn(before: Panel, transformed: Column, index: nat, length: nat) returns (result: Panel)
    requires PanelLength(before, length) && index < length && transformed.Keys <= before.Keys
    ensures result.Keys == before.Keys && PanelLength(result, length)
    ensures forall k, i :: k in before && 0 <= i < length ==>
              result[k][i] == if i == index && k in transformed then Some(transformed[k]) else before[k][i]
  {
    result := before;
    var todo := transformed.Keys;
    while todo != {}
      invariant todo <= transformed.Keys && result.Keys == before.Keys && PanelLength(result, length)
      invariant forall k, i :: k in before && 0 <= i < length ==>
                  result[k][i] == if i == index && k in transformed && k !in todo then Some(transformed[k]) else before[k][i]
      decreases todo
    {
      var key :| key in todo;
      result := result[key := result[key][index := Some(transformed[key])]];
      todo := todo - {key};
    }
  }
}
