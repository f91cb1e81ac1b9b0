/**
 The Fast Expression language: typed AST, name resolution, validator and evaluator
 over instrument-by-time panels, from the tree that the parser returns.

 `NoLookAhead` is the language's central promise.
 */
module Dsl {
  import opened Common
  import opened Operators

  const MAX_TIME_WINDOW := 10000.0

  /** The registry entry a call names; names outside the registry stay text. */
  datatype Operator = Cross(cross: CrossOp) | Sign | Time(time: TimeOp) | Grouped(group: GroupOp) | NotRegistered(name: string)

  datatype Expr =
    | Literal(value: real)
    | Name(name: string)
    | DataField(name: string)
    | GroupField(name: string)
    | Call(op: Operator, args: seq<Expr>)

  datatype ValueType = ScalarType | IntegerType | PanelType | GroupType

  /** The argument types the registry gives an operator. */
  function Signature(op: Operator): seq<ValueType> {
    match op
    case Cross(_) => [PanelType]
    case Sign => [PanelType]
    case Time(_) => [PanelType, IntegerType]
    case Grouped(_) => [PanelType, GroupType]
    case NotRegistered(_) => []
  }

  /** The window rules `validate_expression` adds for the time axis. */
  predicate WindowAllowed(op: Operator, args: seq<Expr>) {
    op.Time? ==>
      && |args| == 2 && args[1].Literal?
      && 0.0 < args[1].value <= MAX_TIME_WINDOW
      && (op.time.StdDev? || op.time.ZScore? ==> args[1].value >= 2.0)
  }

  function TypeOfName(name: string, data: set<string>, groups: set<string>): Option<ValueType> {
    if name in data then Some(PanelType) else if name in groups then Some(GroupType) else None
  }

  /** `validate_expression`; `None` is its ExpressionError. */
  function Validate(e: Expr, data: set<string>, groups: set<string>): Option<ValueType> {
    match e
    case Literal(v) => Some(if Integral(v) then IntegerType else ScalarType)
    case Name(name) => TypeOfName(name, data, groups)
    case DataField(name) => TypeOfName(name, data, groups)
    case GroupField(name) => TypeOfName(name, data, groups)
    case Call(op, args) =>
      if !op.NotRegistered? && |args| == |Signature(op)|
         && (forall i :: 0 <= i < |args| ==> Validate(args[i], data, groups) == Some(Signature(op)[i]))
         && WindowAllowed(op, args)
      then Some(PanelType) else None
  }

  /** Which calls are accepted, operator by operator: one panel; a panel and a written window of 1 to 10000 whole periods,
      at least 2 for a deviation or a standard score; or a panel and a group field. */
  ghost predicate CallAccepted(op: Operator, args: seq<Expr>, data: set<string>, groups: set<string>) {
    match op
    case Cross(_) => |args| == 1 && Validate(args[0], data, groups) == Some(PanelType)
    case Sign => |args| == 1 && Validate(args[0], data, groups) == Some(PanelType)
    case Time(t) =>
      && |args| == 2 && Validate(args[0], data, groups) == Some(PanelType)
      && args[1].Literal? && Integral(args[1].value) && 1.0 <= args[1].value <= 10000.0
      && (t == StdDev || t == ZScore ==> 2.0 <= args[1].value)
    case Grouped(_) =>
      && |args| == 2 && Validate(args[0], data, groups) == Some(PanelType) && Validate(args[1], data, groups) == Some(GroupType)
    case NotRegistered(_) => false
  }

  lemma CallAcceptedIff(op: Operator, args: seq<Expr>, data: set<string>, groups: set<string>)
    ensures Validate(Call(op, args), data, groups) == if CallAccepted(op, args, data, groups) then Some(PanelType) else None
  {
    if op.Time? && |args| == 2 && args[1].Literal? && Integral(args[1].value) {
      assert args[1].value > 0.0 ==> args[1].value.Floor >= 1;
    }
  }

  /** `_resolve_identifiers` */
  function Resolve(e: Expr, data: set<string>, groups: set<string>): Option<Expr> {
    match e
    case Name(name) =>
      if name in data then Some(DataField(name)) else if name in groups then Some(GroupField(name)) else None
    case Call(op, args) =>
      if forall i :: 0 <= i < |args| ==> Resolve(args[i], data, groups).Some?
      then Some(Call(op, seq(|args|, i requires 0 <= i < |args| => Resolve(args[i], data, groups).value))) else None
    case _ => Some(e)
  }

  // ------------------------------------------------------------------ evaluation

  type Panel = map<string, Series>

  /** A group field: one label per instrument, or one label per instrument and period. */
  datatype Groups = Static(labels: map<string, string>) | Timed(history: map<string, seq<Option<string>>>)

  /** Fields, group fields and, when the resolver has `members_at`, the universe at each period. */
  datatype Resolver = Resolver(fields: map<string, Panel>, groups: map<string, Groups>, members: Option<seq<set<string>>>)

  datatype Value = IntValue(i: int) | NumValue(x: real) | PanelValue(panel: Panel) | GroupValue(labels: Groups)

  predicate EqualLengths(p: Panel) {
    forall k, j :: k in p && j in p ==> |p[k]| == |p[j]|
  }

  predicate IsMember(r: Resolver, p: Panel, i: nat, k: string) {
    if r.members.None? then k in p else i < |r.members.value| && k in r.members.value[i]
  }

  /** The column a cross-section operator sees at one period. */
  function ColumnAt(r: Resolver, p: Panel, i: nat): Column {
    map k | k in p && IsMember(r, p, i, k) && i < |p[k]| && p[k][i].Some? :: p[k][i].value
  }

  function LabelsAt(r: Resolver, p: Panel, g: Groups, i: nat): map<string, string> {
    match g
    case Static(labels) => labels
    case Timed(history) =>
      map k | k in history && IsMember(r, p, i, k) && i < |history[k]| && history[k][i].Some? :: history[k][i].value
  }

  /** Every period of the panel has a universe and, for timed groups, a label column. */
  predicate Covered(r: Resolver, p: Panel) {
    r.members.Some? ==> forall k :: k in p ==> |p[k]| <= |r.members.value|
  }

  predicate Labelled(p: Panel, g: Groups) {
    g.Timed? ==> forall k, j :: k in p && j in g.history ==> |p[k]| <= |g.history[j]|
  }

  function CellOf(out: Column, k: string): Cell {
    if k in out then Some(out[k]) else None
  }

  ghost function CrossPanel(op: CrossOp, r: Resolver, p: Panel, root: real -> real): Panel {
    map k | k in p :: seq(|p[k]|, i requires 0 <= i => CellOf(CrossApply(op, ColumnAt(r, p, i), root), k))
  }

  ghost function GroupPanel(op: GroupOp, r: Resolver, p: Panel, g: Groups): Panel {
    map k | k in p :: seq(|p[k]|, i requires 0 <= i => CellOf(GroupApply(op, ColumnAt(r, p, i), LabelsAt(r, p, g, i)), k))
  }

  predicate PanelAnswers(op: TimeOp, p: Panel, d: real) {
    forall k :: k in p ==> Answers(op, d, |p[k]|)
  }

  function TimePanel(op: TimeOp, p: Panel, d: real, root: real -> real): Panel
    requires PanelAnswers(op, p, d)
  {
    map k | k in p :: Answer(op, p[k], d, root)
  }

  /** The number a window argument is. */
  function Number(v: Value): Option<real> {
    match v
    case IntValue(i) => Some(i as real)
    case NumValue(x) => Some(x)
    case _ => None
  }

  function SignSeries(s: Series): Series {
    seq(|s|, i requires 0 <= i < |s| => if s[i].None? then None else Some(SignOf(s[i].value)))
  }

  function SignPanel(p: Panel): Panel {
    map k | k in p :: SignSeries(p[k])
  }

  // One operator on evaluated arguments; `None` is any exception the source raises there.  Arguments of the wrong kind,
  // which no accepted expression has, count as an exception.

  function ApplyTime(t: TimeOp, args: seq<Value>, root: real -> real): Option<Value> {
    if |args| == 2 then TimeOn(t, args[0], args[1], root) else None
  }

  function TimeOn(t: TimeOp, a: Value, b: Value, root: real -> real): Option<Value> {
    if a.PanelValue? && Number(b).Some? && PanelAnswers(t, a.panel, Number(b).value)
    then Some(PanelValue(TimePanel(t, a.panel, Number(b).value, root))) else None
  }

  ghost function ApplyGroup(g: GroupOp, args: seq<Value>, r: Resolver): Option<Value> {
    if |args| == 2 then GroupOn(g, args[0], args[1], r) else None
  }

  ghost function GroupOn(g: GroupOp, a: Value, b: Value, r: Resolver): Option<Value> {
    if a.PanelValue? && b.GroupValue? && Covered(r, a.panel) && Labelled(a.panel, b.labels)
    then Some(PanelValue(GroupPanel(g, r, a.panel, b.labels))) else None
  }

  ghost function ApplyCross(c: CrossOp, args: seq<Value>, r: Resolver, root: real -> real): Option<Value> {
    if |args| == 1 then CrossOn(c, args[0], r, root) else None
  }

  ghost function CrossOn(c: CrossOp, a: Value, r: Resolver, root: real -> real): Option<Value> {
    if a.PanelValue? && Covered(r, a.panel) then Some(PanelValue(CrossPanel(c, r, a.panel, root))) else None
  }

  function ApplySign(args: seq<Value>): Option<Value> {
    if |args| == 1 && args[0].PanelValue? then Some(PanelValue(SignPanel(args[0].panel))) else None
  }

  ghost function Apply(op: Operator, args: seq<Value>, r: Resolver, root: real -> real): Option<Value> {
    match op
    case Time(t) => ApplyTime(t, args, root)
    case Grouped(g) => ApplyGroup(g, args, r)
    case Cross(c) => ApplyCross(c, args, r, root)
    case Sign => ApplySign(args)
    case NotRegistered(_) => None
  }

  /** `evaluate_expression`; `None` is any exception it raises. */
  ghost function Evaluate(e: Expr, r: Resolver, root: real -> real): Option<Value> {
    match e
    case Literal(v) => Some(if Integral(v) then IntValue(v.Floor) else NumValue(v))
    case Name(name) => Field(r, name)
    case DataField(name) => Field(r, name)
    case GroupField(name) => if name in r.groups then Some(GroupValue(r.groups[name])) else None
    case Call(op, args) =>
      if forall i :: 0 <= i < |args| ==> Evaluate(args[i], r, root).Some?
      then Apply(op, seq(|args|, i requires 0 <= i < |args| => Evaluate(args[i], r, root).value), r, root) else None
  }

  /** A data field's panel, whose series must have one length. */
  function Field(r: Resolver, name: string): Option<Value> {
    if name in r.fields && EqualLengths(r.fields[name]) then Some(PanelValue(r.fields[name])) else None
  }

  // --------------------------------------------------------------- no look-ahead

  function TakeSeries<T>(s: seq<T>, n: nat): seq<T> {
    if n <= |s| then s[..n] else s
  }

  function TakePanel(p: Panel, n: nat): Panel {
    map k | k in p :: TakeSeries(p[k], n)
  }

  function TakeGroups(g: Groups, n: nat): Groups {
    if g.Static? then g else Timed(map k | k in g.history :: TakeSeries(g.history[k], n))
  }

  /** The same resolver knowing only the first `n` periods. */
  function TakeResolver(r: Resolver, n: nat): Resolver {
    Resolver(map k | k in r.fields :: TakePanel(r.fields[k], n),
             map k | k in r.groups :: TakeGroups(r.groups[k], n),
             if r.members.None? then None else Some(TakeSeries(r.members.value, n)))
  }

  function TakeValue(v: Value, n: nat): Value {
    match v
    case PanelValue(p) => PanelValue(TakePanel(p, n))
    case GroupValue(g) => GroupValue(TakeGroups(g, n))
    case _ => v
  }

  predicate PanelLength(p: Panel, length: nat) {
    forall k :: k in p ==> |p[k]| == length
  }

  predicate GroupsLength(g: Groups, length: nat) {
    g.Timed? ==> forall k :: k in g.history ==> |g.history[k]| == length
  }

  predicate ValueLength(v: Value, length: nat) {
    (v.PanelValue? ==> PanelLength(v.panel, length)) && (v.GroupValue? ==> GroupsLength(v.labels, length))
  }

  /** Every field, timed group and universe covers the same periods. */
  predicate Rectangular(r: Resolver, length: nat) {
    && (forall k :: k in r.fields ==> PanelLength(r.fields[k], length))
    && (forall k :: k in r.groups ==> GroupsLength(r.groups[k], length))
    && (r.members.Some? ==> |r.members.value| == length)
  }

  lemma ApplyKeepsLength(op: Operator, args: seq<Value>, r: Resolver, root: real -> real, length: nat)
    requires forall i :: 0 <= i < |args| ==> ValueLength(args[i], length)
    requires Apply(op, args, r, root).Some?
    ensures ValueLength(Apply(op, args, r, root).value, length)
  {
    assert ValueLength(args[0], length);
  }

  function TakeArgs(args: seq<Value>, n: nat): seq<Value> {
    seq(|args|, i requires 0 <= i < |args| => TakeValue(args[i], n))
  }

  lemma ColumnIsCausal(r: Resolver, p: Panel, n: nat, length: nat, i: nat)
    requires Rectangular(r, length) && PanelLength(p, length) && i < n <= length
    ensures ColumnAt(TakeResolver(r, n), TakePanel(p, n), i) == ColumnAt(r, p, i)
  {
  }

  lemma LabelsAreCausal(r: Resolver, p: Panel, g: Groups, n: nat, length: nat, i: nat)
    requires Rectangular(r, length) && GroupsLength(g, length) && i < n <= length
    ensures LabelsAt(TakeResolver(r, n), TakePanel(p, n), TakeGroups(g, n), i) == LabelsAt(r, p, g, i)
  {
  }

  lemma CrossIsCausal(op: CrossOp, r: Resolver, p: Panel, root: real -> real, n: nat, length: nat)
    requires Rectangular(r, length) && PanelLength(p, length) && n <= length
    ensures CrossPanel(op, TakeResolver(r, n), TakePanel(p, n), root) == TakePanel(CrossPanel(op, r, p, root), n)
  {
    var a, b := CrossPanel(op, TakeResolver(r, n), TakePanel(p, n), root), TakePanel(CrossPanel(op, r, p, root), n);
    forall k | k in p ensures a[k] == b[k] {
      forall i | 0 <= i < n ensures a[k][i] == b[k][i] { ColumnIsCausal(r, p, n, length, i); }
    }
  }

  lemma GroupIsCausal(op: GroupOp, r: Resolver, p: Panel, g: Groups, n: nat, length: nat)
    requires Rectangular(r, length) && PanelLength(p, length) && GroupsLength(g, length) && n <= length
    ensures GroupPanel(op, TakeResolver(r, n), TakePanel(p, n), TakeGroups(g, n)) == TakePanel(GroupPanel(op, r, p, g), n)
  {
    var a := GroupPanel(op, TakeResolver(r, n), TakePanel(p, n), TakeGroups(g, n));
    var b := TakePanel(GroupPanel(op, r, p, g), n);
    forall k | k in p ensures a[k] == b[k] {
      forall i | 0 <= i < n ensures a[k][i] == b[k][i] {
        ColumnIsCausal(r, p, n, length, i);
        LabelsAreCausal(r, p, g, n, length, i);
      }
    }
  }

  lemma TimeIsCausal(op: TimeOp, p: Panel, d: real, root: real -> real, n: nat, length: nat)
    requires PanelAnswers(op, p, d) && PanelLength(p, length) && n <= length
    ensures PanelAnswers(op, TakePanel(p, n), d)
    ensures TimePanel(op, TakePanel(p, n), d, root) == TakePanel(TimePanel(op, p, d, root), n)
  {
    forall k | k in p
      ensures Answers(op, d, n) && Answer(op, p[k][..n], d, root) == Answer(op, p[k], d, root)[..n]
    {
      AnswerIsCausal(op, p[k], d, n, root);
    }
  }

  lemma SignIsCausal(p: Panel, n: nat, length: nat)
    requires PanelLength(p, length) && n <= length
    ensures SignPanel(TakePanel(p, n)) == TakePanel(SignPanel(p), n)
  {
    forall k | k in p ensures SignSeries(p[k][..n]) == SignSeries(p[k])[..n] {}
  }

  function TakeResult(v: Option<Value>, n: nat): Option<Value> {
    if v.None? then None else Some(TakeValue(v.value, n))
  }

  lemma TimeOnIsCausal(t: TimeOp, a: Value, b: Value, root: real -> real, n: nat, length: nat)
    requires n <= length && ValueLength(a, length) && TimeOn(t, a, b, root).Some?
    ensures TimeOn(t, TakeValue(a, n), TakeValue(b, n), root) == TakeResult(TimeOn(t, a, b, root), n)
  {
    TimeIsCausal(t, a.panel, Number(b).value, root, n, length);
  }

  /** On rectangular data every panel is covered and labelled, whole or cut. */
  lemma CutIsCovered(r: Resolver, p: Panel, n: nat, length: nat)
    requires Rectangular(r, length) && PanelLength(p, length) && n <= length
    ensures Covered(r, p) && Covered(TakeResolver(r, n), TakePanel(p, n))
  {
  }

  lemma CutIsLabelled(p: Panel, g: Groups, n: nat, length: nat)
    requires PanelLength(p, length) && GroupsLength(g, length) && n <= length
    ensures Labelled(p, g) && Labelled(TakePanel(p, n), TakeGroups(g, n))
  {
  }

  lemma GroupOnIsCausal(g: GroupOp, a: Value, b: Value, r: Resolver, n: nat, length: nat)
    requires Rectangular(r, length) && n <= length && ValueLength(a, length) && ValueLength(b, length)
    ensures GroupOn(g, TakeValue(a, n), TakeValue(b, n), TakeResolver(r, n)) == TakeResult(GroupOn(g, a, b, r), n)
  {
    if a.PanelValue? && b.GroupValue? {
      CutIsCovered(r, a.panel, n, length);
      CutIsLabelled(a.panel, b.labels, n, length);
      GroupIsCausal(g, r, a.panel, b.labels, n, length);
    }
  }

  lemma CrossOnIsCausal(c: CrossOp, a: Value, r: Resolver, root: real -> real, n: nat, length: nat)
    requires Rectangular(r, length) && n <= length && ValueLength(a, length)
    ensures CrossOn(c, TakeValue(a, n), TakeResolver(r, n), root) == TakeResult(CrossOn(c, a, r, root), n)
  {
    if a.PanelValue? {
      CutIsCovered(r, a.panel, n, length);
      CrossIsCausal(c, r, a.panel, root, n, length);
    }
  }

  lemma ApplyTimeIsCausal(t: TimeOp, args: seq<Value>, root: real -> real, n: nat, length: nat)
    requires n <= length && forall i :: 0 <= i < |args| ==> ValueLength(args[i], length)
    requires ApplyTime(t, args, root).Some?
    ensures ApplyTime(t, TakeArgs(args, n), root) == TakeResult(ApplyTime(t, args, root), n)
  {
    TimeOnIsCausal(t, args[0], args[1], root, n, length);
  }

  lemma ApplyGroupIsCausal(g: GroupOp, args: seq<Value>, r: Resolver, n: nat, length: nat)
    requires Rectangular(r, length) && n <= length && forall i :: 0 <= i < |args| ==> ValueLength(args[i], length)
    ensures ApplyGroup(g, TakeArgs(args, n), TakeResolver(r, n)) == TakeResult(ApplyGroup(g, args, r), n)
  {
    if |args| == 2 { GroupOnIsCausal(g, args[0], args[1], r, n, length); }
  }

  lemma ApplyCrossIsCausal(c: CrossOp, args: seq<Value>, r: Resolver, root: real -> real, n: nat, length: nat)
    requires Rectangular(r, length) && n <= length && forall i :: 0 <= i < |args| ==> ValueLength(args[i], length)
    ensures ApplyCross(c, TakeArgs(args, n), TakeResolver(r, n), root) == TakeResult(ApplyCross(c, args, r, root), n)
  {
    if |args| == 1 { CrossOnIsCausal(c, args[0], r, root, n, length); }
  }

  lemma ApplyIsCausal(op: Operator, args: seq<Value>, r: Resolver, root: real -> real, n: nat, length: nat)
    requires Rectangular(r, length) && n <= length
    requires Apply(op, args, r, root).Some? && forall i :: 0 <= i < |args| ==> ValueLength(args[i], length)
    ensures Apply(op, TakeArgs(args, n), TakeResolver(r, n), root) == TakeResult(Apply(op, args, r, root), n)
  {
    match op
    case Time(t) => ApplyTimeIsCausal(t, args, root, n, length);
    case Cross(c) => ApplyCrossIsCausal(c, args, r, root, n, length);
    case Grouped(g) => ApplyGroupIsCausal(g, args, r, n, length);
    case Sign =>
      if |args| == 1 && args[0].PanelValue? {
        assert ValueLength(args[0], length);
        SignIsCausal(args[0].panel, n, length);
      }
    case NotRegistered(_) =>
  }

  lemma {:induction false} EvaluateKeepsLength(e: Expr, r: Resolver, root: real -> real, length: nat)
    requires Rectangular(r, length) && Evaluate(e, r, root).Some?
    ensures ValueLength(Evaluate(e, r, root).value, length)
    decreases e
  {
    if e.Call? {
      var args := seq(|e.args|, i requires 0 <= i < |e.args| => Evaluate(e.args[i], r, root).value);
      forall i | 0 <= i < |args| ensures ValueLength(args[i], length) {
        EvaluateKeepsLength(e.args[i], r, root, length);
      }
      ApplyKeepsLength(e.op, args, r, root, length);
    }
  }

  /** No look-ahead, for every expression of any depth, accepted or not: where it evaluates on the full history, it
      evaluates on panels, groups and membership truncated to the first `n` periods, to the truncated result. */
  lemma {:induction false} NoLookAhead(e: Expr, r: Resolver, root: real -> real, n: nat, length: nat)
    requires Rectangular(r, length) && n <= length && Evaluate(e, r, root).Some?
    ensures Evaluate(e, TakeResolver(r, n), root) == TakeResult(Evaluate(e, r, root), n)
    decreases e
  {
    if e.Call? {
      var q := TakeResolver(r, n);
      forall i | 0 <= i < |e.args|
        ensures Evaluate(e.args[i], q, root) == TakeResult(Evaluate(e.args[i], r, root), n)
      {
        NoLookAhead(e.args[i], r, root, n, length);
      }
      var args := seq(|e.args|, i requires 0 <= i < |e.args| => Evaluate(e.args[i], r, root).value);
      forall i | 0 <= i < |args| ensures ValueLength(args[i], length) {
        EvaluateKeepsLength(e.args[i], r, root, length);
      }
      assert seq(|e.args|, i requires 0 <= i < |e.args| => Evaluate(e.args[i], q, root).value) == TakeArgs(args, n);
      ApplyIsCausal(e.op, args, r, root, n, length);
    }
  }

  /** So two histories that agree on the first `n` periods, and both evaluate, give results that agree on them. */
  lemma PastDecidesPast(e: Expr, r: Resolver, q: Resolver, root: real -> real, n: nat, length: nat, other: nat)
    requires Rectangular(r, length) && Rectangular(q, other) && n <= length && n <= other
    requires TakeResolver(r, n) == TakeResolver(q, n)
    requires Evaluate(e, r, root).Some? && Evaluate(e, q, root).Some?
    ensures TakeValue(Evaluate(e, r, root).value, n) == TakeValue(Evaluate(e, q, root).value, n)
  {
    NoLookAhead(e, r, root, n, length);
    NoLookAhead(e, q, root, n, other);
  }
}
