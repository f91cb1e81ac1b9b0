/** When exactly an expression fails on a history of given length: which windows it notices. */
module DslWindows {
  import opened Common
  import opened Operators
  import opened Dsl
  import opened DslTyping

  /** The validator's typing with every rule kept but those on the value of a window. */
  function TypeButWindows(e: Expr, data: set<string>, groups: set<string>): Option<ValueType> {
    match e
    case Literal(v) => Some(if Integral(v) then IntegerType else ScalarType)
    case Name(name) => TypeOfName(name, data, groups)
    case DataField(name) => TypeOfName(name, data, groups)
    case GroupField(name) => TypeOfName(name, data, groups)
    case Call(op, args) =>
      if !op.NotRegistered? && |args| == |Signature(op)|
         && TypeButWindows(args[0], data, groups) == Some(PanelType)
         && (op.Grouped? ==> TypeButWindows(args[1], data, groups) == Some(GroupType))
         && (op.Time? ==> args[1].Literal?)
      then Some(PanelType) else None
  }

  /** Everything the validator accepts is typed so. */
  lemma {:induction false} ValidatedIsTyped(e: Expr, data: set<string>, groups: set<string>)
    requires Validate(e, data, groups).Some?
    ensures TypeButWindows(e, data, groups) == Validate(e, data, groups)
    decreases e
  {
    if e.Call? {
      ValidatedIsTyped(e.args[0], data, groups);
      if e.op.Grouped? { ValidatedIsTyped(e.args[1], data, groups); }
    }
  }

  /** The instruments of the field a panel expression is built on. */
  function Instruments(e: Expr, r: Resolver): set<string> {
    match e
    case Name(name) => if name in r.fields then r.fields[name].Keys else {}
    case DataField(name) => if name in r.fields then r.fields[name].Keys else {}
    case Call(_, args) => if args == [] then {} else Instruments(args[0], r)
    case _ => {}
  }

  /** Every nested time call over some instrument answers its window on series of this length. */
  predicate WindowsAnswer(e: Expr, r: Resolver, length: nat) {
    match e
    case Call(op, args) =>
      && (forall i :: 0 <= i < |args| ==> WindowsAnswer(args[i], r, length))
      && (op.Time? && |args| == 2 && args[1].Literal? && Instruments(args[0], r) != {} ==> Answers(op.time, args[1].value, length))
    case _ => true
  }

  /** An evaluated panel has the instruments of its field. */
  lemma {:induction false} PanelInstruments(e: Expr, r: Resolver, root: real -> real)
    requires Evaluate(e, r, root).Some? && Evaluate(e, r, root).value.PanelValue?
    ensures Evaluate(e, r, root).value.panel.Keys == Instruments(e, r)
    decreases e
  {
    if e.Call? {
      var args := Arguments(e, r, root);
      ApplyNeedsTypes(e.op, args, r, root);
      assert HasType(args[0], PanelType) && args[0] == Evaluate(e.args[0], r, root).value;
      PanelInstruments(e.args[0], r, root);
      ApplyKeepsInstruments(e.op, args, r, root);
    }
  }

  lemma ApplyKeepsInstruments(op: Operator, args: seq<Value>, r: Resolver, root: real -> real)
    requires Apply(op, args, r, root).Some? && |args| > 0 && args[0].PanelValue?
    ensures Apply(op, args, r, root).value.PanelValue? && Apply(op, args, r, root).value.panel.Keys == args[0].panel.Keys
  {
  }

  /** One time call answers exactly when its panel is empty or its window answers. */
  lemma TimeAnswersIff(t: TimeOp, args: seq<Value>, d: real, root: real -> real, length: nat)
    requires |args| == 2 && args[0].PanelValue? && PanelLength(args[0].panel, length) && Number(args[1]) == Some(d)
    ensures ApplyTime(t, args, root).Some? <==> args[0].panel == map[] || Answers(t, d, length)
  {
    if args[0].panel != map[] { var k :| k in args[0].panel; }
  }

  lemma OtherAnswers(op: Operator, args: seq<Value>, r: Resolver, root: real -> real, length: nat)
    requires Rectangular(r, length) && !op.NotRegistered? && !op.Time? && |args| == |Signature(op)|
    requires args[0].PanelValue? && PanelLength(args[0].panel, length)
    requires op.Grouped? ==> args[1].GroupValue? && GroupsLength(args[1].labels, length)
    ensures Apply(op, args, r, root).Some?
  {
    CutIsCovered(r, args[0].panel, length, length);
    if op.Grouped? { CutIsLabelled(args[0].panel, args[1].labels, length, length); }
  }

  /** A leaf that agrees with its type evaluates to it. */
  lemma LeafEvaluates(e: Expr, r: Resolver, root: real -> real, data: set<string>, groups: set<string>, length: nat)
    requires Rectangular(r, length) && Serves(r, data, groups) && !e.Call?
    requires TypeButWindows(e, data, groups).Some? && LeavesAgree(e, data, groups)
    ensures Sound(e, r, root, TypeButWindows(e, data, groups).value)
  {
  }

  /** An expression typed in all but its windows, with leaves that agree, evaluates on rectangular data exactly when every
      nested time call over some instrument answers its window at the length of the history. */
  lemma {:induction false} EvaluatesIffWindowsAnswer(e: Expr, r: Resolver, root: real -> real, data: set<string>,
                                                    groups: set<string>, length: nat)
    requires Rectangular(r, length) && Serves(r, data, groups)
    requires TypeButWindows(e, data, groups).Some? && LeavesAgree(e, data, groups)
    ensures Evaluate(e, r, root).Some? <==> WindowsAnswer(e, r, length)
    ensures Evaluate(e, r, root).Some? ==> HasType(Evaluate(e, r, root).value, TypeButWindows(e, data, groups).value)
    decreases e
  {
    if e.Call? {
      EvaluatesIffWindowsAnswer(e.args[0], r, root, data, groups, length);
      if e.op.Grouped? { EvaluatesIffWindowsAnswer(e.args[1], r, root, data, groups, length); }
      if e.op.Time? { assert Evaluate(e.args[1], r, root).Some? && WindowsAnswer(e.args[1], r, length); }
      ArgumentsEvaluateIff(e, r, root, length);
      if forall i :: 0 <= i < |e.args| ==> Evaluate(e.args[i], r, root).Some? {
        CallAnswersIff(e, r, root, data, groups, length);
      }
    } else {
      LeafEvaluates(e, r, root, data, groups, length);
    }
  }

  lemma ArgumentsEvaluateIff(e: Expr, r: Resolver, root: real -> real, length: nat)
    requires e.Call? && forall i :: 0 <= i < |e.args| ==> (Evaluate(e.args[i], r, root).Some? <==> WindowsAnswer(e.args[i], r, length))
    ensures (forall i :: 0 <= i < |e.args| ==> Evaluate(e.args[i], r, root).Some?) <==>
            forall i :: 0 <= i < |e.args| ==> WindowsAnswer(e.args[i], r, length)
  {
  }

  lemma CallAnswersIff(e: Expr, r: Resolver, root: real -> real, data: set<string>, groups: set<string>, length: nat)
    requires e.Call? && Rectangular(r, length) && TypeButWindows(e, data, groups).Some?
    requires forall i :: 0 <= i < |e.args| ==> Evaluate(e.args[i], r, root).Some?
    requires HasType(Evaluate(e.args[0], r, root).value, PanelType)
    requires e.op.Grouped? ==> HasType(Evaluate(e.args[1], r, root).value, GroupType)
    ensures Evaluate(e, r, root).Some? <==>
            !e.op.Time? || Instruments(e.args[0], r) == {} || Answers(e.op.time, e.args[1].value, length)
    ensures Evaluate(e, r, root).Some? ==> Evaluate(e, r, root).value.PanelValue?
  {
    var args := Arguments(e, r, root);
    assert Evaluate(e, r, root) == Apply(e.op, args, r, root);
    EvaluateKeepsLength(e.args[0], r, root, length);
    if e.op.Time? {
      PanelInstruments(e.args[0], r, root);
      TimeAnswersIff(e.op.time, args, e.args[1].value, root, length);
    } else {
      if e.op.Grouped? { EvaluateKeepsLength(e.args[1], r, root, length); }
      OtherAnswers(e.op, args, r, root, length);
    }
    if Apply(e.op, args, r, root).Some? { ApplyNeedsTypes(e.op, args, r, root); }
  }

  /** A cut history has the same instruments. */
  lemma {:induction false} CutKeepsInstruments(e: Expr, r: Resolver, n: nat)
    ensures Instruments(e, TakeResolver(r, n)) == Instruments(e, r)
    decreases e
  {
    if e.Call? && e.args != [] { CutKeepsInstruments(e.args[0], r, n); }
  }

  lemma {:induction false} CutKeepsWindows(e: Expr, r: Resolver, n: nat, length: nat)
    ensures WindowsAnswer(e, TakeResolver(r, n), length) == WindowsAnswer(e, r, length)
    decreases e
  {
    if e.Call? {
      forall i | 0 <= i < |e.args| ensures WindowsAnswer(e.args[i], TakeResolver(r, n), length) == WindowsAnswer(e.args[i], r, length) {
        CutKeepsWindows(e.args[i], r, n, length);
      }
      if e.args != [] { CutKeepsInstruments(e.args[0], r, n); }
    }
  }

  lemma CutIsRectangular(r: Resolver, data: set<string>, groups: set<string>, n: nat, length: nat)
    requires Rectangular(r, length) && Serves(r, data, groups) && n <= length
    ensures Rectangular(TakeResolver(r, n), n) && Serves(TakeResolver(r, n), data, groups)
  {
  }

  /** Failure depends on later periods exactly when every window answers at the shorter length and some window does not at
      the longer: then, and only then, the expression evaluates on its first `n` periods and fails on all of them. */
  lemma {:induction false} FailureHiddenIff(e: Expr, r: Resolver, root: real -> real, data: set<string>, groups: set<string>,
                                           n: nat, length: nat)
    requires Rectangular(r, length) && Serves(r, data, groups) && n <= length
    requires TypeButWindows(e, data, groups).Some? && LeavesAgree(e, data, groups)
    ensures Evaluate(e, TakeResolver(r, n), root).Some? && Evaluate(e, r, root).None? <==>
            WindowsAnswer(e, r, n) && !WindowsAnswer(e, r, length)
  {
    EvaluatesIffWindowsAnswer(e, r, root, data, groups, length);
    CutIsRectangular(r, data, groups, n, length);
    EvaluatesIffWindowsAnswer(e, TakeResolver(r, n), root, data, groups, n);
    CutKeepsWindows(e, r, n, n);
  }
}
