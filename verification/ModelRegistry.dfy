/**
 The model registry: definitions that start in development, a lifecycle of dated transitions, the status in effect at
 an instant, scoped authorization, and the content-addressed snapshot a registry is rebuilt from.  Instants are
 microseconds, dates are days, and a digest is the value it digests.
 */
module ModelRegistry {
  import opened Common

  datatype Status = Development | Validated | Approved | Active | Degraded | Suspended | Retired

  datatype Scope =
    | FeatureCalculation | StateInference | RequiredReturn | PricingBaselineReturn | ModelRelativeAlpha
    | ExpectedBenchmarkActiveReturn | RealizedActiveReturn | RegressionAlpha | ExpectedReturn | RiskEstimation
    | PositionSizing | OrderCreation

  /** `text` holds the descriptive fields (purpose, inputs, outputs, failure modes, owner). */
  datatype Definition = Definition(id: string, version: string, text: string, scopes: set<Scope>,
                                   validationDay: int, reviewDay: int, status: Status)

  datatype Transition = Transition(key: string, from: Status, to: Status, at: int, reason: string, evidence: set<string>)

  datatype Registry = Registry(models: map<string, Definition>, transitions: seq<Transition>)

  datatype Refusal =
    | MustStartInDevelopment | DefinitionConflict | NotRegistered | LifecycleInvalid | TransitionInvalid
    | BeforeValidation | TimeReversed | HistoryInvalid | NotActive | ScopeNotApproved | NotYetValidated
    | ReviewOverdue | SnapshotInvalid

  function KeyOf(d: Definition): string { d.id + ['@'] + d.version }

  function Day(at: int): int { at / 86_400_000_000 }

  predicate Allowed(from: Status, to: Status) {
    match from
    case Development => to.Validated? || to.Retired?
    case Validated => to.Approved? || to.Development? || to.Retired?
    case Approved => to.Active? || to.Suspended? || to.Retired?
    case Active => to.Degraded? || to.Suspended? || to.Retired?
    case Degraded => to.Active? || to.Suspended? || to.Retired?
    case Suspended => to.Validated? || to.Retired?
    case Retired => false
  }

  /** What each status may follow: a model is approved only from validation, active only from approval or degradation,
      validated only from development or suspension; retirement ends every other status and nothing follows it. */
  lemma AllowedFrom(from: Status, to: Status)
    ensures Allowed(from, to) <==>
            match to
            case Development => from == Validated
            case Validated => from == Development || from == Suspended
            case Approved => from == Validated
            case Active => from == Approved || from == Degraded
            case Degraded => from == Active
            case Suspended => from == Approved || from == Active || from == Degraded
            case Retired => from != Retired
  {
  }

  lemma DayMeaning(at: int)
    ensures Day(at) * 86_400_000_000 <= at < (Day(at) + 1) * 86_400_000_000
  {
  }

  predicate Evidenced(reason: string, evidence: set<string>) {
    !Blank(reason) && evidence != {} && forall e :: e in evidence ==> !Blank(e)
  }

  /** When a model's latest recorded transition took effect. */
  function LastAt(ts: seq<Transition>, key: string): Option<int>
    decreases |ts|
  {
    if ts == [] then None
    else if ts[|ts| - 1].key == key then Some(ts[|ts| - 1].at)
    else LastAt(ts[..|ts| - 1], key)
  }

  function Registered(r: Registry, d: Definition): Result<Registry, Refusal> {
    if !d.status.Development? then Err(MustStartInDevelopment)
    else if KeyOf(d) in r.models && r.models[KeyOf(d)] != d then Err(DefinitionConflict)
    else Ok(r.(models := r.models[KeyOf(d) := d]))
  }

  function Moved(r: Registry, key: string, to: Status, at: int, reason: string, evidence: set<string>)
    : Result<Registry, Refusal>
  {
    if key !in r.models then Err(NotRegistered)
    else
      var current := r.models[key];
      if !Allowed(current.status, to) then Err(LifecycleInvalid)
      else if Blank(key) || !Evidenced(reason, evidence) then Err(TransitionInvalid)
      else if !to.Development? && !to.Retired? && Day(at) < current.validationDay then Err(BeforeValidation)
      else if LastAt(r.transitions, key).Some? && at < LastAt(r.transitions, key).value then Err(TimeReversed)
      else Ok(Registry(r.models[key := current.(status := to)],
                       r.transitions + [Transition(key, current.status, to, at, reason, evidence)]))
  }

  /** `status_at` over the recorded transitions. */
  function StatusAt(ts: seq<Transition>, key: string, at: int): Result<Status, Refusal>
    decreases |ts|
  {
    if ts == [] then Ok(Development)
    else
      var before, t := StatusAt(ts[..|ts| - 1], key, at), ts[|ts| - 1];
      if before.Err? || t.key != key || t.at > at then before
      else if t.from != before.value then Err(HistoryInvalid)
      else Ok(t.to)
  }

  // ------------------------------------------------------------------- whole runs

  datatype Action =
    | Register(definition: Definition)
    | Move(key: string, to: Status, at: int, reason: string, evidence: set<string>)

  /** A refused operation leaves the registry as it was. */
  function Step(r: Registry, a: Action): Registry {
    var next := match a
      case Register(d) => Registered(r, d)
      case Move(key, to, at, reason, evidence) => Moved(r, key, to, at, reason, evidence);
    if next.Ok? then next.value else r
  }

  function Run(actions: seq<Action>): Registry
    decreases |actions|
  {
    if actions == [] then Registry(map[], []) else Step(Run(actions[..|actions| - 1]), actions[|actions| - 1])
  }

  /** The status after a model's latest recorded transition. */
  function Current(ts: seq<Transition>, key: string): Status
    decreases |ts|
  {
    if ts == [] then Development
    else if ts[|ts| - 1].key == key then ts[|ts| - 1].to
    else Current(ts[..|ts| - 1], key)
  }

  /** Each transition is allowed, leaves the status the one before it reached, and is not earlier than it. */
  ghost predicate Lawful(ts: seq<Transition>, i: int)
    requires 0 <= i < |ts|
  {
    var t, before := ts[i], ts[..i];
    && Allowed(t.from, t.to) && t.from == Current(before, t.key) && Evidenced(t.reason, t.evidence)
    && (LastAt(before, t.key).Some? ==> LastAt(before, t.key).value <= t.at)
  }

  ghost predicate LawfulHistory(ts: seq<Transition>) {
    forall i :: 0 <= i < |ts| ==> Lawful(ts, i)
  }

  ghost predicate Inv(r: Registry) {
    && LawfulHistory(r.transitions)
    && (forall k :: k in r.models ==> KeyOf(r.models[k]) == k && r.models[k].status == Current(r.transitions, k))
    && (forall i :: 0 <= i < |r.transitions| ==> r.transitions[i].key in r.models)
    && (forall i :: 0 <= i < |r.transitions| ==> Timely(r, r.transitions[i]))
  }

  /** Past development, no transition precedes the model's validation date. */
  predicate Timely(r: Registry, t: Transition) {
    t.key in r.models ==> (t.to.Development? || t.to.Retired? || r.models[t.key].validationDay <= Day(t.at))
  }

  lemma LawfulOne(ts: seq<Transition>, t: Transition)
    requires LawfulHistory(ts)
    requires Allowed(t.from, t.to) && t.from == Current(ts, t.key) && Evidenced(t.reason, t.evidence)
    requires LastAt(ts, t.key).Some? ==> LastAt(ts, t.key).value <= t.at
    ensures LawfulHistory(ts + [t])
  {
    forall i | 0 <= i < |ts + [t]| ensures Lawful(ts + [t], i) {
      if i < |ts| { assert Lawful(ts, i); assert (ts + [t])[..i] == ts[..i]; } else { assert (ts + [t])[..i] == ts; }
    }
  }

  lemma {:induction false} LawfulPrefix(ts: seq<Transition>, n: nat)
    requires LawfulHistory(ts) && n <= |ts|
    ensures LawfulHistory(ts[..n])
  {
    forall i | 0 <= i < n ensures Lawful(ts[..n], i) { assert Lawful(ts, i); assert ts[..n][..i] == ts[..i]; }
  }

  lemma MoveKeepsInv(r: Registry, key: string, to: Status, at: int, reason: string, evidence: set<string>)
    requires Inv(r) && Moved(r, key, to, at, reason, evidence).Ok?
    ensures Inv(Moved(r, key, to, at, reason, evidence).value)
  {
    var next := Moved(r, key, to, at, reason, evidence).value;
    var t := Transition(key, r.models[key].status, to, at, reason, evidence);
    LawfulOne(r.transitions, t);
    assert next.transitions[..|r.transitions|] == r.transitions;
    forall k | k in next.models ensures KeyOf(next.models[k]) == k && next.models[k].status == Current(next.transitions, k) {
      assert k in r.models;
    }
    forall i | 0 <= i < |next.transitions| ensures Timely(next, next.transitions[i]) {
      if i < |r.transitions| { assert Timely(r, r.transitions[i]); }
    }
  }

  lemma {:induction false} CurrentUntouched(ts: seq<Transition>, key: string)
    requires forall i :: 0 <= i < |ts| ==> ts[i].key != key
    ensures Current(ts, key) == Development && LastAt(ts, key) == None
    decreases |ts|
  {
    if ts != [] { CurrentUntouched(ts[..|ts| - 1], key); }
  }

  lemma RegisterKeepsInv(r: Registry, d: Definition)
    requires Inv(r) && Registered(r, d).Ok?
    ensures Inv(Registered(r, d).value)
  {
    var next := Registered(r, d).value;
    if KeyOf(d) in r.models {
      assert next.models == r.models;
    } else {
      CurrentUntouched(r.transitions, KeyOf(d));
      forall i | 0 <= i < |next.transitions| ensures Timely(next, next.transitions[i]) {
        assert Timely(r, r.transitions[i]);
      }
    }
  }

  lemma StepKeepsInv(r: Registry, a: Action)
    requires Inv(r)
    ensures Inv(Step(r, a))
  {
    match a
    case Register(d) => if Registered(r, d).Ok? { RegisterKeepsInv(r, d); }
    case Move(key, to, at, reason, evidence) =>
      if Moved(r, key, to, at, reason, evidence).Ok? { MoveKeepsInv(r, key, to, at, reason, evidence); }
  }

  lemma {:induction false} RunKeepsInv(actions: seq<Action>)
    ensures Inv(Run(actions))
    decreases |actions|
  {
    if actions != [] {
      RunKeepsInv(actions[..|actions| - 1]);
      StepKeepsInv(Run(actions[..|actions| - 1]), actions[|actions| - 1]);
    }
  }

  /** On a lawful history, not to precede a model's latest transition is to precede none of them. */
  lemma {:induction false} LastIsLatest(ts: seq<Transition>, key: string)
    requires LawfulHistory(ts)
    ensures LastAt(ts, key).None? <==> forall i :: 0 <= i < |ts| ==> ts[i].key != key
    ensures LastAt(ts, key).Some? ==> exists i :: 0 <= i < |ts| && ts[i].key == key && ts[i].at == LastAt(ts, key).value
    ensures forall i :: 0 <= i < |ts| && ts[i].key == key ==> LastAt(ts, key).Some? && ts[i].at <= LastAt(ts, key).value
    decreases |ts|
  {
    if ts != [] {
      var init := ts[..|ts| - 1];
      LawfulPrefix(ts, |ts| - 1);
      LastIsLatest(init, key);
      assert Lawful(ts, |ts| - 1);
      assert forall i :: 0 <= i < |init| ==> init[i] == ts[i];
    }
  }

  /** A transition precedes none of the model's. */
  ghost predicate InTime(r: Registry, key: string, at: int) {
    forall i :: 0 <= i < |r.transitions| && r.transitions[i].key == key ==> r.transitions[i].at <= at
  }

  /** What a move may not lack. */
  ghost predicate MayMove(r: Registry, key: string, to: Status, at: int, reason: string, evidence: set<string>) {
    && key in r.models && Allowed(r.models[key].status, to)
    && !Blank(key) && !Blank(reason) && evidence != {} && (forall e :: e in evidence ==> !Blank(e))
    && (to != Development && to != Retired ==> r.models[key].validationDay * 86_400_000_000 <= at)
    && InTime(r, key, at)
  }

  /** In every reachable registry a move succeeds exactly when nothing is lacking, and then it changes that model's status
      and records itself, and nothing else. */
  lemma MoveSucceedsIff(actions: seq<Action>, key: string, to: Status, at: int, reason: string, evidence: set<string>)
    ensures var r := Run(actions);
            && (Moved(r, key, to, at, reason, evidence).Ok? <==> MayMove(r, key, to, at, reason, evidence))
            && (MayMove(r, key, to, at, reason, evidence) ==>
                  var now, was := Run(actions + [Move(key, to, at, reason, evidence)]), r.models[key];
                  && now.models == r.models[key := was.(status := to)]
                  && now.transitions == r.transitions + [Transition(key, was.status, to, at, reason, evidence)])
  {
    var r := Run(actions);
    RunKeepsInv(actions);
    LastIsLatest(r.transitions, key);
    DayMeaning(at);
    RunOne(actions, Move(key, to, at, reason, evidence));
  }

  // ------------------------------------------------------------------- status as of an instant

  /** On a lawful history the invalid-history error cannot occur, and from the latest transition on the status is the
      current one. */
  lemma {:induction false} StatusAlwaysKnown(ts: seq<Transition>, key: string, at: int)
    requires LawfulHistory(ts)
    ensures StatusAt(ts, key, at).Ok?
    ensures LastAt(ts, key).None? || LastAt(ts, key).value <= at ==> StatusAt(ts, key, at) == Ok(Current(ts, key))
    decreases |ts|
  {
    if ts != [] {
      assert Lawful(ts, |ts| - 1);
      LawfulPrefix(ts, |ts| - 1);
      StatusAlwaysKnown(ts[..|ts| - 1], key, at);
    }
  }

  /** In every reachable registry, a registered model has a status at every instant, and at late instants it is the
      recorded one. */
  lemma StatusOfReachable(actions: seq<Action>, key: string, at: int)
    requires key in Run(actions).models
    ensures var r := Run(actions);
            && StatusAt(r.transitions, key, at).Ok?
            && (LastAt(r.transitions, key).None? || LastAt(r.transitions, key).value <= at ==>
                  StatusAt(r.transitions, key, at) == Ok(r.models[key].status))
  {
    RunKeepsInv(actions);
    StatusAlwaysKnown(Run(actions).transitions, key, at);
  }

  /** A transition decides the status from its effective time on and leaves every earlier instant alone. */
  lemma {:induction false} MoveDecidesFromThen(actions: seq<Action>, key: string, to: Status, at: int, reason: string, evidence: set<string>,
                            other: string, when: int)
    requires Moved(Run(actions), key, to, at, reason, evidence).Ok?
    ensures var was, now := Run(actions), Moved(Run(actions), key, to, at, reason, evidence).value;
            StatusAt(now.transitions, other, when) ==
            if other == key && at <= when then Ok(to) else StatusAt(was.transitions, other, when)
  {
    var was := Run(actions);
    var now := Moved(was, key, to, at, reason, evidence).value;
    assert now.transitions[..|was.transitions|] == was.transitions;
    RunKeepsInv(actions);
    StatusAlwaysKnown(was.transitions, other, when);
  }

  lemma RunOne(actions: seq<Action>, a: Action)
    ensures Run(actions + [a]) == Step(Run(actions), a)
  {
    assert (actions + [a])[..|actions|] == actions;
  }

  /** Nothing done later rewrites the status of instants before a model's latest transition. */
  lemma {:induction false} PastIsSettled(actions: seq<Action>, more: seq<Action>, key: string, when: int)
    requires LastAt(Run(actions).transitions, key).Some? && when < LastAt(Run(actions).transitions, key).value
    ensures var was, now := Run(actions).transitions, Run(actions + more).transitions;
            && StatusAt(now, key, when) == StatusAt(was, key, when)
            && LastAt(now, key).Some? && when < LastAt(now, key).value
    decreases |more|
  {
    if more == [] {
      assert actions + more == actions;
    } else {
      var init := more[..|more| - 1];
      PastIsSettled(actions, init, key, when);
      assert actions + more == actions + init + [more[|more| - 1]];
      RunOne(actions + init, more[|more| - 1]);
      StepSettled(Run(actions + init), more[|more| - 1], key, when);
    }
  }

  lemma StepSettled(r: Registry, a: Action, key: string, when: int)
    requires LastAt(r.transitions, key).Some? && when < LastAt(r.transitions, key).value
    ensures var now := Step(r, a).transitions;
            && StatusAt(now, key, when) == StatusAt(r.transitions, key, when)
            && LastAt(now, key).Some? && when < LastAt(now, key).value
  {
    var now := Step(r, a).transitions;
    if now != r.transitions { assert now[..|now| - 1] == r.transitions; }
  }

  /** Transition `i` concerns the model and is in effect at the instant. */
  predicate Effective(ts: seq<Transition>, key: string, at: int, i: int) {
    0 <= i < |ts| && ts[i].key == key && ts[i].at <= at
  }

  predicate Withdraws(s: Status) { s.Suspended? || s.Development? || s.Retired? }

  /** A validation after which nothing withdrew the model. */
  ghost predicate FreshlyValidated(ts: seq<Transition>, key: string, at: int, v: int) {
    && Effective(ts, key, at, v) && ts[v].to.Validated?
    && forall i :: v < i < |ts| && Effective(ts, key, at, i) ==> !Withdraws(ts[i].to)
  }

  ghost predicate ThenApproved(ts: seq<Transition>, key: string, at: int, v: int, p: int) {
    FreshlyValidated(ts, key, at, v) && v < p && Effective(ts, key, at, p) && ts[p].to.Approved?
  }

  /** What a status at an instant says about the history behind it. */
  ghost predicate Grounded(ts: seq<Transition>, key: string, at: int, s: Status) {
    && (s.Validated? ==> exists v :: FreshlyValidated(ts, key, at, v))
    && (s.Approved? || s.Active? || s.Degraded? ==> exists v, p :: ThenApproved(ts, key, at, v, p))
  }

  lemma {:induction false} StatusGrounded(ts: seq<Transition>, key: string, at: int)
    requires LawfulHistory(ts)
    ensures StatusAt(ts, key, at).Ok? && Grounded(ts, key, at, StatusAt(ts, key, at).value)
    decreases |ts|
  {
    StatusAlwaysKnown(ts, key, at);
    if ts != [] {
      var init, t := ts[..|ts| - 1], ts[|ts| - 1];
      LawfulPrefix(ts, |ts| - 1);
      StatusGrounded(init, key, at);
      assert Lawful(ts, |ts| - 1);
      GroundedOne(init, t, key, at, StatusAt(init, key, at).value);
      assert ts == init + [t];
    }
  }

  lemma FreshCarries(ts: seq<Transition>, t: Transition, key: string, at: int, v: int)
    requires FreshlyValidated(ts, key, at, v)
    requires t.key == key && t.at <= at ==> !Withdraws(t.to)
    ensures FreshlyValidated(ts + [t], key, at, v)
  {
    forall i | v < i < |ts + [t]| && Effective(ts + [t], key, at, i) ensures !Withdraws((ts + [t])[i].to) {
      if i < |ts| { assert Effective(ts, key, at, i); }
    }
  }

  lemma ApprovedCarries(ts: seq<Transition>, t: Transition, key: string, at: int, v: int, p: int)
    requires ThenApproved(ts, key, at, v, p)
    requires t.key == key && t.at <= at ==> !Withdraws(t.to)
    ensures ThenApproved(ts + [t], key, at, v, p)
  {
    FreshCarries(ts, t, key, at, v);
  }

  lemma GroundedOne(ts: seq<Transition>, t: Transition, key: string, at: int, s: Status)
    requires Grounded(ts, key, at, s)
    requires t.key == key && t.at <= at ==> Allowed(s, t.to)
    ensures Grounded(ts + [t], key, at, if t.key == key && t.at <= at then t.to else s)
  {
    var n := |ts|;
    var moves := t.key == key && t.at <= at;
    if moves && t.to.Validated? {
      assert FreshlyValidated(ts + [t], key, at, n);
    } else if !(moves && Withdraws(t.to)) {
      if s.Validated? {
        var v :| FreshlyValidated(ts, key, at, v);
        FreshCarries(ts, t, key, at, v);
        if moves { assert ThenApproved(ts + [t], key, at, v, n); }
      } else if s.Approved? || s.Active? || s.Degraded? {
        var v, p :| ThenApproved(ts, key, at, v, p);
        ApprovedCarries(ts, t, key, at, v, p);
      }
    }
  }

  // ------------------------------------------------------------------- authorization

  function Authorized(r: Registry, key: string, scope: Scope, at: int): Result<(), Refusal> {
    if key !in r.models then Err(NotRegistered)
    else
      var status := StatusAt(r.transitions, key, at);
      if status.Err? then Err(status.reason)
      else if !status.value.Active? then Err(NotActive)
      else if scope !in r.models[key].scopes then Err(ScopeNotApproved)
      else if Day(at) < r.models[key].validationDay then Err(NotYetValidated)
      else if Day(at) > r.models[key].reviewDay then Err(ReviewOverdue)
      else Ok(())
  }

  /** A model is authorized at an instant only on a validation and a later approval, both in effect, evidenced, on or
      after the validation date, and with no suspension, demotion or retirement in effect since that validation. */
  lemma AuthorizedIsGrounded(actions: seq<Action>, key: string, scope: Scope, at: int) returns (v: nat, p: nat)
    requires Authorized(Run(actions), key, scope, at).Ok?
    ensures var r := Run(actions);
            && ThenApproved(r.transitions, key, at, v, p)
            && Evidenced(r.transitions[v].reason, r.transitions[v].evidence)
            && Evidenced(r.transitions[p].reason, r.transitions[p].evidence)
            && r.models[key].validationDay <= Day(r.transitions[v].at)
            && scope in r.models[key].scopes && Day(at) <= r.models[key].reviewDay
  {
    var r := Run(actions);
    RunKeepsInv(actions);
    StatusGrounded(r.transitions, key, at);
    v, p :| ThenApproved(r.transitions, key, at, v, p);
    assert Lawful(r.transitions, v) && Lawful(r.transitions, p) && Timely(r, r.transitions[v]);
  }

  /** The error for broken histories and the not-yet-validated refusal are never given. */
  lemma NeverHistoryInvalid(actions: seq<Action>, key: string, scope: Scope, at: int)
    ensures Authorized(Run(actions), key, scope, at) != Err(HistoryInvalid)
    ensures Authorized(Run(actions), key, scope, at) != Err(NotYetValidated)
  {
    var r := Run(actions);
    RunKeepsInv(actions);
    if key in r.models {
      StatusGrounded(r.transitions, key, at);
      if StatusAt(r.transitions, key, at) == Ok(Active) {
        var v, p :| ThenApproved(r.transitions, key, at, v, p);
        assert Timely(r, r.transitions[v]);
        DayMonotone(r.transitions[v].at, at);
      }
    }
  }

  lemma DayMonotone(a: int, b: int)
    requires a <= b
    ensures Day(a) <= Day(b)
  {
  }
}
