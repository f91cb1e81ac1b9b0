/**
 The risk governor: raised flags become a decision with an exposure multiplier, a decision authorizes orders only
 through the governor that issued it, and an approved decision rescales the portfolio target.  A digest is the value
 it digests.
 */
module Governor {
  import opened Common
  import opened Sums

  datatype Flag =
    // hard blocks
    | ReconciliationFailed | OrderStateUnknown | InitialCashUnconfirmed | SnapshotMissing | ClockRisk | PriceStale
    | DataConflict | RiskModelFailed | OptimizerInfeasible | PolicyMismatch | DuplicateIntent | KillSwitch
    | ModeUnauthorized | EventRiskBlocked
    // abstentions and deferral
    | EvidenceInsufficient | DataStale | InsufficientCash | CostExceedsBenefit | DeferExecution
    // soft reductions
    | VolatilityHigh | LowConfidence | EventRiskRaised | SectorConcentrated | FactorConcentrated | SpreadHigh
    | TurnoverHigh | RegimeUncertain | RiskEstimateUncertain

  /** Reasons are named after the flag that raises them, except that both event flags give one reason. */
  datatype Reason = EventRiskHigh | ExecutionDeferred | Because(flag: Flag)

  /** The flags that block, abstain and reduce, in order of report.  What follows holds of any such tables. */
  datatype Tables = Tables(hard: seq<Flag>, abstain: seq<Flag>, soft: seq<Flag>)

  const SOURCE_TABLES := Tables(
    [ReconciliationFailed, OrderStateUnknown, InitialCashUnconfirmed, SnapshotMissing, ClockRisk, PriceStale,
     DataConflict, RiskModelFailed, OptimizerInfeasible, PolicyMismatch, DuplicateIntent, KillSwitch,
     ModeUnauthorized, EventRiskBlocked],
    [EvidenceInsufficient, DataStale, InsufficientCash, CostExceedsBenefit],
    [VolatilityHigh, LowConfidence, EventRiskRaised, SectorConcentrated, FactorConcentrated, SpreadHigh,
     TurnoverHigh, RegimeUncertain, RiskEstimateUncertain])

  function ReasonOf(f: Flag): Reason {
    if f.EventRiskBlocked? || f.EventRiskRaised? then EventRiskHigh else Because(f)
  }

  datatype Policy = Policy(version: string, multipliers: map<Reason, real>, cash: string)

  /** What `RiskGovernorPolicy` admits: one multiplier strictly between zero and one per soft condition. */
  ghost predicate Admitted(t: Tables, p: Policy) {
    && (forall r :: r in p.multipliers <==> exists f :: f in t.soft && ReasonOf(f) == r)
    && (forall r :: r in p.multipliers ==> 0.0 < p.multipliers[r] < 1.0)
    && !Blank(p.cash)
  }

  datatype Inputs = Inputs(run: string, targetId: string, target: map<string, real>, policyVersion: string,
                           flags: set<Flag>)

  datatype State = Allow | Reduce | Block | Abstain | Defer

  datatype Verdict = Verdict(state: State, multiplier: real, reasons: seq<Reason>)

  predicate Approves(v: Verdict) { v.state.Allow? || v.state.Reduce? }

  /** The raised flags of a table, as reasons in the table's order. */
  function Raised(table: seq<Flag>, flags: set<Flag>): seq<Reason>
    decreases |table|
  {
    if table == [] then []
    else (if table[0] in flags then [ReasonOf(table[0])] else []) + Raised(table[1..], flags)
  }

  function LeastMultiplier(p: Policy, reasons: seq<Reason>): real
    requires reasons != [] && forall r :: r in reasons ==> r in p.multipliers
    decreases |reasons|
  {
    if |reasons| == 1 then p.multipliers[reasons[0]]
    else MinReal(p.multipliers[reasons[0]], LeastMultiplier(p, reasons[1..]))
  }

  ghost predicate AnyRaised(table: seq<Flag>, flags: set<Flag>) {
    exists f :: f in table && f in flags
  }

  lemma {:induction false} RaisedHolds(table: seq<Flag>, flags: set<Flag>, r: Reason)
    ensures r in Raised(table, flags) <==> exists f :: f in table && f in flags && ReasonOf(f) == r
    decreases |table|
  {
    if table != [] {
      RaisedHolds(table[1..], flags, r);
      assert table == [table[0]] + table[1..];
    }
  }

  lemma RaisedEmpty(table: seq<Flag>, flags: set<Flag>)
    ensures Raised(table, flags) == [] <==> !AnyRaised(table, flags)
  {
    if Raised(table, flags) != [] {
      RaisedHolds(table, flags, Raised(table, flags)[0]);
    } else if AnyRaised(table, flags) {
      var f :| f in table && f in flags;
      RaisedHolds(table, flags, ReasonOf(f));
      assert false;
    }
  }

  lemma SoftHaveMultipliers(t: Tables, p: Policy, flags: set<Flag>)
    requires Admitted(t, p)
    ensures forall r :: r in Raised(t.soft, flags) ==> r in p.multipliers
  {
    forall r | r in Raised(t.soft, flags) ensures r in p.multipliers { RaisedHolds(t.soft, flags, r); }
  }

  function HardReasons(t: Tables, p: Policy, i: Inputs): seq<Reason> {
    var hard := Raised(t.hard, i.flags);
    hard + if i.policyVersion != p.version && Because(PolicyMismatch) !in hard then [Because(PolicyMismatch)] else []
  }

  /** The cascade, given what each table raises. */
  function Choose(p: Policy, hard: seq<Reason>, abstain: seq<Reason>, defer: bool, eventRisk: bool, soft: seq<Reason>): Verdict
    requires forall r :: r in soft ==> r in p.multipliers
  {
    if hard != [] then Verdict(Block, 0.0, hard)
    else if abstain != [] then Verdict(Abstain, 0.0, abstain)
    else if defer then Verdict(Defer, 0.0, [ExecutionDeferred] + if eventRisk then [EventRiskHigh] else [])
    else if soft != [] then Verdict(Reduce, LeastMultiplier(p, soft), soft)
    else Verdict(Allow, 1.0, [])
  }

  function Decide(t: Tables, p: Policy, i: Inputs): Verdict
    requires Admitted(t, p)
  {
    SoftHaveMultipliers(t, p, i.flags);
    Choose(p, HardReasons(t, p, i), Raised(t.abstain, i.flags), DeferExecution in i.flags, EventRiskRaised in i.flags,
           Raised(t.soft, i.flags))
  }

  lemma {:induction false} LeastIsLeast(p: Policy, reasons: seq<Reason>)
    requires reasons != [] && forall r :: r in reasons ==> r in p.multipliers
    ensures forall r :: r in reasons ==> LeastMultiplier(p, reasons) <= p.multipliers[r]
    ensures exists r :: r in reasons && LeastMultiplier(p, reasons) == p.multipliers[r]
    decreases |reasons|
  {
    if |reasons| == 1 {
      assert reasons[0] in reasons;
    } else {
      var rest := reasons[1..];
      LeastIsLeast(p, rest);
      assert reasons == [reasons[0]] + rest;
      var r :| r in rest && LeastMultiplier(p, rest) == p.multipliers[r];
      assert r in reasons && reasons[0] in reasons;
    }
  }

  /** The verdict without its reasons: which flags refuse, and what the multiplier is. */
  ghost predicate Refused(t: Tables, p: Policy, i: Inputs) {
    || AnyRaised(t.hard, i.flags) || i.policyVersion != p.version
    || AnyRaised(t.abstain, i.flags) || DeferExecution in i.flags
  }

  lemma HardMeaning(t: Tables, p: Policy, i: Inputs)
    ensures HardReasons(t, p, i) != [] <==> AnyRaised(t.hard, i.flags) || i.policyVersion != p.version
  {
    RaisedEmpty(t.hard, i.flags);
  }

  lemma ChooseMeaning(p: Policy, hard: seq<Reason>, abstain: seq<Reason>, defer: bool, eventRisk: bool, soft: seq<Reason>)
    requires forall r :: r in soft ==> r in p.multipliers && 0.0 < p.multipliers[r] < 1.0
    ensures var v := Choose(p, hard, abstain, defer, eventRisk, soft);
            var refused := hard != [] || abstain != [] || defer;
            && (Approves(v) <==> !refused)
            && (refused ==> v.multiplier == 0.0)
            && (!refused && soft == [] ==> v.multiplier == 1.0)
            && (!refused && soft != [] ==> LeastOf(p, soft, v.multiplier))
  {
    if soft != [] { LeastIsLeast(p, soft); }
  }

  /** `m` is the least multiplier among the reasons. */
  ghost predicate LeastOf(p: Policy, reasons: seq<Reason>, m: real) {
    && (exists r :: r in reasons && r in p.multipliers && m == p.multipliers[r])
    && (forall r :: r in reasons ==> r in p.multipliers && m <= p.multipliers[r])
  }

  /** An approval is exactly the absence of every refusing flag; the multiplier is zero for a refusal, one for no
      reduction, and otherwise the least multiplier of a raised soft condition. */
  lemma DecideMeaning(t: Tables, p: Policy, i: Inputs)
    requires Admitted(t, p)
    ensures var v := Decide(t, p, i);
            && (Approves(v) <==> !Refused(t, p, i))
            && (Refused(t, p, i) ==> v.multiplier == 0.0)
            && (!Refused(t, p, i) && !AnyRaised(t.soft, i.flags) ==> v.multiplier == 1.0)
            && (!Refused(t, p, i) && AnyRaised(t.soft, i.flags) ==> LeastOf(p, Raised(t.soft, i.flags), v.multiplier))
  {
    HardMeaning(t, p, i);
    RaisedEmpty(t.abstain, i.flags);
    RaisedEmpty(t.soft, i.flags);
    SoftHaveMultipliers(t, p, i.flags);
    ChooseMeaning(p, HardReasons(t, p, i), Raised(t.abstain, i.flags), DeferExecution in i.flags, EventRiskRaised in i.flags,
                  Raised(t.soft, i.flags));
  }

  /** The reason a flag is reported under: its own, except that both event flags are reported as event risk. */
  ghost predicate Names(r: Reason, f: Flag) {
    if f == EventRiskBlocked || f == EventRiskRaised then r == EventRiskHigh else r == Because(f)
  }

  ghost predicate NamesRaised(r: Reason, table: seq<Flag>, flags: set<Flag>) {
    exists f :: f in table && f in flags && Names(r, f)
  }

  lemma RaisedNames(table: seq<Flag>, flags: set<Flag>, r: Reason)
    ensures r in Raised(table, flags) <==> NamesRaised(r, table, flags)
  {
    RaisedHolds(table, flags, r);
    forall f ensures ReasonOf(f) == r <==> Names(r, f) {}
  }

  /** Which verdict the flags get: a block before an abstention, that before a deferral, that before a reduction. */
  ghost predicate Ranked(t: Tables, p: Policy, i: Inputs, s: State) {
    var hard, abstain := AnyRaised(t.hard, i.flags) || i.policyVersion != p.version, AnyRaised(t.abstain, i.flags);
    match s
    case Block => hard
    case Abstain => !hard && abstain
    case Defer => !hard && !abstain && DeferExecution in i.flags
    case Reduce => !hard && !abstain && DeferExecution !in i.flags && AnyRaised(t.soft, i.flags)
    case Allow => !hard && !abstain && DeferExecution !in i.flags && !AnyRaised(t.soft, i.flags)
  }

  /** The reasons given for it: exactly the conditions of its kind that are raised. */
  ghost predicate Explained(t: Tables, p: Policy, i: Inputs, v: Verdict, r: Reason) {
    r in v.reasons <==>
      match v.state
      case Block => NamesRaised(r, t.hard, i.flags) || (i.policyVersion != p.version && r == Because(PolicyMismatch))
      case Abstain => NamesRaised(r, t.abstain, i.flags)
      case Defer => r == ExecutionDeferred || (r == EventRiskHigh && EventRiskRaised in i.flags)
      case Reduce => NamesRaised(r, t.soft, i.flags)
      case Allow => false
  }

  /** Every verdict is the one its flags rank, and gives as its reasons just the raised conditions of that kind. */
  lemma DecideExplains(t: Tables, p: Policy, i: Inputs, r: Reason)
    requires Admitted(t, p)
    ensures Ranked(t, p, i, Decide(t, p, i).state) && Explained(t, p, i, Decide(t, p, i), r)
  {
    HardMeaning(t, p, i);
    RaisedEmpty(t.abstain, i.flags);
    RaisedEmpty(t.soft, i.flags);
    RaisedNames(t.hard, i.flags, r);
    RaisedNames(t.abstain, i.flags, r);
    RaisedNames(t.soft, i.flags, r);
    ChoiceExplains(t, p, i, r);
  }

  lemma ChoiceExplains(t: Tables, p: Policy, i: Inputs, r: Reason)
    requires Admitted(t, p)
    requires HardReasons(t, p, i) != [] <==> AnyRaised(t.hard, i.flags) || i.policyVersion != p.version
    requires Raised(t.abstain, i.flags) == [] <==> !AnyRaised(t.abstain, i.flags)
    requires Raised(t.soft, i.flags) == [] <==> !AnyRaised(t.soft, i.flags)
    requires r in Raised(t.hard, i.flags) <==> NamesRaised(r, t.hard, i.flags)
    requires r in Raised(t.abstain, i.flags) <==> NamesRaised(r, t.abstain, i.flags)
    requires r in Raised(t.soft, i.flags) <==> NamesRaised(r, t.soft, i.flags)
    ensures Ranked(t, p, i, Decide(t, p, i).state) && Explained(t, p, i, Decide(t, p, i), r)
  {
  }

  /** The multiplier of a reduction is the least one of a raised condition. */
  lemma ReductionIsLeast(t: Tables, p: Policy, i: Inputs, f: Flag, r: Reason)
    requires Admitted(t, p) && Decide(t, p, i).state == Reduce && f in t.soft && f in i.flags && Names(r, f)
    ensures r in p.multipliers && Decide(t, p, i).multiplier <= p.multipliers[r]
    ensures exists g, q :: g in t.soft && g in i.flags && Names(q, g) && q in p.multipliers && Decide(t, p, i).multiplier == p.multipliers[q]
  {
    DecideMeaning(t, p, i);
    RaisedNames(t.soft, i.flags, r);
    var q :| q in Raised(t.soft, i.flags) && q in p.multipliers && Decide(t, p, i).multiplier == p.multipliers[q];
    RaisedNames(t.soft, i.flags, q);
  }

  lemma RefusalMonotone(t: Tables, p: Policy, a: Inputs, b: Inputs)
    requires a.flags <= b.flags && a.policyVersion == b.policyVersion && Refused(t, p, a)
    ensures Refused(t, p, b)
  {
    if AnyRaised(t.hard, a.flags) { var f :| f in t.hard && f in a.flags; assert f in b.flags; }
    if AnyRaised(t.abstain, a.flags) { var f :| f in t.abstain && f in a.flags; assert f in b.flags; }
  }

  lemma LeastMonotone(t: Tables, p: Policy, a: set<Flag>, b: set<Flag>, m: real, n: real)
    requires a <= b && LeastOf(p, Raised(t.soft, a), m) && LeastOf(p, Raised(t.soft, b), n)
    ensures n <= m
  {
    var r :| r in Raised(t.soft, a) && r in p.multipliers && m == p.multipliers[r];
    RaisedHolds(t.soft, a, r);
    RaisedHolds(t.soft, b, r);
  }

  /** Raising more flags never raises the multiplier and never turns a refusal into an approval. */
  lemma MoreFlagsNeverLoosen(t: Tables, p: Policy, a: Inputs, b: Inputs)
    requires Admitted(t, p) && a.flags <= b.flags && a.policyVersion == b.policyVersion
    ensures Decide(t, p, b).multiplier <= Decide(t, p, a).multiplier
    ensures Approves(Decide(t, p, b)) ==> Approves(Decide(t, p, a))
  {
    DecideMeaning(t, p, a);
    DecideMeaning(t, p, b);
    if Refused(t, p, a) {
      RefusalMonotone(t, p, a, b);
    } else if !Refused(t, p, b) && AnyRaised(t.soft, a.flags) {
      var f :| f in t.soft && f in a.flags;
      assert f in b.flags;
      LeastMonotone(t, p, a.flags, b.flags, Decide(t, p, a).multiplier, Decide(t, p, b).multiplier);
    }
  }

  lemma MultiplierIsFraction(t: Tables, p: Policy, i: Inputs)
    requires Admitted(t, p)
    ensures 0.0 <= Decide(t, p, i).multiplier <= 1.0
    ensures Approves(Decide(t, p, i)) ==> 0.0 < Decide(t, p, i).multiplier
  {
    DecideMeaning(t, p, i);
  }

  // ------------------------------------------------------------------- the source's own tables

  /** A table lists what it should: every listed flag belongs, and every flag that belongs has its place. */
  ghost predicate Listed(table: seq<Flag>, belongs: Flag -> bool, place: Flag -> int) {
    && (forall i :: 0 <= i < |table| ==> belongs(table[i]))
    && (forall f :: belongs(f) ==> 0 <= place(f) < |table| && table[place(f)] == f)
  }

  lemma ListedHolds(table: seq<Flag>, belongs: Flag -> bool, place: Flag -> int, f: Flag)
    requires Listed(table, belongs, place)
    ensures f in table <==> belongs(f)
  {
  }

  function SoftPlace(f: Flag): int {
    match f
    case VolatilityHigh => 0
    case LowConfidence => 1
    case EventRiskRaised => 2
    case SectorConcentrated => 3
    case FactorConcentrated => 4
    case SpreadHigh => 5
    case TurnoverHigh => 6
    case RegimeUncertain => 7
    case RiskEstimateUncertain => 8
    case _ => -1
  }

  function AbstainPlace(f: Flag): int {
    match f
    case EvidenceInsufficient => 0
    case DataStale => 1
    case InsufficientCash => 2
    case CostExceedsBenefit => 3
    case _ => -1
  }

  function HardPlace(f: Flag): int {
    match f
    case ReconciliationFailed => 0
    case OrderStateUnknown => 1
    case InitialCashUnconfirmed => 2
    case SnapshotMissing => 3
    case ClockRisk => 4
    case PriceStale => 5
    case DataConflict => 6
    case RiskModelFailed => 7
    case OptimizerInfeasible => 8
    case PolicyMismatch => 9
    case DuplicateIntent => 10
    case KillSwitch => 11
    case ModeUnauthorized => 12
    case EventRiskBlocked => 13
    case _ => -1
  }

  /** A flag that only reduces. */
  predicate Reduces(f: Flag) { SoftPlace(f) >= 0 }

  lemma SoftBelong()
    ensures var table := SOURCE_TABLES.soft; forall i :: 0 <= i < |table| ==> SoftPlace(table[i]) >= 0
  {
  }

  lemma SoftHavePlaces()
    ensures var table := SOURCE_TABLES.soft; forall f :: SoftPlace(f) >= 0 ==> SoftPlace(f) < |table| && table[SoftPlace(f)] == f
  {
  }

  lemma SoftListed()
    ensures Listed(SOURCE_TABLES.soft, (f: Flag) => SoftPlace(f) >= 0, SoftPlace)
  {
    SoftBelong();
    SoftHavePlaces();
  }

  lemma AbstainListed()
    ensures Listed(SOURCE_TABLES.abstain, (f: Flag) => AbstainPlace(f) >= 0, AbstainPlace)
  {
  }

  lemma HardListed()
    ensures Listed(SOURCE_TABLES.hard, (f: Flag) => HardPlace(f) >= 0, HardPlace)
  {
  }

  lemma SourceSoft(f: Flag)
    ensures f in SOURCE_TABLES.soft <==> Reduces(f)
  {
    SoftListed();
    ListedHolds(SOURCE_TABLES.soft, (g: Flag) => SoftPlace(g) >= 0, SoftPlace, f);
  }

  lemma SourceRefusing(f: Flag)
    ensures f in SOURCE_TABLES.hard || f in SOURCE_TABLES.abstain || f == DeferExecution <==> !Reduces(f)
  {
    AbstainListed();
    HardListed();
  }

  lemma SourceAbstains(f: Flag)
    ensures f in SOURCE_TABLES.abstain <==> f in {EvidenceInsufficient, DataStale, InsufficientCash, CostExceedsBenefit}
  {
    AbstainListed();
    ListedHolds(SOURCE_TABLES.abstain, (g: Flag) => AbstainPlace(g) >= 0, AbstainPlace, f);
  }

  /** At the source's own tables an approval means exactly that the policy version is current and every raised flag is
      one of the soft reductions. */
  lemma SourceApprovesIff(p: Policy, i: Inputs)
    requires Admitted(SOURCE_TABLES, p)
    ensures Approves(Decide(SOURCE_TABLES, p, i)) <==> i.policyVersion == p.version && forall f :: f in i.flags ==> f in SOURCE_TABLES.soft
    ensures var reductions := {VolatilityHigh, LowConfidence, EventRiskRaised, SectorConcentrated, FactorConcentrated,
                               SpreadHigh, TurnoverHigh, RegimeUncertain, RiskEstimateUncertain};
            Approves(Decide(SOURCE_TABLES, p, i)) <==> i.policyVersion == p.version && i.flags <= reductions
  {
    DecideMeaning(SOURCE_TABLES, p, i);
    RefusedAtSource(SOURCE_TABLES, p, i);
    forall f | f in i.flags ensures f in SOURCE_TABLES.soft <==> Reduces(f) { SourceSoft(f); }
  }

  lemma RefusedAtSource(t: Tables, p: Policy, i: Inputs)
    requires t == SOURCE_TABLES
    ensures Refused(t, p, i) <==> i.policyVersion != p.version || exists f :: f in i.flags && !Reduces(f)
  {
    forall f ensures f in t.hard || f in t.abstain || f == DeferExecution <==> !Reduces(f) { SourceRefusing(f); }
    if exists f :: f in i.flags && !Reduces(f) {
      var f :| f in i.flags && !Reduces(f);
      assert f in t.hard || f in t.abstain || f == DeferExecution;
    }
  }

  /** A policy for those tables exists: one multiplier for each of the nine reasons. */
  lemma SourcePolicyExists(version: string)
    ensures exists p :: Admitted(SOURCE_TABLES, p) && p.version == version
  {
    var reasons := set f: Flag | f in SOURCE_TABLES.soft :: ReasonOf(f);
    var p := Policy(version, map r | r in reasons :: 0.5, ['C']);
    assert p.cash[0] == 'C';
    assert Admitted(SOURCE_TABLES, p);
  }
}
