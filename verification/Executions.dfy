/**
 The execution-to-ledger chain: cumulative broker snapshots become deltas, and each
 delta becomes cash and position postings.  One value `Db` holds the tables; every
 function below is one call of the source, and `None`-or-`Err` results leave the
 tables as they were.
 */
module Executions {
  import opened Common
  import opened Tables
  import opened OrderStates

  /** Why a call raises; one name for each of the source's messages. */
  datatype Refusal =
    | StateReplayConflict | StateReplayNotLatest | InternalStartInvalid | StateTimeReversed
    | TransitionInvalid | OrderMissing | ExecutionValueInvalid | ExecutionIncoherent | FillExceedsOrder
    | SnapshotReplayConflict | SnapshotReplayOutOfOrder | SnapshotRepeatOutOfOrder | ExecutionTimeReversed
    | CumulativeDecrease | DeltaNotPersisted | IdentityIncomplete | IdentityConflict | SettlementConflict
    | CurrencyConflict | SettlementMissing | PostingReplayConflict | TaxLotsReject | FillNotPositive
    | OrderedNotPositive | FilledNotEqualOrdered | PartialNotBelowOrdered | ContextRequired
    | UnknownBrokerState | ReportRequired | ReservationConflict

  /** A `Decimal` keeps its scale: equal values with different scales have different text. */
  datatype Dec = Dec(value: real, places: int)

  /** What a broker response says about an order's fills so far. */
  datatype Report = Report(quantity: Dec, amount: Dec, average: Option<Dec>, commission: Dec, tax: Dec)

  /** The content hash is SHA-256 of the canonical text, taken to be injective: the report itself. */
  datatype Snapshot = Snapshot(sequence: int, report: Report, at: int, source: string, hash: Report)

  datatype Values = Values(quantity: real, amount: real, commission: real, tax: real)

  const ZERO := Values(0.0, 0.0, 0.0, 0.0)

  function ValuesOf(r: Report): Values {
    Values(r.quantity.value, r.amount.value, r.commission.value, r.tax.value)
  }

  function Minus(a: Values, b: Values): Values {
    Values(a.quantity - b.quantity, a.amount - b.amount, a.commission - b.commission, a.tax - b.tax)
  }

  function Plus(a: Values, b: Values): Values {
    Values(a.quantity + b.quantity, a.amount + b.amount, a.commission + b.commission, a.tax + b.tax)
  }

  predicate AtLeast(a: Values, b: Values) {
    a.quantity >= b.quantity && a.amount >= b.amount && a.commission >= b.commission && a.tax >= b.tax
  }

  /** `from` and `to` are snapshot sequence numbers of the same order. */
  datatype Delta = Delta(from: Option<int>, to: int, values: Values, createdAt: int)

  /** Generated ids are fresh; (order, sequence) names a delta and its target snapshot. */
  datatype DeltaId = DeltaId(order: string, sequence: int)

  /** The upper-cased side text; an order's stored payload may leave it out or hold anything else. */
  datatype Side = Buy | Sell | NoSide | OtherSide(text: string)

  datatype TaxPolicy = FifoV1 | OtherPolicy(name: string)

  datatype Context = Context(account: string, instrument: string, side: Side, currency: string,
                             settlement: int, policy: TaxPolicy, fx: Dec)

  /** What `ExecutionPostingContext.__post_init__` lets exist. */
  predicate ContextValid(c: Context) {
    && (c.side.Buy? || c.side.Sell?)
    && c.account != "" && c.instrument != "" && c.currency != ""
    && c.fx.value > 0.0 && c.policy.FifoV1?
  }

  type PostingContext = c: Context | ContextValid(c)
    witness Context("a", "i", Buy, "u", 0, FifoV1, Dec(1.0, 0))

  datatype OrderInfo = OrderInfo(account: string, instrument: string, side: Side, currency: string,
                                 ordered: Option<real>)

  datatype Component = Principal | Commission | Tax

  datatype CashKind = TradeCost | TradeProceeds | CommissionPaid | TaxPaid

  datatype CashEvent = CashEvent(delta: DeltaId, component: Component)

  datatype CashRow = CashRow(event: CashEvent, account: string, currency: string, amount: real,
                             settlement: int, kind: CashKind)

  datatype PositionRow = PositionRow(event: DeltaId, account: string, instrument: string, quantity: real)

  datatype Posting = Posting(cashEvent: Option<CashEvent>, positionEvent: Option<DeltaId>, at: int)

  /** The tables.  `raw` is the settlement date each raw response proves, `openings` the native
      currency of opened positions; neither is written here. */
  datatype Db = Db(
    orders: map<string, OrderInfo>,
    states: seq<Keyed<StateEvent>>,
    snapshots: seq<Keyed<Snapshot>>,
    deltas: seq<Keyed<Delta>>,
    contexts: map<DeltaId, PostingContext>,
    evidence: map<DeltaId, int>,
    components: map<CashEvent, CashEvent>,
    cash: seq<CashRow>,
    positions: seq<PositionRow>,
    positionSettlement: map<DeltaId, int>,
    postings: map<DeltaId, Posting>,
    raw: map<string, int>,
    openings: map<(string, string), string>)

  function StatesOf(db: Db, o: string): seq<StateEvent> { Of(db.states, o) }
  function SnapshotsOf(db: Db, o: string): seq<Snapshot> { Of(db.snapshots, o) }
  function DeltasOf(db: Db, o: string): seq<Delta> { Of(db.deltas, o) }

  // -------------------------------------------------------------- order states

  /** First event of a stream with this evidence, or the length. */
  function FindState(s: seq<StateEvent>, source: Option<string>): (k: nat)
    ensures k <= |s|
    ensures k < |s| ==> s[k].source == source && source.Some?
  {
    if s == [] then 0
    else
      var k := FindState(s[..|s| - 1], source);
      if k < |s| - 1 then k
      else if source.Some? && s[|s| - 1].source == source then |s| - 1 else |s|
  }

  function LastState(s: seq<StateEvent>): Option<OrderState> {
    if s == [] then None else Some(s[|s| - 1].state)
  }

  function NextEvent(s: seq<StateEvent>, state: OrderState, at: int, source: Option<string>, reason: Option<string>): StateEvent {
    StateEvent(|s| + 1, LastState(s), state, at, source, reason)
  }

  /** What `append` decides from one order's stream: refuse, find the event replayed, or insert it. */
  function DecideState(s: seq<StateEvent>, state: OrderState, at: int, source: Option<string>,
                       reason: Option<string>, external: bool): Result<bool, Refusal>
  {
    var k := FindState(s, source);
    if k < |s| then
      if s[k].state != state || s[k].at != at || s[k].reason != reason then
        Err(StateReplayConflict)
      else if k != |s| - 1 then Err(StateReplayNotLatest)
      else Ok(false)
    else if s == [] && !external && state != Planned && state != Submitting then
      Err(InternalStartInvalid)
    else if s != [] && at < s[|s| - 1].at then Err(StateTimeReversed)
    else if !Allowed(LastState(s), state) then Err(TransitionInvalid)
    else Ok(true)
  }

  /** `OrderStateRepository.append` */
  function AppendState(db: Db, order: string, state: OrderState, at: int, source: Option<string>,
                       reason: Option<string>, external: bool): Result<Db, Refusal>
  {
    var s := StatesOf(db, order);
    var decision := DecideState(s, state, at, source, reason, external);
    if decision.Err? then Err(decision.reason)
    else if !decision.value then Ok(db)
    else if order !in db.orders then Err(OrderMissing)
    else Ok(db.(states := db.states + [Keyed(order, NextEvent(s, state, at, source, reason))]))
  }

  // ---------------------------------------------------------- execution snapshots

  predicate NonNegative(r: Report) {
    && r.quantity.value >= 0.0 && r.amount.value >= 0.0 && r.commission.value >= 0.0 && r.tax.value >= 0.0
    && (r.average.Some? ==> r.average.value.value >= 0.0)
  }

  predicate Coherent(r: Report) {
    if r.quantity.value == 0.0
    then r.amount.value == 0.0 && (r.average.Some? ==> r.average.value.value == 0.0)
    else r.amount.value > 0.0 && r.average.Some? && r.average.value.value > 0.0
  }

  /** What a lookup of a stored snapshot goes by: its raw response, or its content. */
  datatype Trace = BySource(source: string) | ByContent(hash: Report)

  predicate Bears(e: Snapshot, t: Trace) {
    match t
    case BySource(source) => e.source == source
    case ByContent(hash) => e.hash == hash
  }

  /** First snapshot of a stream with this trace, or the length. */
  function FindSnapshot(e: seq<Snapshot>, t: Trace): (k: nat)
    ensures k <= |e|
    ensures k < |e| ==> Bears(e[k], t)
  {
    if e == [] then 0
    else
      var k := FindSnapshot(e[..|e| - 1], t);
      if k < |e| - 1 then k else if Bears(e[|e| - 1], t) then |e| - 1 else |e|
  }

  /** Cumulative values before a new snapshot: the latest, or zero. */
  function Latest(e: seq<Snapshot>): Values {
    if e == [] then ZERO else ValuesOf(e[|e| - 1].report)
  }

  function NextDelta(e: seq<Snapshot>, r: Report, at: int): Delta {
    Delta(if e == [] then None else Some(|e|), |e| + 1, Minus(ValuesOf(r), Latest(e)), at)
  }

  function InsertSnapshot(db: Db, order: string, r: Report, at: int, source: string): Db {
    var e := SnapshotsOf(db, order);
    db.(snapshots := db.snapshots + [Keyed(order, Snapshot(|e| + 1, r, at, source, r))],
        deltas := db.deltas + [Keyed(order, NextDelta(e, r, at))])
  }

  /** `ExecutionSnapshotRepository.append`: the flag says whether a new snapshot was inserted;
      either way the order's latest snapshot is the one returned. */
  function AppendSnapshot(db: Db, order: string, r: Report, at: int, source: string): Result<(Db, bool), Refusal> {
    var e := SnapshotsOf(db, order);
    var bySource, byContent := FindSnapshot(e, BySource(source)), FindSnapshot(e, ByContent(r));
    if !NonNegative(r) then Err(ExecutionValueInvalid)
    else if !Coherent(r) then Err(ExecutionIncoherent)
    else if order !in db.orders then Err(OrderMissing)
    else if db.orders[order].ordered.Some? && r.quantity.value > db.orders[order].ordered.value then
      Err(FillExceedsOrder)
    else if bySource < |e| then
      if e[bySource].hash != r || e[bySource].at != at then
        Err(SnapshotReplayConflict)
      else if bySource != |e| - 1 then Err(SnapshotReplayOutOfOrder)
      else Ok((db, false))
    else if byContent < |e| then
      if byContent != |e| - 1 then Err(SnapshotRepeatOutOfOrder)
      else Ok((db, false))
    else if e != [] && at < e[|e| - 1].at then Err(ExecutionTimeReversed)
    else if !AtLeast(ValuesOf(r), Latest(e)) then Err(CumulativeDecrease)
    else Ok((InsertSnapshot(db, order, r, at, source), true))
  }

  // -------------------------------------------------------------------- posting

  /** The signed amount of one cash component of a delta. */
  function AmountOf(c: Component, v: Values, side: Side): real {
    match c
    case Principal => if side.Buy? then -v.amount else v.amount
    case Commission => -v.commission
    case Tax => -v.tax
  }

  function KindOf(c: Component, side: Side): CashKind {
    match c
    case Principal => if side.Buy? then TradeCost else TradeProceeds
    case Commission => CommissionPaid
    case Tax => TaxPaid
  }

  function CashDelta(v: Values, side: Side): real {
    (if side.Buy? then -v.amount else v.amount) - v.commission - v.tax
  }

  function QuantityDelta(v: Values, side: Side): real {
    if side.Buy? then v.quantity else -v.quantity
  }

  predicate HasEffect(v: Values) { v != ZERO }

  /** The rows a component contributes: none when its amount is zero. */
  function CashRows(id: DeltaId, v: Values, ctx: PostingContext, c: Component): seq<CashRow> {
    if AmountOf(c, v, ctx.side) == 0.0 then []
    else [CashRow(CashEvent(id, c), ctx.account, ctx.currency, AmountOf(c, v, ctx.side), ctx.settlement, KindOf(c, ctx.side))]
  }

  function AddComponent(m: map<CashEvent, CashEvent>, id: DeltaId, v: Values, side: Side, c: Component): map<CashEvent, CashEvent> {
    if AmountOf(c, v, side) == 0.0 then m else m[CashEvent(id, c) := CashEvent(id, c)]
  }

  /** Everything `post` writes under its savepoint. */
  function WritePosting(db: Db, id: DeltaId, v: Values, ctx: PostingContext, at: int): Db {
    var moved := QuantityDelta(v, ctx.side) != 0.0;
    db.(contexts := db.contexts[id := ctx],
        evidence := db.evidence[id := ctx.settlement],
        components := AddComponent(AddComponent(AddComponent(db.components, id, v, ctx.side, Principal),
                                                id, v, ctx.side, Commission), id, v, ctx.side, Tax),
        cash := db.cash + CashRows(id, v, ctx, Principal) + CashRows(id, v, ctx, Commission) + CashRows(id, v, ctx, Tax),
        positions := if moved then db.positions + [PositionRow(id, ctx.account, ctx.instrument, QuantityDelta(v, ctx.side))]
                     else db.positions,
        positionSettlement := if moved then db.positionSettlement[id := ctx.settlement] else db.positionSettlement,
        postings := db.postings[id := Posting(if v.amount != 0.0 then Some(CashEvent(id, Principal)) else None,
                                              if moved then Some(id) else None, at)])
  }

  predicate IdentityComplete(o: OrderInfo) { o.instrument != "" && !o.side.NoSide? && o.currency != "" }

  predicate IdentityMatches(o: OrderInfo, ctx: Context) {
    o.account == ctx.account && o.instrument == ctx.instrument && o.side == ctx.side && o.currency == ctx.currency
  }

  /** The raw response behind a delta's snapshot proves this settlement date. */
  predicate Settles(db: Db, id: DeltaId, date: int) {
    var e := SnapshotsOf(db, id.order);
    && 1 <= id.sequence <= |e|
    && e[id.sequence - 1].source in db.raw
    && db.raw[e[id.sequence - 1].source] == date
  }

  /** `ExecutionLedgerPoster.post`; `lots` says whether the tax-lot ledger accepted the movement. */
  function Post(db: Db, id: DeltaId, ctx: PostingContext, at: int, lots: bool): Result<Db, Refusal> {
    var d := DeltasOf(db, id.order);
    if id.order !in db.orders || !(1 <= id.sequence <= |d|) then Err(DeltaNotPersisted)
    else
      var v := d[id.sequence - 1].values;
      var info := db.orders[id.order];
      if !IdentityComplete(info) then Err(IdentityIncomplete)
      else if !IdentityMatches(info, ctx) then Err(IdentityConflict)
      else if !Settles(db, id, ctx.settlement) then Err(SettlementConflict)
      else if (ctx.account, ctx.instrument) in db.openings && db.openings[(ctx.account, ctx.instrument)] != ctx.currency then
        Err(CurrencyConflict)
      else if id in db.postings then
        if id !in db.evidence || db.evidence[id] != ctx.settlement then Err(SettlementMissing)
        else if id !in db.contexts || db.contexts[id] != ctx then
          Err(PostingReplayConflict)
        else Ok(db)
      else if QuantityDelta(v, ctx.side) != 0.0 && !lots then Err(TaxLotsReject)
      else Ok(WritePosting(db, id, v, ctx, at))
  }

  // ---------------------------------------------------------------- observation

  /** One call of `observe`.  `lots` and `release` are the answers of the tax-lot ledger and of the
      reservation release, both outside this model. */
  datatype Observation = Observation(order: string, raw: string, at: int, source: string, report: Option<Report>,
                                     context: Option<PostingContext>, lots: bool, release: bool)

  function UnknownReason(obs: Observation): Option<string> {
    if Normalize(obs.raw) == Unknown then Some("unknown broker order state: " + obs.raw) else None
  }

  /** The checks between a fill-bearing state and its snapshot. */
  function FillCheck(state: OrderState, quantity: real, ordered: Option<real>): Option<Refusal> {
    if (state == Filled || state == PartiallyFilled) && quantity <= 0.0 then Some(FillNotPositive)
    else if ordered.None? then None
    else if ordered.value <= 0.0 then Some(OrderedNotPositive)
    else if state == Filled && quantity != ordered.value then Some(FilledNotEqualOrdered)
    else if state == PartiallyFilled && quantity >= ordered.value then
      Some(PartialNotBelowOrdered)
    else None
  }

  /** The part of `observe` after the snapshot is in: check the fill against the order, then post
      the newest delta (`delta or delta_for_snapshot(snapshot)` is that delta either way). */
  function PostNewest(db: Db, obs: Observation): Result<Db, Refusal> {
    var e, d := SnapshotsOf(db, obs.order), DeltasOf(db, obs.order);
    if e == [] || d == [] || obs.order !in db.orders then Err(OrderMissing)
    else
      var check := FillCheck(Normalize(obs.raw), ValuesOf(e[|e| - 1].report).quantity, db.orders[obs.order].ordered);
      if check.Some? then Err(check.value)
      else if HasEffect(d[|d| - 1].values) && obs.context.None? then
        Err(ContextRequired)
      else if obs.context.None? then Ok(db)
      else Post(db, DeltaId(obs.order, d[|d| - 1].to), obs.context.value, obs.at, obs.lots)
  }

  /** The part of `observe` inside its savepoint that handles an execution report. */
  function ObserveReport(db: Db, obs: Observation): Result<Db, Refusal>
    requires obs.report.Some?
  {
    var appended := AppendSnapshot(db, obs.order, obs.report.value, obs.at, obs.source);
    if appended.Err? then Err(appended.reason) else PostNewest(appended.value.0, obs)
  }

  /** `OrderObservationService.observe`: an unknown state is kept as evidence and raised; anything
      else either happens completely or leaves the tables untouched. */
  function Observe(db: Db, obs: Observation): (Db, Result<OrderState, Refusal>) {
    var state := Normalize(obs.raw);
    var stated := AppendState(db, obs.order, state, obs.at, Some(obs.source), UnknownReason(obs), true);
    if state == Unknown then
      (if stated.Ok? then stated.value else db, Err(if stated.Ok? then UnknownBrokerState else stated.reason))
    else if (state == PartiallyFilled || state == Filled) && (obs.report.None? || obs.context.None?) then
      (db, Err(ReportRequired))
    else if stated.Err? then (db, Err(stated.reason))
    else
      var done := if obs.report.None? then Ok(stated.value) else ObserveReport(stated.value, obs);
      if done.Err? then (db, Err(done.reason))
      else if Terminal(state) && !obs.release then (db, Err(ReservationConflict))
      else (done.value, Ok(state))
  }
}
