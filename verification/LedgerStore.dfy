/** The repositories as the source writes them: rows inserted into shared tables, with savepoints. */
module LedgerStore {
  import opened Common
  import opened Tables
  import opened OrderStates
  import opened Executions

  /** What `post` answers with: the rows it made, then or on the first call, and the signed movements. */
  datatype Posted = Posted(cashEvent: Option<CashEvent>, positionEvent: Option<DeltaId>, cash: real, quantity: real)

  /** One connection shared by the order-state, execution-snapshot and posting repositories. */
  class LedgerConnection {
    var db: Db

    constructor (db: Db)
      ensures this.db == db
    {
      this.db := db;
    }

    /** `OrderStateRepository.append` */
    method AppendStateEvent(order: string, state: OrderState, at: int, source: Option<string>,
                            reason: Option<string>, external: bool) returns (r: Result<StateEvent, Refusal>)
      modifies this
      ensures r.Ok? ==> AppendState(old(db), order, state, at, source, reason, external) == Ok(db)
      ensures r.Ok? ==> StatesOf(db, order) != [] && r.value == StatesOf(db, order)[|StatesOf(db, order)| - 1]
      ensures r.Err? ==> AppendState(old(db), order, state, at, source, reason, external) == Err(r.reason) && db == old(db)
    {
      var s := StatesOf(db, order);
      var decision := DecideState(s, state, at, source, reason, external);
      if decision.Err? { return Err(decision.reason); }
      if !decision.value { return Ok(s[|s| - 1]); }
      if order !in db.orders { return Err(OrderMissing); }
      var event := NextEvent(s, state, at, source, reason);
      OfAppend(db.states, Keyed(order, event), order);
      db := db.(states := db.states + [Keyed(order, event)]);
      r := Ok(event);
    }

    /** `ExecutionSnapshotRepository.append` */
    method AppendExecution(order: string, report: Report, at: int, source: string) returns (r: Result<bool, Refusal>)
      modifies this
      ensures var spec := AppendSnapshot(old(db), order, report, at, source);
              && (r.Ok? ==> spec == Ok((db, r.value)))
              && (r.Err? ==> spec == Err(r.reason) && db == old(db))
    {
      if !NonNegative(report) { return Err(ExecutionValueInvalid); }
      if !Coherent(report) { return Err(ExecutionIncoherent); }
      if order !in db.orders { return Err(OrderMissing); }
      var ordered := db.orders[order].ordered;
      if ordered.Some? && report.quantity.value > ordered.value { return Err(FillExceedsOrder); }
      var e := SnapshotsOf(db, order);
      var bySource := FindSnapshot(e, BySource(source));
      if bySource < |e| {
        if e[bySource].hash != report || e[bySource].at != at {
          return Err(SnapshotReplayConflict);
        }
        if bySource != |e| - 1 { return Err(SnapshotReplayOutOfOrder); }
        return Ok(false);
      }
      var byContent := FindSnapshot(e, ByContent(report));
      if byContent < |e| {
        if byContent != |e| - 1 { return Err(SnapshotRepeatOutOfOrder); }
        return Ok(false);
      }
      var before := ZERO;
      if |e| > 0 {
        if at < e[|e| - 1].at { return Err(ExecutionTimeReversed); }
        before := ValuesOf(e[|e| - 1].report);
      }
      if !AtLeast(ValuesOf(report), before) { return Err(CumulativeDecrease); }
      var delta := Delta(if |e| > 0 then Some(|e|) else None, |e| + 1, Minus(ValuesOf(report), before), at);
      db := db.(snapshots := db.snapshots + [Keyed(order, Snapshot(|e| + 1, report, at, source, report))]);
      db := db.(deltas := db.deltas + [Keyed(order, delta)]);
      r := Ok(true);
    }

    /** `ExecutionLedgerPoster.post`: under its savepoint every write happens or none does. */
    method PostDelta(id: DeltaId, ctx: PostingContext, at: int, lots: bool) returns (r: Result<Posted, Refusal>)
      modifies this
      ensures r.Ok? ==> Post(old(db), id, ctx, at, lots) == Ok(db)
      ensures r.Ok? ==>
                && id in db.postings && 1 <= id.sequence <= |DeltasOf(db, id.order)|
                && r.value.cashEvent == db.postings[id].cashEvent && r.value.positionEvent == db.postings[id].positionEvent
                && var v := DeltasOf(db, id.order)[id.sequence - 1].values;
                   if ctx.side.Buy?
                   then r.value.quantity == v.quantity && r.value.cash == -v.amount - v.commission - v.tax
                   else r.value.quantity == -v.quantity && r.value.cash == v.amount - v.commission - v.tax
      ensures r.Err? ==> Post(old(db), id, ctx, at, lots) == Err(r.reason) && db == old(db)
    {
      var d := DeltasOf(db, id.order);
      if id.order !in db.orders || id.sequence < 1 || id.sequence > |d| { return Err(DeltaNotPersisted); }
      var v, info := d[id.sequence - 1].values, db.orders[id.order];
      if !IdentityComplete(info) { return Err(IdentityIncomplete); }
      if !IdentityMatches(info, ctx) { return Err(IdentityConflict); }
      if !Settles(db, id, ctx.settlement) { return Err(SettlementConflict); }
      if (ctx.account, ctx.instrument) in db.openings && db.openings[(ctx.account, ctx.instrument)] != ctx.currency {
        return Err(CurrencyConflict);
      }
      if id in db.postings {
        if id !in db.evidence || db.evidence[id] != ctx.settlement { return Err(SettlementMissing); }
        if id !in db.contexts || db.contexts[id] != ctx { return Err(PostingReplayConflict); }
        var earlier := db.postings[id];
        return Ok(Posted(earlier.cashEvent, earlier.positionEvent, CashDelta(v, ctx.side), QuantityDelta(v, ctx.side)));
      }
      var savepoint := db;
      WriteRows(id, v, ctx, at);
      if QuantityDelta(v, ctx.side) != 0.0 && !lots {
        db := savepoint;
        return Err(TaxLotsReject);
      }
      var made := db.postings[id];
      r := Ok(Posted(made.cashEvent, made.positionEvent, CashDelta(v, ctx.side), QuantityDelta(v, ctx.side)));
    }

    /** Everything written under the savepoint of `post`, table by table. */
    method WriteRows(id: DeltaId, v: Values, ctx: PostingContext, at: int)
      modifies this
      ensures db == WritePosting(old(db), id, v, ctx, at)
    {
      db := db.(evidence := db.evidence[id := ctx.settlement], contexts := db.contexts[id := ctx]);
      WriteComponent(id, v, ctx, Principal);
      WriteComponent(id, v, ctx, Commission);
      WriteComponent(id, v, ctx, Tax);
      var quantity := QuantityDelta(v, ctx.side);
      if quantity != 0.0 {
        db := db.(positions := db.positions + [PositionRow(id, ctx.account, ctx.instrument, quantity)],
                  positionSettlement := db.positionSettlement[id := ctx.settlement]);
      }
      db := db.(postings := db.postings[id := Posting(if v.amount != 0.0 then Some(CashEvent(id, Principal)) else None,
                                                      if quantity != 0.0 then Some(id) else None, at)]);
    }

    /** One turn of the component loop: a ledger row and its link, unless the amount is zero. */
    method WriteComponent(id: DeltaId, v: Values, ctx: PostingContext, c: Component)
      modifies this
      ensures db == old(db).(cash := old(db).cash + CashRows(id, v, ctx, c),
                             components := AddComponent(old(db).components, id, v, ctx.side, c))
    {
      var value := AmountOf(c, v, ctx.side);
      if value != 0.0 {
        db := db.(cash := db.cash + [CashRow(CashEvent(id, c), ctx.account, ctx.currency, value, ctx.settlement,
                                             KindOf(c, ctx.side))],
                  components := db.components[CashEvent(id, c) := CashEvent(id, c)]);
      }
    }

    /** The savepoint body of `observe` for an execution report; a failure is rolled back by the caller. */
    method ObserveExecution(obs: Observation) returns (r: Result<(), Refusal>)
      requires obs.report.Some?
      modifies this
      ensures r.Ok? ==> ObserveReport(old(db), obs) == Ok(db)
      ensures r.Err? ==> ObserveReport(old(db), obs) == Err(r.reason)
    {
      var appended := AppendExecution(obs.order, obs.report.value, obs.at, obs.source);
      if appended.Err? { return Err(appended.reason); }
      var e, d := SnapshotsOf(db, obs.order), DeltasOf(db, obs.order);
      if |e| == 0 || |d| == 0 || obs.order !in db.orders { return Err(OrderMissing); }
      var check := FillCheck(Normalize(obs.raw), e[|e| - 1].report.quantity.value, db.orders[obs.order].ordered);
      if check.Some? { return Err(check.value); }
      var delta := d[|d| - 1];
      if obs.context.None? {
        if HasEffect(delta.values) { return Err(ContextRequired); }
        return Ok(());
      }
      var posted := PostDelta(DeltaId(obs.order, delta.to), obs.context.value, obs.at, obs.lots);
      r := if posted.Err? then Err(posted.reason) else Ok(());
    }

    /** `OrderObservationService.observe` */
    method ObserveOrder(obs: Observation) returns (r: Result<OrderState, Refusal>)
      modifies this
      ensures db == Observe(old(db), obs).0 && r == Observe(old(db), obs).1
    {
      var state := Normalize(obs.raw);
      if state == Unknown {
        var kept := AppendStateEvent(obs.order, state, obs.at, Some(obs.source), UnknownReason(obs), true);
        return Err(if kept.Err? then kept.reason else UnknownBrokerState);
      }
      var savepoint := db;
      if (state == PartiallyFilled || state == Filled) && (obs.report.None? || obs.context.None?) {
        return Err(ReportRequired);
      }
      var stated := AppendStateEvent(obs.order, state, obs.at, Some(obs.source), None, true);
      if stated.Err? { return Err(stated.reason); }
      if obs.report.Some? {
        var done := ObserveExecution(obs);
        if done.Err? {
          db := savepoint;
          return Err(done.reason);
        }
      }
      if Terminal(state) && !obs.release {
        db := savepoint;
        return Err(ReservationConflict);
      }
      r := Ok(state);
    }
  }
}
