/** What every sequence of registrations, internal state events and observations keeps. */
module LedgerRuns {
  import opened Common
  import opened Tables
  import opened OrderStates
  import opened Executions

  datatype Action =
    | Register(order: string, info: OrderInfo)
    | Internal(order: string, state: OrderState, at: int, source: Option<string>, reason: Option<string>)
    | Observed(obs: Observation)

  function Empty(raw: map<string, int>, openings: map<(string, string), string>): Db {
    Db(map[], [], [], [], map[], map[], map[], [], [], map[], map[], raw, openings)
  }

  function Next(db: Db, a: Action): Db {
    match a
    case Register(order, info) => if order in db.orders then db else db.(orders := db.orders[order := info])
    case Internal(order, state, at, source, reason) =>
      var r := AppendState(db, order, state, at, source, reason, false);
      if r.Ok? then r.value else db
    case Observed(obs) => Observe(db, obs).0
  }

  function Run(db: Db, actions: seq<Action>): Db
    decreases |actions|
  {
    if actions == [] then db else Next(Run(db, actions[..|actions| - 1]), actions[|actions| - 1])
  }

  // ---------------------------------------------------------------- one order's chain

  function Prior(e: seq<Snapshot>, i: nat): Values
    requires i <= |e|
  {
    if i == 0 then ZERO else ValuesOf(e[i - 1].report)
  }

  /** Snapshot `i` and the delta written with it continue the chain. */
  ghost predicate Linked(e: seq<Snapshot>, d: seq<Delta>, i: nat)
    requires i < |e| == |d|
  {
    && e[i].sequence == i + 1 && e[i].hash == e[i].report
    && (i > 0 ==> e[i - 1].at <= e[i].at)
    && AtLeast(ValuesOf(e[i].report), Prior(e, i))
    && d[i] == Delta(if i == 0 then None else Some(i), i + 1, Minus(ValuesOf(e[i].report), Prior(e, i)), e[i].at)
  }

  ghost predicate ExecutionChain(e: seq<Snapshot>, d: seq<Delta>) {
    |e| == |d| && forall i :: 0 <= i < |e| ==> Linked(e, d, i)
  }

  /** The sum of an order's deltas. */
  function DeltaSum(d: seq<Delta>): Values {
    if d == [] then ZERO else Plus(DeltaSum(d[..|d| - 1]), d[|d| - 1].values)
  }

  /** The deltas of a chain are non-negative and telescope to the latest cumulative snapshot. */
  lemma {:induction false} DeltasTelescope(e: seq<Snapshot>, d: seq<Delta>)
    requires ExecutionChain(e, d)
    ensures DeltaSum(d) == Latest(e)
    ensures forall i :: 0 <= i < |d| ==> AtLeast(d[i].values, ZERO)
    decreases |e|
  {
    if e != [] {
      var n := |e| - 1;
      forall i | 0 <= i < n ensures Linked(e[..n], d[..n], i) { assert Linked(e, d, i); }
      DeltasTelescope(e[..n], d[..n]);
      assert Linked(e, d, n);
      forall i | 0 <= i < |d| ensures AtLeast(d[i].values, ZERO) { assert Linked(e, d, i); }
    }
  }

  // --------------------------------------------------------------------- ledger totals

  /** Total of all cash rows whose event belongs to a delta of this order. */
  function CashTotal(rows: seq<CashRow>, order: string): real {
    if rows == [] then 0.0
    else
      var r := rows[|rows| - 1];
      CashTotal(rows[..|rows| - 1], order) + (if r.event.delta.order == order then r.amount else 0.0)
  }

  function PositionTotal(rows: seq<PositionRow>, order: string): real {
    if rows == [] then 0.0
    else
      var r := rows[|rows| - 1];
      PositionTotal(rows[..|rows| - 1], order) + (if r.event.order == order then r.quantity else 0.0)
  }

  /** The values of those of an order's first `n` deltas that have been posted. */
  function PostedSum(d: seq<Delta>, n: nat, order: string, posted: set<DeltaId>): Values
    requires n <= |d|
  {
    if n == 0 then ZERO
    else if DeltaId(order, n) in posted then Plus(PostedSum(d, n - 1, order, posted), d[n - 1].values)
    else PostedSum(d, n - 1, order, posted)
  }

  function SideOf(db: Db, order: string): Side {
    if order in db.orders then db.orders[order].side else NoSide
  }

  function FindCash(rows: seq<CashRow>, event: CashEvent): Option<CashRow> {
    if rows == [] then None
    else if rows[|rows| - 1].event == event then Some(rows[|rows| - 1])
    else FindCash(rows[..|rows| - 1], event)
  }

  function FindPosition(rows: seq<PositionRow>, event: DeltaId): Option<PositionRow> {
    if rows == [] then None
    else if rows[|rows| - 1].event == event then Some(rows[|rows| - 1])
    else FindPosition(rows[..|rows| - 1], event)
  }

  // ------------------------------------------------------------------------- invariant

  /** One order's streams: both chained, no snapshot later than the last state, nothing for an unknown order. */
  ghost predicate RowsInv(s: seq<StateEvent>, e: seq<Snapshot>, d: seq<Delta>, known: bool) {
    && StateChain(s) && ExecutionChain(e, d)
    && (e != [] ==> s != [] && e[|e| - 1].at <= s[|s| - 1].at)
    && (!known ==> s == [] && e == [])
  }

  ghost predicate OrderInv(db: Db, o: string) {
    RowsInv(StatesOf(db, o), SnapshotsOf(db, o), DeltasOf(db, o), o in db.orders)
  }

  /** The books of an order add up to exactly what has been posted for it. */
  ghost predicate TotalsInv(db: Db, o: string) {
    var sum := PostedSum(DeltasOf(db, o), |DeltasOf(db, o)|, o, db.postings.Keys);
    && CashTotal(db.cash, o) == CashDelta(sum, SideOf(db, o))
    && PositionTotal(db.positions, o) == QuantityDelta(sum, SideOf(db, o))
  }

  function DeltaValues(db: Db, id: DeltaId): Values
    requires 1 <= id.sequence <= |DeltasOf(db, id.order)|
  {
    DeltasOf(db, id.order)[id.sequence - 1].values
  }

  /** A posting refers to a stored delta, under a context that is the order's own identity and a
      settlement date its raw evidence proves, and does not predate the delta. */
  ghost predicate PostingSound(db: Db, id: DeltaId)
    requires id in db.postings
  {
    && id.order in db.orders && 1 <= id.sequence <= |DeltasOf(db, id.order)|
    && id in db.contexts && id in db.evidence
    && IdentityMatches(db.orders[id.order], db.contexts[id])
    && Settles(db, id, db.contexts[id].settlement)
    && db.evidence[id] == db.contexts[id].settlement
    && DeltasOf(db, id.order)[id.sequence - 1].createdAt <= db.postings[id].at
    && var v := DeltaValues(db, id);
       && db.postings[id].cashEvent == (if v.amount != 0.0 then Some(CashEvent(id, Principal)) else None)
       && db.postings[id].positionEvent == (if v.quantity != 0.0 then Some(id) else None)
  }

  /** The cash row, if any, that a component of a delta must have. */
  ghost function ExpectedCash(db: Db, id: DeltaId, c: Component): Option<CashRow>
    requires id in db.postings ==> PostingSound(db, id)
  {
    if id !in db.postings then None
    else
      var v, ctx := DeltaValues(db, id), db.contexts[id];
      if AmountOf(c, v, ctx.side) == 0.0 then None
      else Some(CashRow(CashEvent(id, c), ctx.account, ctx.currency, AmountOf(c, v, ctx.side), ctx.settlement,
                        KindOf(c, ctx.side)))
  }

  ghost predicate CashSlot(db: Db, id: DeltaId, c: Component)
    requires id in db.postings ==> PostingSound(db, id)
  {
    var want := ExpectedCash(db, id, c);
    && FindCash(db.cash, CashEvent(id, c)) == want
    && (CashEvent(id, c) in db.components <==> want.Some?)
    && (want.Some? ==> db.components[CashEvent(id, c)] == CashEvent(id, c))
  }

  ghost predicate PositionSlot(db: Db, id: DeltaId)
    requires id in db.postings ==> PostingSound(db, id)
  {
    if id in db.postings && DeltaValues(db, id).quantity != 0.0 then
      var ctx := db.contexts[id];
      && FindPosition(db.positions, id) ==
           Some(PositionRow(id, ctx.account, ctx.instrument, QuantityDelta(DeltaValues(db, id), ctx.side)))
      && id in db.positionSettlement && db.positionSettlement[id] == ctx.settlement
    else FindPosition(db.positions, id).None?
  }

  ghost predicate PostingsInv(db: Db) {
    && db.contexts.Keys == db.postings.Keys
    && (forall id :: id in db.postings ==> PostingSound(db, id))
    && (forall id, c :: CashSlot(db, id, c))
    && (forall id :: PositionSlot(db, id))
  }

  ghost predicate Inv(db: Db) {
    && (forall o :: OrderInv(db, o))
    && (forall o :: TotalsInv(db, o))
    && PostingsInv(db)
  }

  /** Every delta with a ledger effect has been posted. */
  ghost predicate EffectsPosted(db: Db) {
    forall o, i :: 0 <= i < |DeltasOf(db, o)| && HasEffect(DeltasOf(db, o)[i].values) ==> DeltaId(o, i + 1) in db.postings
  }

  // -------------------------------------------------------------- state events

  lemma StateInsertKeepsOrder(db: Db, order: string, ev: StateEvent, o: string)
    requires OrderInv(db, o) && order in db.orders
    requires o == order ==> Continues(StatesOf(db, o) + [ev], |StatesOf(db, o)|)
    ensures OrderInv(db.(states := db.states + [Keyed(order, ev)]), o)
  {
    OfAppend(db.states, Keyed(order, ev), o);
    if o == order {
      var s := StatesOf(db, o);
      forall i | 0 <= i < |s| + 1 ensures Continues(s + [ev], i) {
        if i < |s| { assert Continues(s, i); }
      }
    }
  }

  /** Only order states and new broker orders differ. */
  ghost predicate SameBooks(db: Db, t: Db) {
    && t == db.(states := t.states, orders := t.orders)
    && (forall o :: o in db.orders ==> o in t.orders && t.orders[o] == db.orders[o])
  }

  lemma SameBooksPosting(db: Db, t: Db, id: DeltaId)
    requires SameBooks(db, t) && id in db.postings && PostingSound(db, id)
    ensures PostingSound(t, id)
  {
  }

  lemma SameBooksSlots(db: Db, t: Db, id: DeltaId, c: Component)
    requires SameBooks(db, t) && (id in db.postings ==> PostingSound(db, id) && PostingSound(t, id))
    requires CashSlot(db, id, c) && PositionSlot(db, id)
    ensures CashSlot(t, id, c) && PositionSlot(t, id)
  {
  }

  /** State events and registrations leave every posting as it was. */
  lemma SameBooksKeep(db: Db, t: Db)
    requires SameBooks(db, t) && PostingsInv(db)
    ensures PostingsInv(t)
  {
    forall id | id in t.postings ensures PostingSound(t, id) { SameBooksPosting(db, t, id); }
    forall id, c ensures CashSlot(t, id, c) && PositionSlot(t, id) {
      assert CashSlot(db, id, c) && PositionSlot(db, id);
      SameBooksSlots(db, t, id, c);
    }
    forall id ensures PositionSlot(t, id) { assert CashSlot(t, id, Tax) && PositionSlot(t, id); }
  }

  /** A stream's own checks are the ones its chain needs. */
  lemma DecideStateShape(s: seq<StateEvent>, state: OrderState, at: int, source: Option<string>,
                         reason: Option<string>, external: bool)
    requires DecideState(s, state, at, source, reason, external).Ok?
    ensures if DecideState(s, state, at, source, reason, external).value
            then Continues(s + [NextEvent(s, state, at, source, reason)], |s|)
            else s != [] && s[|s| - 1].at == at
  {
  }

  /** The stream already holds an event with this raw response. */
  ghost predicate Seen(s: seq<StateEvent>, source: Option<string>) {
    source.Some? && exists i :: 0 <= i < |s| && s[i].source == source
  }

  lemma {:induction false} FindStateMeaning(s: seq<StateEvent>, source: Option<string>)
    ensures FindState(s, source) < |s| <==> Seen(s, source)
    ensures forall i :: 0 <= i < FindState(s, source) && source.Some? ==> s[i].source != source
    decreases |s|
  {
    if s != [] {
      var init := s[..|s| - 1];
      FindStateMeaning(init, source);
      if Seen(init, source) {
        var i :| 0 <= i < |init| && init[i].source == source;
        assert s[i].source == source;
      }
    }
  }

  /** On a sound stream an event is inserted exactly when its raw response is new, an internal stream starts as it may,
      and the longer stream is sound again; and it is taken as a repeat exactly when the latest event is the first with
      that response and says the same. */
  lemma DecideStateMeaning(s: seq<StateEvent>, state: OrderState, at: int, source: Option<string>,
                           reason: Option<string>, external: bool)
    requires StateChain(s)
    ensures DecideState(s, state, at, source, reason, external) == Ok(true) <==>
              && !Seen(s, source) && (s != [] || external || state == Planned || state == Submitting)
              && StateChain(s + [NextEvent(s, state, at, source, reason)])
    ensures DecideState(s, state, at, source, reason, external) == Ok(false) <==>
              && source.Some? && s != [] && !Seen(s[..|s| - 1], source)
              && s[|s| - 1] == s[|s| - 1].(source := source, state := state, at := at, reason := reason)
  {
    var t := s + [NextEvent(s, state, at, source, reason)];
    FindStateMeaning(s, source);
    ExtendsChain(s, t[|s|]);
    if s != [] { FindStateMeaning(s[..|s| - 1], source); }
  }

  lemma ExtendsChain(s: seq<StateEvent>, ev: StateEvent)
    requires StateChain(s)
    ensures StateChain(s + [ev]) <==> Continues(s + [ev], |s|)
  {
    forall i | 0 <= i < |s| ensures Continues(s + [ev], i) { assert Continues(s, i); }
  }

  lemma StateInsertKeeps(db: Db, order: string, ev: StateEvent)
    requires Inv(db) && order in db.orders && Continues(StatesOf(db, order) + [ev], |StatesOf(db, order)|)
    ensures Inv(db.(states := db.states + [Keyed(order, ev)]))
    ensures StatesOf(db.(states := db.states + [Keyed(order, ev)]), order) == StatesOf(db, order) + [ev]
  {
    var t := db.(states := db.states + [Keyed(order, ev)]);
    OfAppend(db.states, Keyed(order, ev), order);
    forall o ensures OrderInv(t, o) {
      assert OrderInv(db, o);
      StateInsertKeepsOrder(db, order, ev, o);
    }
    forall o ensures TotalsInv(t, o) { assert TotalsInv(db, o); }
    SameBooksKeep(db, t);
  }

  lemma AppendStateKeeps(db: Db, order: string, state: OrderState, at: int, source: Option<string>,
                         reason: Option<string>, external: bool)
    requires Inv(db) && AppendState(db, order, state, at, source, reason, external).Ok?
    ensures var t := AppendState(db, order, state, at, source, reason, external).value;
            && Inv(t) && t == db.(states := t.states)
            && StatesOf(t, order) != [] && StatesOf(t, order)[|StatesOf(t, order)| - 1].at == at
  {
    var s := StatesOf(db, order);
    DecideStateShape(s, state, at, source, reason, external);
    if DecideState(s, state, at, source, reason, external).value {
      StateInsertKeeps(db, order, NextEvent(s, state, at, source, reason));
    }
  }

  // ---------------------------------------------------------- snapshots and deltas

  lemma SnapshotInsertKeepsChain(e: seq<Snapshot>, d: seq<Delta>, r: Report, at: int, source: string)
    requires ExecutionChain(e, d) && AtLeast(ValuesOf(r), Latest(e)) && (e != [] ==> e[|e| - 1].at <= at)
    ensures ExecutionChain(e + [Snapshot(|e| + 1, r, at, source, r)], d + [NextDelta(e, r, at)])
  {
    var f, g := e + [Snapshot(|e| + 1, r, at, source, r)], d + [NextDelta(e, r, at)];
    forall i | 0 <= i < |f| ensures Linked(f, g, i) {
      if i < |e| { assert Linked(e, d, i); }
    }
  }

  /** A new snapshot leaves every posted delta, and its evidence, where it was. */
  lemma SnapshotInsertKeepsPosting(db: Db, t: Db, order: string, r: Report, at: int, source: string, id: DeltaId)
    requires t == InsertSnapshot(db, order, r, at, source) && id in db.postings && PostingSound(db, id)
    ensures PostingSound(t, id) && DeltaValues(t, id) == DeltaValues(db, id)
  {
    var e := SnapshotsOf(db, order);
    OfAppend(db.snapshots, Keyed(order, Snapshot(|e| + 1, r, at, source, r)), id.order);
    OfAppend(db.deltas, Keyed(order, NextDelta(e, r, at)), id.order);
  }

  /** The new delta is not posted yet, so no posted total moves. */
  lemma SnapshotInsertKeepsTotals(db: Db, t: Db, order: string, r: Report, at: int, source: string, o: string)
    requires t == InsertSnapshot(db, order, r, at, source) && TotalsInv(db, o)
    requires DeltaId(order, |DeltasOf(db, order)| + 1) !in db.postings
    ensures TotalsInv(t, o)
  {
    var e, d := SnapshotsOf(db, order), DeltasOf(db, o);
    OfAppend(db.deltas, Keyed(order, NextDelta(e, r, at)), o);
    if o == order {
      PostedSumPrefix(d, [NextDelta(e, r, at)], |d|, o, db.postings.Keys);
    }
  }

  /** What `append` has checked before it inserts, given that this observation's state event is in. */
  ghost predicate Insertable(db: Db, order: string, r: Report, at: int) {
    var s, e := StatesOf(db, order), SnapshotsOf(db, order);
    && order in db.orders
    && AtLeast(ValuesOf(r), Latest(e))
    && (e != [] ==> e[|e| - 1].at <= at)
    && s != [] && s[|s| - 1].at == at
  }

  lemma SnapshotInsertKeepsOrder(db: Db, order: string, r: Report, at: int, source: string, o: string)
    requires OrderInv(db, o) && Insertable(db, order, r, at)
    ensures OrderInv(InsertSnapshot(db, order, r, at, source), o)
    ensures o != order ==> DeltasOf(InsertSnapshot(db, order, r, at, source), o) == DeltasOf(db, o)
    ensures DeltasOf(InsertSnapshot(db, order, r, at, source), order) ==
            DeltasOf(db, order) + [NextDelta(SnapshotsOf(db, order), r, at)]
  {
    InsertedRows(db, order, r, at, source, o);
    InsertedRows(db, order, r, at, source, order);
    if o == order { SnapshotInsertKeepsRows(StatesOf(db, o), SnapshotsOf(db, o), DeltasOf(db, o), r, at, source); }
  }

  /** What an insertion makes of an order's rows. */
  lemma InsertedRows(db: Db, order: string, r: Report, at: int, source: string, o: string)
    ensures var e, t := SnapshotsOf(db, order), InsertSnapshot(db, order, r, at, source);
            && SnapshotsOf(t, o) == (if o == order then e + [Snapshot(|e| + 1, r, at, source, r)] else SnapshotsOf(db, o))
            && DeltasOf(t, o) == (if o == order then DeltasOf(db, o) + [NextDelta(e, r, at)] else DeltasOf(db, o))
            && StatesOf(t, o) == StatesOf(db, o) && t.orders == db.orders
  {
    var e := SnapshotsOf(db, order);
    OfAppend(db.snapshots, Keyed(order, Snapshot(|e| + 1, r, at, source, r)), o);
    OfAppend(db.deltas, Keyed(order, NextDelta(e, r, at)), o);
  }

  lemma SnapshotInsertKeepsRows(s: seq<StateEvent>, e: seq<Snapshot>, d: seq<Delta>, r: Report, at: int, source: string)
    requires RowsInv(s, e, d, true) && AtLeast(ValuesOf(r), Latest(e)) && (e != [] ==> e[|e| - 1].at <= at)
    requires s != [] && s[|s| - 1].at == at
    ensures RowsInv(s, e + [Snapshot(|e| + 1, r, at, source, r)], d + [NextDelta(e, r, at)], true)
  {
    SnapshotInsertKeepsChain(e, d, r, at, source);
  }

  lemma SnapshotInsertKeeps(db: Db, order: string, r: Report, at: int, source: string)
    requires Inv(db) && Insertable(db, order, r, at)
    ensures var t := InsertSnapshot(db, order, r, at, source);
            && Inv(t)
            && DeltasOf(t, order) == DeltasOf(db, order) + [NextDelta(SnapshotsOf(db, order), r, at)]
            && (forall o :: o != order ==> DeltasOf(t, o) == DeltasOf(db, o))
  {
    var t := InsertSnapshot(db, order, r, at, source);
    forall o ensures OrderInv(t, o) && (o != order ==> DeltasOf(t, o) == DeltasOf(db, o)) {
      assert OrderInv(db, o);
      SnapshotInsertKeepsOrder(db, order, r, at, source, o);
    }
    assert OrderInv(db, order);
    SnapshotInsertKeepsOrder(db, order, r, at, source, order);
    assert DeltaId(order, |DeltasOf(db, order)| + 1) !in db.postings;
    forall o ensures TotalsInv(t, o) {
      assert TotalsInv(db, o);
      SnapshotInsertKeepsTotals(db, t, order, r, at, source, o);
    }
    SnapshotInsertKeepsPostings(db, t, order, r, at, source);
  }

  lemma SnapshotInsertKeepsPostings(db: Db, t: Db, order: string, r: Report, at: int, source: string)
    requires PostingsInv(db) && t == InsertSnapshot(db, order, r, at, source)
    ensures PostingsInv(t)
  {
    forall id | id in t.postings ensures PostingSound(t, id) && DeltaValues(t, id) == DeltaValues(db, id) {
      SnapshotInsertKeepsPosting(db, t, order, r, at, source, id);
    }
    forall id, c ensures CashSlot(t, id, c) {
      assert CashSlot(db, id, c) && PositionSlot(db, id);
      SnapshotInsertKeepsSlots(db, t, id, c);
    }
    forall id ensures PositionSlot(t, id) {
      assert PositionSlot(db, id) && CashSlot(db, id, Principal);
      SnapshotInsertKeepsSlots(db, t, id, Principal);
    }
  }

  /** The books are untouched, so every slot is. */
  lemma SnapshotInsertKeepsSlots(db: Db, t: Db, id: DeltaId, c: Component)
    requires t.postings == db.postings && t.contexts == db.contexts && t.cash == db.cash && t.components == db.components
    requires t.positions == db.positions && t.positionSettlement == db.positionSettlement
    requires id in db.postings ==> PostingSound(db, id) && PostingSound(t, id) && DeltaValues(t, id) == DeltaValues(db, id)
    requires CashSlot(db, id, c) && PositionSlot(db, id)
    ensures CashSlot(t, id, c) && PositionSlot(t, id)
  {
  }

  /** An accepted snapshot is either the latest one again or a new one that continues the chain. */
  lemma AppendSnapshotShape(db: Db, order: string, r: Report, at: int, source: string)
    requires AppendSnapshot(db, order, r, at, source).Ok?
    ensures order in db.orders
    ensures var e := SnapshotsOf(db, order);
            if AppendSnapshot(db, order, r, at, source).value.1 then
              && AppendSnapshot(db, order, r, at, source).value.0 == InsertSnapshot(db, order, r, at, source)
              && AtLeast(ValuesOf(r), Latest(e)) && (e != [] ==> e[|e| - 1].at <= at)
            else
              AppendSnapshot(db, order, r, at, source).value.0 == db && e != []
  {
  }

  lemma AppendSnapshotKeeps(db: Db, order: string, r: Report, at: int, source: string)
    requires Inv(db) && AppendSnapshot(db, order, r, at, source).Ok?
    requires StatesOf(db, order) != [] && StatesOf(db, order)[|StatesOf(db, order)| - 1].at == at
    ensures var t := AppendSnapshot(db, order, r, at, source).value.0;
            && Inv(t) && t.postings == db.postings && t.orders == db.orders && t.states == db.states
            && SnapshotsOf(t, order) != [] && order in t.orders
            && (t == db || DeltasOf(t, order) == DeltasOf(db, order) + [NextDelta(SnapshotsOf(db, order), r, at)])
            && (forall o :: o != order ==> DeltasOf(t, o) == DeltasOf(db, o))
  {
    var e := SnapshotsOf(db, order);
    AppendSnapshotShape(db, order, r, at, source);
    if AppendSnapshot(db, order, r, at, source).value.1 {
      SnapshotInsertKeeps(db, order, r, at, source);
      OfAppend(db.snapshots, Keyed(order, Snapshot(|e| + 1, r, at, source, r)), order);
    }
  }

  // ------------------------------------------------------------------------- posting

  lemma CashRowsTotal(rows: seq<CashRow>, id: DeltaId, v: Values, ctx: PostingContext, c: Component, o: string)
    ensures CashTotal(rows + CashRows(id, v, ctx, c), o) ==
            CashTotal(rows, o) + (if id.order == o then AmountOf(c, v, ctx.side) else 0.0)
  {
    if AmountOf(c, v, ctx.side) == 0.0 {
      assert rows + CashRows(id, v, ctx, c) == rows;
    } else {
      assert (rows + CashRows(id, v, ctx, c))[..|rows|] == rows;
    }
  }

  lemma CashRowsFind(rows: seq<CashRow>, id: DeltaId, v: Values, ctx: PostingContext, c: Component, event: CashEvent)
    ensures FindCash(rows + CashRows(id, v, ctx, c), event) ==
            if event == CashEvent(id, c) && AmountOf(c, v, ctx.side) != 0.0
            then Some(CashRows(id, v, ctx, c)[0]) else FindCash(rows, event)
  {
    if AmountOf(c, v, ctx.side) == 0.0 {
      assert rows + CashRows(id, v, ctx, c) == rows;
    } else {
      assert (rows + CashRows(id, v, ctx, c))[..|rows|] == rows;
    }
  }

  /** Posting one more delta of a chain adds exactly its values to the posted sum. */
  lemma {:induction false} PostedSumAdds(d: seq<Delta>, n: nat, o: string, posted: set<DeltaId>, k: nat)
    requires 1 <= k <= n <= |d| && DeltaId(o, k) !in posted
    ensures PostedSum(d, n, o, posted + {DeltaId(o, k)}) == Plus(PostedSum(d, n, o, posted), d[k - 1].values)
    decreases n
  {
    if k < n {
      PostedSumAdds(d, n - 1, o, posted, k);
    } else {
      PostedSumIgnores(d, n - 1, o, posted, DeltaId(o, k));
    }
  }

  lemma {:induction false} PostedSumIgnores(d: seq<Delta>, n: nat, o: string, posted: set<DeltaId>, id: DeltaId)
    requires n <= |d| && (id.order != o || id.sequence > n)
    ensures PostedSum(d, n, o, posted + {id}) == PostedSum(d, n, o, posted)
    decreases n
  {
    if n > 0 { PostedSumIgnores(d, n - 1, o, posted, id); }
  }

  /** Later deltas do not change what the first `n` add up to. */
  lemma {:induction false} PostedSumPrefix(d: seq<Delta>, more: seq<Delta>, n: nat, o: string, posted: set<DeltaId>)
    requires n <= |d|
    ensures PostedSum(d + more, n, o, posted) == PostedSum(d, n, o, posted)
    decreases n
  {
    if n > 0 { PostedSumPrefix(d, more, n - 1, o, posted); }
  }

  lemma WriteCashTotal(db: Db, id: DeltaId, v: Values, ctx: PostingContext, at: int, o: string)
    ensures CashTotal(WritePosting(db, id, v, ctx, at).cash, o) ==
            CashTotal(db.cash, o) + (if id.order == o then CashDelta(v, ctx.side) else 0.0)
  {
    var r1 := db.cash + CashRows(id, v, ctx, Principal);
    var r2 := r1 + CashRows(id, v, ctx, Commission);
    CashRowsTotal(db.cash, id, v, ctx, Principal, o);
    CashRowsTotal(r1, id, v, ctx, Commission, o);
    CashRowsTotal(r2, id, v, ctx, Tax, o);
  }

  lemma WritePositionTotal(db: Db, id: DeltaId, v: Values, ctx: PostingContext, at: int, o: string)
    ensures PositionTotal(WritePosting(db, id, v, ctx, at).positions, o) ==
            PositionTotal(db.positions, o) + (if id.order == o then QuantityDelta(v, ctx.side) else 0.0)
  {
    PositionRowTotal(db.positions, PositionRow(id, ctx.account, ctx.instrument, QuantityDelta(v, ctx.side)), o);
  }

  lemma WritePostedSum(db: Db, id: DeltaId, o: string)
    requires id !in db.postings && 1 <= id.sequence <= |DeltasOf(db, id.order)|
    ensures var d := DeltasOf(db, o);
            PostedSum(d, |d|, o, db.postings.Keys + {id}) ==
            if o == id.order then Plus(PostedSum(d, |d|, o, db.postings.Keys), DeltaValues(db, id))
            else PostedSum(d, |d|, o, db.postings.Keys)
  {
    var d := DeltasOf(db, o);
    if o == id.order {
      PostedSumAdds(d, |d|, o, db.postings.Keys, id.sequence);
    } else {
      PostedSumIgnores(d, |d|, o, db.postings.Keys, id);
    }
  }

  lemma DeltasAdd(a: Values, b: Values, side: Side)
    ensures CashDelta(Plus(a, b), side) == CashDelta(a, side) + CashDelta(b, side)
    ensures QuantityDelta(Plus(a, b), side) == QuantityDelta(a, side) + QuantityDelta(b, side)
  {
  }

  lemma WriteKeepsTotals(db: Db, id: DeltaId, v: Values, ctx: PostingContext, at: int, o: string)
    requires TotalsInv(db, o) && id !in db.postings
    requires id.order in db.orders && db.orders[id.order].side == ctx.side
    requires 1 <= id.sequence <= |DeltasOf(db, id.order)| && v == DeltaValues(db, id)
    ensures TotalsInv(WritePosting(db, id, v, ctx, at), o)
  {
    var t := WritePosting(db, id, v, ctx, at);
    WriteCashTotal(db, id, v, ctx, at, o);
    WritePositionTotal(db, id, v, ctx, at, o);
    WritePostedSum(db, id, o);
    assert t.postings.Keys == db.postings.Keys + {id};
    assert t.deltas == db.deltas && t.orders == db.orders;
    DeltasAdd(PostedSum(DeltasOf(db, o), |DeltasOf(db, o)|, o, db.postings.Keys), v, ctx.side);
  }

  lemma PositionRowTotal(rows: seq<PositionRow>, r: PositionRow, o: string)
    ensures PositionTotal(rows + [r], o) == PositionTotal(rows, o) + (if r.event.order == o then r.quantity else 0.0)
    ensures FindPosition(rows + [r], r.event) == Some(r)
    ensures forall id :: id != r.event ==> FindPosition(rows + [r], id) == FindPosition(rows, id)
  {
    assert (rows + [r])[..|rows|] == rows;
  }

  /** The rows and links a posting adds are found under its own events, and nowhere else. */
  lemma WriteFinds(db: Db, id: DeltaId, v: Values, ctx: PostingContext, at: int, event: CashEvent)
    ensures FindCash(WritePosting(db, id, v, ctx, at).cash, event) ==
            if event.delta == id && AmountOf(event.component, v, ctx.side) != 0.0
            then Some(CashRow(event, ctx.account, ctx.currency, AmountOf(event.component, v, ctx.side), ctx.settlement,
                              KindOf(event.component, ctx.side)))
            else FindCash(db.cash, event)
  {
    var r0 := db.cash;
    var r1 := r0 + CashRows(id, v, ctx, Principal);
    var r2 := r1 + CashRows(id, v, ctx, Commission);
    CashRowsFind(r0, id, v, ctx, Principal, event);
    CashRowsFind(r1, id, v, ctx, Commission, event);
    CashRowsFind(r2, id, v, ctx, Tax, event);
  }

  lemma WriteKeepsCashSlot(db: Db, id: DeltaId, v: Values, ctx: PostingContext, at: int, x: DeltaId, c: Component)
    requires id !in db.postings && (x in db.postings ==> PostingSound(db, x)) && CashSlot(db, x, c)
    requires var t := WritePosting(db, id, v, ctx, at); x in t.postings ==> PostingSound(t, x)
    requires 1 <= id.sequence <= |DeltasOf(db, id.order)| && v == DeltaValues(db, id)
    ensures CashSlot(WritePosting(db, id, v, ctx, at), x, c)
  {
    WriteFinds(db, id, v, ctx, at, CashEvent(x, c));
  }

  /** What `post` has checked about a delta before it writes. */
  ghost predicate Postable(db: Db, id: DeltaId, ctx: PostingContext, at: int) {
    && id !in db.postings
    && id.order in db.orders && 1 <= id.sequence <= |DeltasOf(db, id.order)|
    && IdentityMatches(db.orders[id.order], ctx) && Settles(db, id, ctx.settlement)
    && DeltasOf(db, id.order)[id.sequence - 1].createdAt <= at
  }

  /** The new posting is sound. */
  lemma WriteIsSound(db: Db, id: DeltaId, ctx: PostingContext, at: int)
    requires Postable(db, id, ctx, at)
    ensures PostingSound(WritePosting(db, id, DeltaValues(db, id), ctx, at), id)
  {
    var t := WritePosting(db, id, DeltaValues(db, id), ctx, at);
    assert DeltasOf(t, id.order) == DeltasOf(db, id.order) && SnapshotsOf(t, id.order) == SnapshotsOf(db, id.order);
  }

  /** Every other posting stays as it was. */
  lemma WriteKeepsOther(db: Db, id: DeltaId, v: Values, ctx: PostingContext, at: int, x: DeltaId)
    requires x in db.postings && x != id && PostingSound(db, x)
    ensures x in WritePosting(db, id, v, ctx, at).postings && PostingSound(WritePosting(db, id, v, ctx, at), x)
  {
    var t := WritePosting(db, id, v, ctx, at);
    assert DeltasOf(t, x.order) == DeltasOf(db, x.order) && SnapshotsOf(t, x.order) == SnapshotsOf(db, x.order);
  }

  lemma WriteKeepsPositionSlot(db: Db, id: DeltaId, v: Values, ctx: PostingContext, at: int, x: DeltaId)
    requires id !in db.postings && (x in db.postings ==> PostingSound(db, x)) && PositionSlot(db, x)
    requires var t := WritePosting(db, id, v, ctx, at); x in t.postings ==> PostingSound(t, x)
    requires 1 <= id.sequence <= |DeltasOf(db, id.order)| && v == DeltaValues(db, id)
    ensures PositionSlot(WritePosting(db, id, v, ctx, at), x)
  {
    PositionRowTotal(db.positions, PositionRow(id, ctx.account, ctx.instrument, QuantityDelta(v, ctx.side)), "");
  }

  lemma WriteKeepsPostings(db: Db, id: DeltaId, ctx: PostingContext, at: int)
    requires PostingsInv(db) && Postable(db, id, ctx, at)
    ensures PostingsInv(WritePosting(db, id, DeltaValues(db, id), ctx, at))
  {
    var v := DeltaValues(db, id);
    var t := WritePosting(db, id, v, ctx, at);
    assert t.contexts.Keys == t.postings.Keys;
    forall x | x in t.postings ensures PostingSound(t, x) {
      if x == id { WriteIsSound(db, id, ctx, at); } else { WriteKeepsOther(db, id, v, ctx, at, x); }
    }
    forall x, c ensures CashSlot(t, x, c) {
      assert CashSlot(db, x, c);
      WriteKeepsCashSlot(db, id, v, ctx, at, x, c);
    }
    forall x ensures PositionSlot(t, x) {
      assert PositionSlot(db, x);
      WriteKeepsPositionSlot(db, id, v, ctx, at, x);
    }
  }

  /** A successful `post` writes a postable delta, or finds it posted and writes nothing. */
  lemma PostShape(db: Db, id: DeltaId, ctx: PostingContext, at: int, lots: bool)
    requires Post(db, id, ctx, at, lots).Ok?
    ensures id.order in db.orders && 1 <= id.sequence <= |DeltasOf(db, id.order)|
    ensures id in db.postings ==> Post(db, id, ctx, at, lots).value == db
    ensures id !in db.postings ==>
              && Post(db, id, ctx, at, lots).value == WritePosting(db, id, DeltaValues(db, id), ctx, at)
              && (DeltasOf(db, id.order)[id.sequence - 1].createdAt <= at ==> Postable(db, id, ctx, at))
  {
  }

  lemma WriteKeeps(db: Db, id: DeltaId, ctx: PostingContext, at: int)
    requires Inv(db) && Postable(db, id, ctx, at)
    ensures Inv(WritePosting(db, id, DeltaValues(db, id), ctx, at))
  {
    var t := WritePosting(db, id, DeltaValues(db, id), ctx, at);
    forall o ensures OrderInv(t, o) { assert OrderInv(db, o); }
    forall o ensures TotalsInv(t, o) {
      assert TotalsInv(db, o);
      WriteKeepsTotals(db, id, DeltaValues(db, id), ctx, at, o);
    }
    WriteKeepsPostings(db, id, ctx, at);
  }

  lemma PostKeeps(db: Db, t: Db, id: DeltaId, ctx: PostingContext, at: int)
    requires Inv(db)
    requires if id in db.postings then t == db
             else Postable(db, id, ctx, at) && t == WritePosting(db, id, DeltaValues(db, id), ctx, at)
    ensures Inv(t) && t.postings.Keys == db.postings.Keys + {id} && t.deltas == db.deltas
  {
    if id !in db.postings {
      WriteKeeps(db, id, ctx, at);
      WriteAddsKey(db, id, ctx, at);
    }
  }

  lemma WriteAddsKey(db: Db, id: DeltaId, ctx: PostingContext, at: int)
    requires 1 <= id.sequence <= |DeltasOf(db, id.order)|
    ensures WritePosting(db, id, DeltaValues(db, id), ctx, at).postings.Keys == db.postings.Keys + {id}
  {
  }

  // --------------------------------------------------------------------- observation

  /** Only the order's newest delta can be pending, and an observation does not end before it is posted. */
  lemma EffectsAfter(db: Db, t: Db, order: string)
    requires EffectsPosted(db) && db.postings.Keys <= t.postings.Keys
    requires forall o :: o != order ==> DeltasOf(t, o) == DeltasOf(db, o)
    requires var d, g := DeltasOf(db, order), DeltasOf(t, order);
             g == d || (|g| == |d| + 1 && g[..|d|] == d && (HasEffect(g[|d|].values) ==> DeltaId(order, |d| + 1) in t.postings))
    ensures EffectsPosted(t)
  {
    forall o, i | 0 <= i < |DeltasOf(t, o)| && HasEffect(DeltasOf(t, o)[i].values)
      ensures DeltaId(o, i + 1) in t.postings
    {
      if i < |DeltasOf(db, o)| { assert DeltasOf(t, o)[i] == DeltasOf(db, o)[i]; }
    }
  }

  /** The newest delta of a chain names its own position and is no younger than the newest state event. */
  lemma NewestDelta(db: Db, o: string)
    requires OrderInv(db, o) && SnapshotsOf(db, o) != []
    ensures var s, d := StatesOf(db, o), DeltasOf(db, o);
            |d| > 0 && s != [] && d[|d| - 1].to == |d| && d[|d| - 1].createdAt <= s[|s| - 1].at
  {
    assert Linked(SnapshotsOf(db, o), DeltasOf(db, o), |DeltasOf(db, o)| - 1);
  }

  lemma PostCallKeeps(db: Db, u: Db, id: DeltaId, ctx: PostingContext, at: int, lots: bool)
    requires Inv(db) && Post(db, id, ctx, at, lots) == Ok(u)
    requires 1 <= id.sequence <= |DeltasOf(db, id.order)| && DeltasOf(db, id.order)[id.sequence - 1].createdAt <= at
    ensures Inv(u) && u.postings.Keys == db.postings.Keys + {id} && u.deltas == db.deltas
  {
    PostShape(db, id, ctx, at, lots);
    PostKeeps(db, u, id, ctx, at);
  }

  /** The newest delta is posted, under its own id, unless it has no effect. */
  lemma PostNewestShape(t: Db, obs: Observation)
    requires PostNewest(t, obs).Ok?
    ensures var d, u := DeltasOf(t, obs.order), PostNewest(t, obs).value;
            && |d| > 0
            && (if obs.context.None? then u == t && !HasEffect(d[|d| - 1].values)
                else Post(t, DeltaId(obs.order, d[|d| - 1].to), obs.context.value, obs.at, obs.lots) == Ok(u))
  {
  }

  lemma PostNewestKeeps(t: Db, u: Db, obs: Observation)
    requires Inv(t) && SnapshotsOf(t, obs.order) != [] && PostNewest(t, obs) == Ok(u)
    requires StatesOf(t, obs.order) != [] && StatesOf(t, obs.order)[|StatesOf(t, obs.order)| - 1].at == obs.at
    ensures Inv(u) && u.deltas == t.deltas && t.postings.Keys <= u.postings.Keys
    ensures var d := DeltasOf(t, obs.order);
            |d| > 0 && (HasEffect(d[|d| - 1].values) ==> DeltaId(obs.order, |d|) in u.postings)
  {
    assert OrderInv(t, obs.order);
    NewestDelta(t, obs.order);
    NewestOutcome(t, u, obs);
    NewestOutcomeKeeps(t, u, obs.order, obs.context, obs.at, obs.lots);
  }

  lemma NewestOutcome(t: Db, u: Db, obs: Observation)
    requires PostNewest(t, obs) == Ok(u)
    requires var d := DeltasOf(t, obs.order); |d| > 0 && d[|d| - 1].to == |d|
    ensures var d := DeltasOf(t, obs.order);
            if obs.context.None? then u == t && !HasEffect(d[|d| - 1].values)
            else Post(t, DeltaId(obs.order, |d|), obs.context.value, obs.at, obs.lots) == Ok(u)
  {
    PostNewestShape(t, obs);
  }

  /** Whether the newest delta is posted or has nothing to post. */
  lemma NewestOutcomeKeeps(t: Db, u: Db, order: string, ctx: Option<PostingContext>, at: int, lots: bool)
    requires Inv(t) && |DeltasOf(t, order)| > 0
    requires var d := DeltasOf(t, order);
             && d[|d| - 1].createdAt <= at
             && (if ctx.None? then u == t && !HasEffect(d[|d| - 1].values)
                 else Post(t, DeltaId(order, |d|), ctx.value, at, lots) == Ok(u))
    ensures Inv(u) && u.deltas == t.deltas && t.postings.Keys <= u.postings.Keys
    ensures var d := DeltasOf(t, order); HasEffect(d[|d| - 1].values) ==> DeltaId(order, |d|) in u.postings
  {
    if ctx.Some? { PostCallKeeps(t, u, DeltaId(order, |DeltasOf(t, order)|), ctx.value, at, lots); }
  }

  lemma ObserveReportKeeps(db: Db, obs: Observation)
    requires Inv(db) && EffectsPosted(db) && obs.report.Some? && ObserveReport(db, obs).Ok?
    requires StatesOf(db, obs.order) != [] && StatesOf(db, obs.order)[|StatesOf(db, obs.order)| - 1].at == obs.at
    ensures Inv(ObserveReport(db, obs).value) && EffectsPosted(ObserveReport(db, obs).value)
  {
    var t, u := AppendSnapshot(db, obs.order, obs.report.value, obs.at, obs.source).value.0, ObserveReport(db, obs).value;
    AppendSnapshotKeeps(db, obs.order, obs.report.value, obs.at, obs.source);
    NewestPosted(db, t, u, obs);
  }

  /** Posting the newest delta completes an observation. */
  lemma NewestPosted(db: Db, t: Db, u: Db, obs: Observation)
    requires EffectsPosted(db) && Inv(t) && t.postings == db.postings && PostNewest(t, obs) == Ok(u)
    requires SnapshotsOf(t, obs.order) != []
    requires StatesOf(t, obs.order) != [] && StatesOf(t, obs.order)[|StatesOf(t, obs.order)| - 1].at == obs.at
    requires forall o :: o != obs.order ==> DeltasOf(t, o) == DeltasOf(db, o)
    requires var d, g := DeltasOf(db, obs.order), DeltasOf(t, obs.order); g == d || (|g| == |d| + 1 && g[..|d|] == d)
    ensures Inv(u) && EffectsPosted(u)
  {
    PostNewestKeeps(t, u, obs);
    EffectsAfter(db, u, obs.order);
  }

  function Stated(db: Db, obs: Observation): Result<Db, Refusal> {
    AppendState(db, obs.order, Normalize(obs.raw), obs.at, Some(obs.source), UnknownReason(obs), true)
  }

  /** The tables after an observation: untouched, with the state event, or with the report as well. */
  lemma ObserveShape(db: Db, obs: Observation)
    ensures var t := Observe(db, obs).0;
            || t == db
            || (Stated(db, obs).Ok? && t == Stated(db, obs).value)
            || (Stated(db, obs).Ok? && obs.report.Some? && ObserveReport(Stated(db, obs).value, obs) == Ok(t))
  {
  }

  lemma StatedKeeps(db: Db, obs: Observation)
    requires Inv(db) && EffectsPosted(db) && Stated(db, obs).Ok?
    ensures var t := Stated(db, obs).value;
            && Inv(t) && EffectsPosted(t)
            && StatesOf(t, obs.order) != [] && StatesOf(t, obs.order)[|StatesOf(t, obs.order)| - 1].at == obs.at
  {
    AppendStateKeeps(db, obs.order, Normalize(obs.raw), obs.at, Some(obs.source), UnknownReason(obs), true);
    EffectsAfter(db, Stated(db, obs).value, obs.order);
  }

  lemma ObserveKeeps(db: Db, obs: Observation)
    requires Inv(db) && EffectsPosted(db)
    ensures Inv(Observe(db, obs).0) && EffectsPosted(Observe(db, obs).0)
  {
    ObserveShape(db, obs);
    if Stated(db, obs).Ok? {
      StatedKeeps(db, obs);
      if obs.report.Some? && ObserveReport(Stated(db, obs).value, obs).Ok? {
        ObserveReportKeeps(Stated(db, obs).value, obs);
      }
    }
  }

  lemma RegisterKeeps(db: Db, order: string, info: OrderInfo)
    requires Inv(db) && EffectsPosted(db) && order !in db.orders
    ensures Inv(db.(orders := db.orders[order := info])) && EffectsPosted(db.(orders := db.orders[order := info]))
  {
    var t := db.(orders := db.orders[order := info]);
    assert OrderInv(db, order) && TotalsInv(db, order);
    forall o ensures OrderInv(t, o) { assert OrderInv(db, o); }
    forall o ensures TotalsInv(t, o) { assert TotalsInv(db, o); }
    SameBooksKeep(db, t);
    EffectsAfter(db, t, order);
  }

  lemma NextKeeps(db: Db, a: Action)
    requires Inv(db) && EffectsPosted(db)
    ensures Inv(Next(db, a)) && EffectsPosted(Next(db, a))
  {
    match a
    case Register(order, info) => if order !in db.orders { RegisterKeeps(db, order, info); }
    case Internal(order, state, at, source, reason) =>
      if AppendState(db, order, state, at, source, reason, false).Ok? {
        AppendStateKeeps(db, order, state, at, source, reason, false);
        EffectsAfter(db, Next(db, a), order);
      }
    case Observed(obs) => ObserveKeeps(db, obs);
  }

  lemma EmptyInv(raw: map<string, int>, openings: map<(string, string), string>)
    ensures Inv(Empty(raw, openings)) && EffectsPosted(Empty(raw, openings))
  {
    var db := Empty(raw, openings);
    assert forall o :: DeltasOf(db, o) == [] && SnapshotsOf(db, o) == [] && StatesOf(db, o) == [];
    forall id, c ensures CashSlot(db, id, c) {}
    forall id ensures PositionSlot(db, id) {}
  }

  lemma {:induction false} RunKeeps(raw: map<string, int>, openings: map<(string, string), string>, actions: seq<Action>)
    ensures Inv(Run(Empty(raw, openings), actions)) && EffectsPosted(Run(Empty(raw, openings), actions))
    decreases |actions|
  {
    if actions == [] {
      EmptyInv(raw, openings);
    } else {
      RunKeeps(raw, openings, actions[..|actions| - 1]);
      NextKeeps(Run(Empty(raw, openings), actions[..|actions| - 1]), actions[|actions| - 1]);
    }
  }

  // -------------------------------------------------------------------- exactly once

  /** The sum of the first `n` deltas. */
  function SumTo(d: seq<Delta>, n: nat): Values
    requires n <= |d|
  {
    if n == 0 then ZERO else Plus(SumTo(d, n - 1), d[n - 1].values)
  }

  lemma {:induction false} SumToIsSum(d: seq<Delta>, n: nat)
    requires n <= |d|
    ensures SumTo(d, n) == DeltaSum(d[..n])
    decreases n
  {
    if n > 0 {
      SumToIsSum(d, n - 1);
      assert d[..n][..n - 1] == d[..n - 1];
    }
  }

  lemma PlusNothing(a: Values, b: Values)
    requires !HasEffect(b)
    ensures Plus(a, b) == a
  {
  }

  /** When every effect is posted, the posted sum is the whole sum. */
  lemma {:induction false} PostedSumIsWhole(d: seq<Delta>, n: nat, o: string, posted: set<DeltaId>)
    requires n <= |d|
    requires forall i :: 0 <= i < n && HasEffect(d[i].values) ==> DeltaId(o, i + 1) in posted
    ensures PostedSum(d, n, o, posted) == SumTo(d, n)
    decreases n
  {
    if n > 0 {
      PostedSumIsWhole(d, n - 1, o, posted);
      if !HasEffect(d[n - 1].values) { PlusNothing(SumTo(d, n - 1), d[n - 1].values); }
    }
  }

  /** No order of neither side is ever posted. */
  lemma {:induction false} UnsidedPostsNothing(db: Db, o: string, n: nat)
    requires PostingsInv(db) && !SideOf(db, o).Buy? && !SideOf(db, o).Sell? && n <= |DeltasOf(db, o)|
    ensures PostedSum(DeltasOf(db, o), n, o, db.postings.Keys) == ZERO
    decreases n
  {
    if n > 0 {
      UnsidedPostsNothing(db, o, n - 1);
      if DeltaId(o, n) in db.postings { SoundSided(db, DeltaId(o, n)); }
    }
  }

  lemma SoundSided(db: Db, id: DeltaId)
    requires id in db.postings && PostingSound(db, id)
    ensures SideOf(db, id.order).Buy? || SideOf(db, id.order).Sell?
  {
  }

  /** The order's ledger rows add up to this cumulative report: shares come in and cash goes out on
      a buy, the reverse on a sell, and costs go out on either. */
  ghost predicate Booked(db: Db, order: string, r: Report) {
    match SideOf(db, order)
    case Buy =>
      && PositionTotal(db.positions, order) == r.quantity.value
      && CashTotal(db.cash, order) == -r.amount.value - r.commission.value - r.tax.value
    case Sell =>
      && PositionTotal(db.positions, order) == -r.quantity.value
      && CashTotal(db.cash, order) == r.amount.value - r.commission.value - r.tax.value
    case _ =>
      && PositionTotal(db.positions, order) == 0.0 && CashTotal(db.cash, order) == 0.0
      && r.quantity.value == 0.0 && r.amount.value == 0.0 && r.commission.value == 0.0 && r.tax.value == 0.0
  }

  /** For every accepted observation sequence, replays included: an order's deltas are non-negative and
      sum to its latest cumulative snapshot, and its posted rows add up to that snapshot's report. */
  lemma {:induction false} ExactlyOnce(raw: map<string, int>, openings: map<(string, string), string>, actions: seq<Action>, order: string)
    ensures var db := Run(Empty(raw, openings), actions);
            var e := SnapshotsOf(db, order);
            && (forall i :: 0 <= i < |DeltasOf(db, order)| ==> AtLeast(DeltasOf(db, order)[i].values, ZERO))
            && DeltaSum(DeltasOf(db, order)) == Latest(e)
            && (e != [] ==> Booked(db, order, e[|e| - 1].report))
            && (e == [] ==> PositionTotal(db.positions, order) == 0.0 && CashTotal(db.cash, order) == 0.0)
  {
    RunKeeps(raw, openings, actions);
    BooksAreLatest(Run(Empty(raw, openings), actions), order);
  }

  lemma BooksAreLatest(db: Db, order: string)
    requires Inv(db) && EffectsPosted(db)
    ensures var e := SnapshotsOf(db, order);
            && (forall i :: 0 <= i < |DeltasOf(db, order)| ==> AtLeast(DeltasOf(db, order)[i].values, ZERO))
            && DeltaSum(DeltasOf(db, order)) == Latest(e)
            && (e != [] ==> Booked(db, order, e[|e| - 1].report))
            && (e == [] ==> PositionTotal(db.positions, order) == 0.0 && CashTotal(db.cash, order) == 0.0)
  {
    assert OrderInv(db, order) && TotalsInv(db, order);
    var d := DeltasOf(db, order);
    DeltasTelescope(SnapshotsOf(db, order), d);
    PostedSumIsWhole(d, |d|, order, db.postings.Keys);
    SumToIsSum(d, |d|);
    assert d[..|d|] == d;
    if !SideOf(db, order).Buy? && !SideOf(db, order).Sell? { UnsidedPostsNothing(db, order, |d|); }
  }

  /** The accepted report is the order's latest snapshot. */
  lemma ReportIsLatest(db: Db, obs: Observation)
    requires Inv(db) && obs.report.Some? && ObserveReport(db, obs).Ok?
    ensures var e := SnapshotsOf(ObserveReport(db, obs).value, obs.order);
            e != [] && e[|e| - 1].report == obs.report.value
  {
    var r, t := obs.report.value, AppendSnapshot(db, obs.order, obs.report.value, obs.at, obs.source).value.0;
    assert OrderInv(db, obs.order);
    AppendedIsLatest(db, obs.order, r, obs.at, obs.source);
    PostKeepsSnapshots(t, obs);
  }

  lemma InsertedIsLatest(db: Db, order: string, r: Report, at: int, source: string)
    ensures var e := SnapshotsOf(InsertSnapshot(db, order, r, at, source), order);
            e != [] && e[|e| - 1].report == r
  {
    var e := SnapshotsOf(db, order);
    OfAppend(db.snapshots, Keyed(order, Snapshot(|e| + 1, r, at, source, r)), order);
  }

  /** An accepted report that inserts nothing is the latest one again. */
  lemma RepeatIsLatest(db: Db, order: string, r: Report, at: int, source: string)
    requires AppendSnapshot(db, order, r, at, source).Ok? && !AppendSnapshot(db, order, r, at, source).value.1
    ensures var e := SnapshotsOf(db, order);
            e != [] && e[|e| - 1].hash == r && AppendSnapshot(db, order, r, at, source).value.0 == db
  {
  }

  lemma AppendedIsLatest(db: Db, order: string, r: Report, at: int, source: string)
    requires OrderInv(db, order) && AppendSnapshot(db, order, r, at, source).Ok?
    ensures var e := SnapshotsOf(AppendSnapshot(db, order, r, at, source).value.0, order);
            e != [] && e[|e| - 1].report == r
  {
    if AppendSnapshot(db, order, r, at, source).value.1 {
      AppendSnapshotShape(db, order, r, at, source);
      InsertedIsLatest(db, order, r, at, source);
    } else {
      RepeatIsLatest(db, order, r, at, source);
      assert Linked(SnapshotsOf(db, order), DeltasOf(db, order), |SnapshotsOf(db, order)| - 1);
    }
  }

  lemma PostKeepsSnapshots(t: Db, obs: Observation)
    requires PostNewest(t, obs).Ok?
    ensures PostNewest(t, obs).value.snapshots == t.snapshots
  {
  }

  lemma AcceptedReport(db: Db, obs: Observation)
    requires Observe(db, obs).1.Ok? && obs.report.Some?
    ensures Stated(db, obs).Ok? && ObserveReport(Stated(db, obs).value, obs) == Ok(Observe(db, obs).0)
  {
  }

  /** When an observation with a report is accepted, whatever came before it and whether or not it is a
      repeat, the order's books say exactly what it reported. */
  lemma {:induction false} AcceptedReportIsBooked(raw: map<string, int>, openings: map<(string, string), string>,
                                                  actions: seq<Action>, obs: Observation)
    requires obs.report.Some? && Observe(Run(Empty(raw, openings), actions), obs).1.Ok?
    ensures Booked(Run(Empty(raw, openings), actions + [Observed(obs)]), obs.order, obs.report.value)
  {
    var db := Run(Empty(raw, openings), actions);
    RunKeeps(raw, openings, actions);
    AcceptedReport(db, obs);
    StatedKeeps(db, obs);
    ReportIsLatest(Stated(db, obs).value, obs);
    ObserveKeeps(db, obs);
    BooksAreLatest(Observe(db, obs).0, obs.order);
    assert (actions + [Observed(obs)])[..|actions|] == actions;
  }

  /** A report of nothing says nothing; one of something has a positive amount and average price. */
  ghost predicate SelfConsistent(r: Report) {
    && r.quantity.value >= 0.0 && r.commission.value >= 0.0 && r.tax.value >= 0.0
    && (r.quantity.value == 0.0 ==> r.amount.value == 0.0 && (r.average.Some? ==> r.average.value.value == 0.0))
    && (r.quantity.value > 0.0 ==> r.amount.value > 0.0 && r.average.Some? && r.average.value.value > 0.0)
  }

  /** What a report must say for the state it comes with. */
  ghost predicate ReportFits(state: OrderState, quantity: real, ordered: Option<real>) {
    && (state.Filled? || state.PartiallyFilled? ==> quantity > 0.0)
    && (ordered.Some? ==>
          && ordered.value > 0.0 && quantity <= ordered.value
          && (state.Filled? ==> quantity == ordered.value)
          && (state.PartiallyFilled? ==> quantity < ordered.value))
  }

  lemma PostedReportFits(t: Db, obs: Observation)
    requires PostNewest(t, obs).Ok?
    ensures var e := SnapshotsOf(t, obs.order);
            && e != [] && obs.order in t.orders
            && FillCheck(Normalize(obs.raw), e[|e| - 1].report.quantity.value, t.orders[obs.order].ordered).None?
  {
  }

  lemma CheckedReportFits(state: OrderState, quantity: real, ordered: Option<real>)
    requires FillCheck(state, quantity, ordered).None? && (ordered.Some? ==> quantity <= ordered.value)
    ensures ReportFits(state, quantity, ordered)
  {
  }

  lemma AppendedWithinOrder(db: Db, order: string, r: Report, at: int, source: string)
    requires AppendSnapshot(db, order, r, at, source).Ok?
    ensures order in db.orders && AppendSnapshot(db, order, r, at, source).value.0.orders == db.orders && SelfConsistent(r)
    ensures db.orders[order].ordered.Some? ==> r.quantity.value <= db.orders[order].ordered.value
  {
  }

  lemma FillNeedsReport(db: Db, obs: Observation)
    requires Observe(db, obs).1.Ok?
    ensures Observe(db, obs).1.value == Normalize(obs.raw)
    ensures Normalize(obs.raw).Filled? || Normalize(obs.raw).PartiallyFilled? ==> obs.report.Some? && obs.context.Some?
    ensures Stated(db, obs).Ok? && Stated(db, obs).value.orders == db.orders
  {
  }

  /** Whenever an observation is accepted, its report is consistent, a filled order is filled in full and a partly filled one in part, on a report
      that never exceeds what was ordered. */
  lemma {:induction false} AcceptedFillFits(raw: map<string, int>, openings: map<(string, string), string>,
                                            actions: seq<Action>, obs: Observation)
    requires Observe(Run(Empty(raw, openings), actions), obs).1.Ok?
    ensures Normalize(obs.raw).Filled? || Normalize(obs.raw).PartiallyFilled? ==> obs.report.Some?
    ensures var db := Run(Empty(raw, openings), actions);
            obs.report.Some? ==>
              && SelfConsistent(obs.report.value) && obs.order in db.orders
              && ReportFits(Normalize(obs.raw), obs.report.value.quantity.value, db.orders[obs.order].ordered)
  {
    var db := Run(Empty(raw, openings), actions);
    FillNeedsReport(db, obs);
    if obs.report.Some? {
      RunKeeps(raw, openings, actions);
      AcceptedReport(db, obs);
      StatedKeeps(db, obs);
      var r, u := obs.report.value, Stated(db, obs).value;
      var t := AppendSnapshot(u, obs.order, r, obs.at, obs.source).value.0;
      assert OrderInv(u, obs.order);
      AppendedIsLatest(u, obs.order, r, obs.at, obs.source);
      AppendedWithinOrder(u, obs.order, r, obs.at, obs.source);
      PostedReportFits(t, obs);
      CheckedReportFits(Normalize(obs.raw), r.quantity.value, db.orders[obs.order].ordered);
    }
  }

  // ------------------------------------------------------------------ the posted rows

  /** The row, if any, booked for one component of a delta, on the order's own account and currency. */
  ghost predicate CashBooked(db: Db, id: DeltaId, c: Component, amount: real, kind: CashKind)
    requires id.order in db.orders
  {
    var row := FindCash(db.cash, CashEvent(id, c));
    if amount == 0.0 then row.None?
    else
      && row.Some? && row.value.amount == amount && row.value.kind == kind
      && row.value.account == db.orders[id.order].account && row.value.currency == db.orders[id.order].currency
      && Settles(db, id, row.value.settlement)
  }

  ghost predicate SharesBooked(db: Db, id: DeltaId, quantity: real)
    requires id.order in db.orders
  {
    var row := FindPosition(db.positions, id);
    if quantity == 0.0 then row.None?
    else
      && row.Some? && row.value.quantity == quantity
      && row.value.account == db.orders[id.order].account && row.value.instrument == db.orders[id.order].instrument
      && id in db.positionSettlement && Settles(db, id, db.positionSettlement[id])
  }

  /** Over every run: a posted buy has a cost row of minus its amount and a position row of its quantity,
      a posted sell has proceeds and gives shares up, and commission and tax are paid on either. */
  lemma PostedRows(raw: map<string, int>, openings: map<(string, string), string>, actions: seq<Action>, id: DeltaId)
    requires id in Run(Empty(raw, openings), actions).postings
    ensures var db := Run(Empty(raw, openings), actions);
            && id.order in db.orders && 1 <= id.sequence <= |DeltasOf(db, id.order)|
            && var v := DeltaValues(db, id);
               && (db.orders[id.order].side.Buy? ==>
                     CashBooked(db, id, Principal, -v.amount, TradeCost) && SharesBooked(db, id, v.quantity))
               && (db.orders[id.order].side.Sell? ==>
                     CashBooked(db, id, Principal, v.amount, TradeProceeds) && SharesBooked(db, id, -v.quantity))
               && CashBooked(db, id, Commission, -v.commission, CommissionPaid)
               && CashBooked(db, id, Tax, -v.tax, TaxPaid)
  {
    RunKeeps(raw, openings, actions);
    RowsAreSigned(Run(Empty(raw, openings), actions), id);
  }

  lemma SlotIsBooked(db: Db, id: DeltaId, c: Component)
    requires id in db.postings && PostingSound(db, id) && CashSlot(db, id, c)
    ensures var v, side := DeltaValues(db, id), db.orders[id.order].side;
            CashBooked(db, id, c, AmountOf(c, v, side), KindOf(c, side))
  {
  }

  lemma SharesSlotIsBooked(db: Db, id: DeltaId)
    requires id in db.postings && PostingSound(db, id) && PositionSlot(db, id)
    ensures SharesBooked(db, id, QuantityDelta(DeltaValues(db, id), db.orders[id.order].side))
  {
  }

  lemma RowsAreSigned(db: Db, id: DeltaId)
    requires PostingsInv(db) && id in db.postings
    ensures id.order in db.orders && 1 <= id.sequence <= |DeltasOf(db, id.order)|
    ensures var v := DeltaValues(db, id);
            && (db.orders[id.order].side.Buy? ==>
                  CashBooked(db, id, Principal, -v.amount, TradeCost) && SharesBooked(db, id, v.quantity))
            && (db.orders[id.order].side.Sell? ==>
                  CashBooked(db, id, Principal, v.amount, TradeProceeds) && SharesBooked(db, id, -v.quantity))
            && CashBooked(db, id, Commission, -v.commission, CommissionPaid)
            && CashBooked(db, id, Tax, -v.tax, TaxPaid)
  {
    assert PostingSound(db, id) && PositionSlot(db, id);
    assert CashSlot(db, id, Principal) && CashSlot(db, id, Commission) && CashSlot(db, id, Tax);
    SlotIsBooked(db, id, Principal);
    SlotIsBooked(db, id, Commission);
    SlotIsBooked(db, id, Tax);
    SharesSlotIsBooked(db, id);
  }
}
