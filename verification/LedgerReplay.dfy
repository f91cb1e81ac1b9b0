/**
 The replay validators, which recheck the stored streams on their own, and their
 agreement with the writers: whatever the writers store, the validators accept.
 */
module LedgerReplay {
  import opened Common
  import opened Tables
  import opened OrderStates
  import opened Executions
  import opened LedgerRuns

  predicate InAccount(db: Db, account: string, o: string) {
    o in db.orders && db.orders[o].account == account
  }

  // ------------------------------------------------------------------ order states

  /** A stream is not a chain once some prefix of it fails. */
  lemma BrokenPrefix(prefix: seq<StateEvent>, whole: seq<StateEvent>)
    requires prefix <= whole && !StateChain(prefix)
    ensures !StateChain(whole)
  {
    var i :| 0 <= i < |prefix| && !Continues(prefix, i);
    assert !Continues(whole, i);
  }

  /** What the loop's `previous` dictionary holds for an order whose rows so far are `s`. */
  ghost predicate Holds(m: map<string, (int, OrderState, int)>, o: string, s: seq<StateEvent>) {
    if s == [] then o !in m
    else o in m && m[o] == (s[|s| - 1].sequence, s[|s| - 1].state, s[|s| - 1].at)
  }

  /** The loop body's checks of one row against the remembered last row of its order. */
  predicate EventLawful(prior: Option<(int, OrderState, int)>, row: StateEvent) {
    var before := if prior.Some? then Some(prior.value.1) else None;
    && row.sequence == (if prior.Some? then prior.value.0 + 1 else 1)
    && row.previous == before
    && (prior.Some? ==> prior.value.2 <= row.at)
    && Allowed(before, row.state)
  }

  function Recalled<T>(m: map<string, T>, o: string): Option<T> { if o in m then Some(m[o]) else None }

  lemma EventLawfulIsChain(m: map<string, (int, OrderState, int)>, o: string, s: seq<StateEvent>, row: StateEvent)
    requires StateChain(s) && Holds(m, o, s)
    ensures EventLawful(Recalled(m, o), row) <==> StateChain(s + [row])
  {
    assert s != [] ==> Continues(s, |s| - 1);
    assert forall i :: 0 <= i < |s| ==> (Continues(s + [row], i) <==> Continues(s, i));
    assert EventLawful(Recalled(m, o), row) <==> Continues(s + [row], |s|);
  }

  function StateNumber(): StateEvent -> int { (row: StateEvent) => row.sequence }
  function SnapshotNumber(): Snapshot -> int { (row: Snapshot) => row.sequence }

  /** An order's rows as the validators read them, whatever order they were inserted in. */
  function StatesRead(db: Db, o: string): seq<StateEvent> { Ordered(StatesOf(db, o), StateNumber()) }
  function SnapshotsRead(db: Db, o: string): seq<Snapshot> { Ordered(SnapshotsOf(db, o), SnapshotNumber()) }

  /** `_validate_order_states` accepts exactly the tables in which every order of the account, read by sequence number,
      has a contiguous, chronological, lawful stream. */
  method ValidateOrderStates(db: Db, account: string) returns (ok: bool)
    ensures ok <==> forall o :: InAccount(db, account, o) ==> StateChain(StatesRead(db, o))
  {
    var rows := OrderedTable(db.states, StateNumber());
    forall o ensures Of(rows, o) == StatesRead(db, o) { OfOrdered(db.states, StateNumber(), o); }
    ok := ValidateStateRows(db, account, rows);
  }

  /** The rows read so far are sound, and `m` remembers the last of each order. */
  ghost predicate StatesSoFar(db: Db, account: string, rows: seq<Keyed<StateEvent>>, m: map<string, (int, OrderState, int)>) {
    forall o :: InAccount(db, account, o) ==> StateChain(Of(rows, o)) && Holds(m, o, Of(rows, o))
  }

  lemma StateRead(m: map<string, (int, OrderState, int)>, o: string, s: seq<StateEvent>, row: StateEvent)
    requires StateChain(s) && Holds(m, o, s)
    ensures if EventLawful(Recalled(m, o), row)
            then StateChain(s + [row]) && Holds(m[o := (row.sequence, row.state, row.at)], o, s + [row])
            else !StateChain(s + [row])
  {
    EventLawfulIsChain(m, o, s, row);
  }

  lemma HoldsElsewhere(m: map<string, (int, OrderState, int)>, o: string, s: seq<StateEvent>, other: string, v: (int, OrderState, int))
    requires Holds(m, o, s) && other != o
    ensures Holds(m[other := v], o, s)
  {
  }

  lemma StateRowRead(db: Db, account: string, rows: seq<Keyed<StateEvent>>, k: Keyed<StateEvent>,
                     m: map<string, (int, OrderState, int)>)
    requires StatesSoFar(db, account, rows, m)
    ensures !InAccount(db, account, k.order) ==> StatesSoFar(db, account, rows + [k], m)
    ensures InAccount(db, account, k.order) && EventLawful(Recalled(m, k.order), k.row) ==>
              StatesSoFar(db, account, rows + [k], m[k.order := (k.row.sequence, k.row.state, k.row.at)])
    ensures InAccount(db, account, k.order) && !EventLawful(Recalled(m, k.order), k.row) ==> !StateChain(Of(rows + [k], k.order))
  {
    var n := m[k.order := (k.row.sequence, k.row.state, k.row.at)];
    OfAppend(rows, k, k.order);
    if InAccount(db, account, k.order) { StateRead(m, k.order, Of(rows, k.order), k.row); }
    forall o | InAccount(db, account, o) && o != k.order
      ensures Of(rows + [k], o) == Of(rows, o) && Holds(m, o, Of(rows, o)) && Holds(n, o, Of(rows, o)) && StateChain(Of(rows, o))
    {
      OfAppend(rows, k, o);
      HoldsElsewhere(m, o, Of(rows, o), k.order, (k.row.sequence, k.row.state, k.row.at));
    }
  }

  /** The one pass over the rows, with the last row of each order remembered. */
  method ValidateStateRows(db: Db, account: string, rows: seq<Keyed<StateEvent>>) returns (ok: bool)
    ensures ok <==> forall o :: InAccount(db, account, o) ==> StateChain(Of(rows, o))
  {
    var previous: map<string, (int, OrderState, int)> := map[];
    for n := 0 to |rows|
      invariant StatesSoFar(db, account, rows[..n], previous)
    {
      var k := rows[n];
      assert rows[..n + 1] == rows[..n] + [k];
      StateRowRead(db, account, rows[..n], k, previous);
      if InAccount(db, account, k.order) {
        if !EventLawful(Recalled(previous, k.order), k.row) {
          OfPrefix(rows, n + 1, k.order);
          BrokenPrefix(Of(rows[..n + 1], k.order), Of(rows, k.order));
          return false;
        }
        previous := previous[k.order := (k.row.sequence, k.row.state, k.row.at)];
      }
    }
    assert rows[..|rows|] == rows;
    return true;
  }

  // --------------------------------------------------------------- execution chain

  /** The delta stored as leading to a snapshot, if any. */
  function JoinDelta(d: seq<Delta>, to: int): Option<Delta> {
    if d == [] then None else if d[0].to == to then Some(d[0]) else JoinDelta(d[1..], to)
  }

  /** Snapshot `i` passes every check of `_validate_execution_chain`. */
  predicate SnapshotValid(e: seq<Snapshot>, d: seq<Delta>, i: nat)
    requires i < |e|
  {
    var joined := JoinDelta(d, e[i].sequence);
    && e[i].sequence == i + 1
    && (i > 0 ==> e[i - 1].at <= e[i].at)
    && AtLeast(ValuesOf(e[i].report), Prior(e, i))
    && e[i].hash == e[i].report
    && joined.Some?
    && joined.value.from == (if i == 0 then None else Some(i))
    && joined.value.values == Minus(ValuesOf(e[i].report), Prior(e, i))
  }

  ghost predicate ExecutionValid(e: seq<Snapshot>, d: seq<Delta>) {
    forall i :: 0 <= i < |e| ==> SnapshotValid(e, d, i)
  }

  ghost predicate Remembers(m: map<string, (int, Values, int)>, o: string, e: seq<Snapshot>) {
    if e == [] then o !in m
    else o in m && m[o] == (e[|e| - 1].sequence, ValuesOf(e[|e| - 1].report), e[|e| - 1].at)
  }

  /** The loop body's checks of one row against the remembered last row of its order. */
  predicate RowLawful(prior: Option<(int, Values, int)>, row: Snapshot, joined: Option<Delta>) {
    var values, before := ValuesOf(row.report), if prior.Some? then prior.value.1 else ZERO;
    && row.sequence == (if prior.Some? then prior.value.0 + 1 else 1)
    && (prior.Some? ==> prior.value.2 <= row.at)
    && AtLeast(values, before)
    && row.hash == row.report
    && joined.Some?
    && joined.value.from == (if prior.Some? then Some(prior.value.0) else None)
    && joined.value.values == Minus(values, before)
  }

  lemma RowLawfulIsValid(m: map<string, (int, Values, int)>, o: string, e: seq<Snapshot>, d: seq<Delta>, row: Snapshot)
    requires ExecutionValid(e, d) && Remembers(m, o, e)
    ensures RowLawful(Recalled(m, o), row, JoinDelta(d, row.sequence)) <==>
            ExecutionValid(e + [row], d)
  {
    assert e != [] ==> SnapshotValid(e, d, |e| - 1);
    assert forall i :: 0 <= i < |e| ==> (SnapshotValid(e + [row], d, i) <==> SnapshotValid(e, d, i));
    assert RowLawful(Recalled(m, o), row, JoinDelta(d, row.sequence)) <==>
           SnapshotValid(e + [row], d, |e|);
  }

  lemma BrokenExecution(prefix: seq<Snapshot>, whole: seq<Snapshot>, d: seq<Delta>)
    requires prefix <= whole && !ExecutionValid(prefix, d)
    ensures !ExecutionValid(whole, d)
  {
    var i :| 0 <= i < |prefix| && !SnapshotValid(prefix, d, i);
    assert !SnapshotValid(whole, d, i);
  }

  /** `_validate_execution_chain` accepts exactly the tables in which every order's snapshots, read by sequence number,
      are chained and joined with the deltas between them. */
  method ValidateExecutionChain(db: Db, account: string) returns (ok: bool)
    ensures ok <==> forall o :: InAccount(db, account, o) ==> ExecutionValid(SnapshotsRead(db, o), DeltasOf(db, o))
  {
    var rows := OrderedTable(db.snapshots, SnapshotNumber());
    forall o ensures Of(rows, o) == SnapshotsRead(db, o) { OfOrdered(db.snapshots, SnapshotNumber(), o); }
    ok := ValidateSnapshotRows(db, account, rows);
  }

  ghost predicate SnapshotsSoFar(db: Db, account: string, rows: seq<Keyed<Snapshot>>, m: map<string, (int, Values, int)>) {
    forall o :: InAccount(db, account, o) ==> ExecutionValid(Of(rows, o), DeltasOf(db, o)) && Remembers(m, o, Of(rows, o))
  }

  lemma SnapshotRead(m: map<string, (int, Values, int)>, o: string, e: seq<Snapshot>, d: seq<Delta>, row: Snapshot)
    requires ExecutionValid(e, d) && Remembers(m, o, e)
    ensures if RowLawful(Recalled(m, o), row, JoinDelta(d, row.sequence))
            then ExecutionValid(e + [row], d) && Remembers(m[o := (row.sequence, ValuesOf(row.report), row.at)], o, e + [row])
            else !ExecutionValid(e + [row], d)
  {
    RowLawfulIsValid(m, o, e, d, row);
  }

  lemma RemembersElsewhere(m: map<string, (int, Values, int)>, o: string, e: seq<Snapshot>, other: string, v: (int, Values, int))
    requires Remembers(m, o, e) && other != o
    ensures Remembers(m[other := v], o, e)
  {
  }

  lemma SnapshotRowRead(db: Db, account: string, rows: seq<Keyed<Snapshot>>, k: Keyed<Snapshot>, m: map<string, (int, Values, int)>)
    requires SnapshotsSoFar(db, account, rows, m)
    ensures !InAccount(db, account, k.order) ==> SnapshotsSoFar(db, account, rows + [k], m)
    ensures var joined := JoinDelta(DeltasOf(db, k.order), k.row.sequence);
            InAccount(db, account, k.order) ==>
              if RowLawful(Recalled(m, k.order), k.row, joined)
              then SnapshotsSoFar(db, account, rows + [k], m[k.order := (k.row.sequence, ValuesOf(k.row.report), k.row.at)])
              else !ExecutionValid(Of(rows + [k], k.order), DeltasOf(db, k.order))
  {
    var v := (k.row.sequence, ValuesOf(k.row.report), k.row.at);
    OfAppend(rows, k, k.order);
    if InAccount(db, account, k.order) { SnapshotRead(m, k.order, Of(rows, k.order), DeltasOf(db, k.order), k.row); }
    forall o | InAccount(db, account, o) && o != k.order
      ensures Of(rows + [k], o) == Of(rows, o) && ExecutionValid(Of(rows, o), DeltasOf(db, o))
      ensures Remembers(m, o, Of(rows, o)) && Remembers(m[k.order := v], o, Of(rows, o))
    {
      OfAppend(rows, k, o);
      RemembersElsewhere(m, o, Of(rows, o), k.order, v);
    }
  }

  /** The one pass over the snapshots, each joined with its delta. */
  method ValidateSnapshotRows(db: Db, account: string, rows: seq<Keyed<Snapshot>>) returns (ok: bool)
    ensures ok <==> forall o :: InAccount(db, account, o) ==> ExecutionValid(Of(rows, o), DeltasOf(db, o))
  {
    var previous: map<string, (int, Values, int)> := map[];
    for n := 0 to |rows|
      invariant SnapshotsSoFar(db, account, rows[..n], previous)
    {
      var k := rows[n];
      assert rows[..n + 1] == rows[..n] + [k];
      SnapshotRowRead(db, account, rows[..n], k, previous);
      if InAccount(db, account, k.order) {
        if !RowLawful(Recalled(previous, k.order), k.row, JoinDelta(DeltasOf(db, k.order), k.row.sequence)) {
          OfPrefix(rows, n + 1, k.order);
          BrokenExecution(Of(rows[..n + 1], k.order), Of(rows, k.order), DeltasOf(db, k.order));
          return false;
        }
        previous := previous[k.order := (k.row.sequence, ValuesOf(k.row.report), k.row.at)];
      }
    }
    assert rows[..|rows|] == rows;
    return true;
  }

  /** The sum of the deltas the join finds for the first `n` snapshots. */
  ghost function JoinedSum(e: seq<Snapshot>, d: seq<Delta>, n: nat): Values
    requires n <= |e| && forall i :: 0 <= i < n ==> JoinDelta(d, e[i].sequence).Some?
  {
    if n == 0 then ZERO else Plus(JoinedSum(e, d, n - 1), JoinDelta(d, e[n - 1].sequence).value.values)
  }

  /** What acceptance means for any stored tables, however they came to be: the joined deltas are
      non-negative and add up to the latest cumulative snapshot. */
  lemma {:induction false} AcceptedDeltasTelescope(e: seq<Snapshot>, d: seq<Delta>, n: nat)
    requires ExecutionValid(e, d) && n <= |e|
    ensures forall i :: 0 <= i < n ==> JoinDelta(d, e[i].sequence).Some? && AtLeast(JoinDelta(d, e[i].sequence).value.values, ZERO)
    ensures JoinedSum(e, d, n) == Prior(e, n)
    decreases n
  {
    if n > 0 {
      AcceptedDeltasTelescope(e, d, n - 1);
      assert SnapshotValid(e, d, n - 1);
    }
  }

  // ---------------------------------------------------------------------- postings

  /** A delta that needs no posting and has none. */
  predicate Unposted(db: Db, id: DeltaId, v: Values) {
    && !HasEffect(v)
    && id !in db.contexts
    && (id in db.postings ==> db.postings[id].cashEvent.None? && db.postings[id].positionEvent.None?)
  }

  /** One cash component of a posted delta is exactly what the delta says. */
  predicate ComponentValid(db: Db, id: DeltaId, v: Values, ctx: PostingContext, c: Component) {
    if CashEvent(id, c) !in db.components then AmountOf(c, v, ctx.side) == 0.0
    else
      var row := FindCash(db.cash, db.components[CashEvent(id, c)]);
      && row.Some?
      && row.value.account == ctx.account && row.value.currency == ctx.currency && row.value.settlement == ctx.settlement
      && row.value.kind == KindOf(c, ctx.side)
      && row.value.amount == AmountOf(c, v, ctx.side) && AmountOf(c, v, ctx.side) != 0.0
  }

  predicate PositionValid(db: Db, id: DeltaId, v: Values, ctx: PostingContext)
    requires id in db.postings
  {
    var event, expected := db.postings[id].positionEvent, QuantityDelta(v, ctx.side);
    if expected == 0.0 then event.None?
    else
      && event.Some?
      && var row := FindPosition(db.positions, event.value);
         && row.Some? && event.value in db.positionSettlement
         && row.value.account == ctx.account && row.value.instrument == ctx.instrument
         && row.value.quantity == expected && db.positionSettlement[event.value] == ctx.settlement
  }

  /** The checks of `_validate_postings` made before the ledger rows are compared. */
  predicate ContextChecked(db: Db, account: string, id: DeltaId, createdAt: int) {
    && id in db.contexts
    && id in db.evidence && db.evidence[id] == db.contexts[id].settlement
    && Settles(db, id, db.contexts[id].settlement)
    && id.order in db.orders
    && db.contexts[id].account == account && IdentityMatches(db.orders[id.order], db.contexts[id])
    && id in db.postings && createdAt <= db.postings[id].at
  }

  predicate PrincipalLinked(db: Db, id: DeltaId)
    requires id in db.postings
  {
    db.postings[id].cashEvent ==
      (if CashEvent(id, Principal) in db.components then Some(db.components[CashEvent(id, Principal)]) else None)
  }

  predicate PostingValid(db: Db, account: string, o: string, d: Delta) {
    var id := DeltaId(o, d.to);
    || Unposted(db, id, d.values)
    || (&& ContextChecked(db, account, id, d.createdAt)
        && PositionValid(db, id, d.values, db.contexts[id])
        && ComponentValid(db, id, d.values, db.contexts[id], Principal)
        && ComponentValid(db, id, d.values, db.contexts[id], Commission)
        && ComponentValid(db, id, d.values, db.contexts[id], Tax)
        && PrincipalLinked(db, id))
  }

  /** The inner loop of `_validate_postings`: it gathers the actual components in a dictionary and
      compares that with the expected ones. */
  method ComponentsMatch(db: Db, id: DeltaId, v: Values, ctx: PostingContext) returns (ok: bool)
    ensures ok <==> ComponentValid(db, id, v, ctx, Principal) && ComponentValid(db, id, v, ctx, Commission) &&
                    ComponentValid(db, id, v, ctx, Tax)
  {
    var expected: map<Component, real> := map[];
    if v.amount != 0.0 { expected := expected[Principal := if ctx.side.Buy? then -v.amount else v.amount]; }
    if v.commission != 0.0 { expected := expected[Commission := -v.commission]; }
    if v.tax != 0.0 { expected := expected[Tax := -v.tax]; }
    assert forall c :: c in expected <==> AmountOf(c, v, ctx.side) != 0.0;
    assert forall c :: c in expected ==> expected[c] == AmountOf(c, v, ctx.side);
    var all := [Principal, Commission, Tax];
    var actual: map<Component, real> := map[];
    for n := 0 to 3
      invariant forall c :: c in actual <==> c in all[..n] && CashEvent(id, c) in db.components
      invariant forall c :: c in actual ==>
        && FindCash(db.cash, db.components[CashEvent(id, c)]).Some?
        && var row := FindCash(db.cash, db.components[CashEvent(id, c)]).value;
           row.amount == actual[c] && row.account == ctx.account && row.currency == ctx.currency &&
           row.settlement == ctx.settlement && row.kind == KindOf(c, ctx.side)
    {
      var c := all[n];
      assert all[..n + 1] == all[..n] + [c];
      if CashEvent(id, c) in db.components {
        var row := FindCash(db.cash, db.components[CashEvent(id, c)]);
        if row.None? || row.value.account != ctx.account || row.value.currency != ctx.currency ||
           row.value.settlement != ctx.settlement || row.value.kind != KindOf(c, ctx.side) {
          assert !ComponentValid(db, id, v, ctx, c);
          return false;
        }
        actual := actual[c := row.value.amount];
      }
    }
    ok := actual == expected;
    forall c: Component ensures c in all[..3] {
      assert all[0] == Principal && all[1] == Commission && all[2] == Tax;
      match c case Principal => case Commission => case Tax =>
    }
    SameComponents(db, id, v, ctx, actual, expected);
  }

  lemma SameComponents(db: Db, id: DeltaId, v: Values, ctx: PostingContext,
                       actual: map<Component, real>, expected: map<Component, real>)
    requires forall c :: c in expected <==> AmountOf(c, v, ctx.side) != 0.0
    requires forall c :: c in expected ==> expected[c] == AmountOf(c, v, ctx.side)
    requires forall c :: c in actual <==> CashEvent(id, c) in db.components
    requires forall c :: c in actual ==>
        && FindCash(db.cash, db.components[CashEvent(id, c)]).Some?
        && var row := FindCash(db.cash, db.components[CashEvent(id, c)]).value;
           row.amount == actual[c] && row.account == ctx.account && row.currency == ctx.currency &&
           row.settlement == ctx.settlement && row.kind == KindOf(c, ctx.side)
    ensures actual == expected <==> forall c :: ComponentValid(db, id, v, ctx, c)
    ensures (forall c :: ComponentValid(db, id, v, ctx, c)) <==>
            ComponentValid(db, id, v, ctx, Principal) && ComponentValid(db, id, v, ctx, Commission) &&
            ComponentValid(db, id, v, ctx, Tax)
  {
    if forall c :: ComponentValid(db, id, v, ctx, c) {
      forall c ensures c in actual <==> c in expected { assert ComponentValid(db, id, v, ctx, c); }
      forall c | c in actual ensures actual[c] == expected[c] { assert ComponentValid(db, id, v, ctx, c); }
      assert actual.Keys == expected.Keys;
    }
    if actual == expected {
      forall c ensures ComponentValid(db, id, v, ctx, c) { assert c in actual <==> c in expected; }
    }
    if ComponentValid(db, id, v, ctx, Principal) && ComponentValid(db, id, v, ctx, Commission) && ComponentValid(db, id, v, ctx, Tax) {
      forall c ensures ComponentValid(db, id, v, ctx, c) { match c case Principal => case Commission => case Tax => }
    }
  }

  method ValidatePosting(db: Db, account: string, o: string, d: Delta) returns (ok: bool)
    ensures ok <==> PostingValid(db, account, o, d)
  {
    var id := DeltaId(o, d.to);
    if Unposted(db, id, d.values) { return true; }
    if !ContextChecked(db, account, id, d.createdAt) { return false; }
    if !PositionValid(db, id, d.values, db.contexts[id]) { return false; }
    var components := ComponentsMatch(db, id, d.values, db.contexts[id]);
    if !components { return false; }
    ok := PrincipalLinked(db, id);
  }

  /** `_validate_postings`: the loop over every delta of the account's orders. */
  method ValidatePostings(db: Db, account: string) returns (ok: bool)
    ensures ok <==> forall n :: 0 <= n < |db.deltas| && InAccount(db, account, db.deltas[n].order) ==>
                      PostingValid(db, account, db.deltas[n].order, db.deltas[n].row)
  {
    for n := 0 to |db.deltas|
      invariant forall k :: 0 <= k < n && InAccount(db, account, db.deltas[k].order) ==>
                  PostingValid(db, account, db.deltas[k].order, db.deltas[k].row)
    {
      if InAccount(db, account, db.deltas[n].order) {
        var valid := ValidatePosting(db, account, db.deltas[n].order, db.deltas[n].row);
        if !valid { return false; }
      }
    }
    return true;
  }

  function AmountFound(db: Db, id: DeltaId, c: Component): real {
    if CashEvent(id, c) in db.components && FindCash(db.cash, db.components[CashEvent(id, c)]).Some?
    then FindCash(db.cash, db.components[CashEvent(id, c)]).value.amount else 0.0
  }

  /** What acceptance means for any stored tables: a buy's linked cash rows add up to minus its amount and
      costs and its position row is its quantity; a sell's to its amount less costs and minus its quantity. */
  lemma AcceptedPostingBalances(db: Db, account: string, o: string, d: Delta)
    requires PostingValid(db, account, o, d) && HasEffect(d.values)
    ensures var id, v := DeltaId(o, d.to), d.values;
            && id in db.postings && id in db.contexts
            && (db.contexts[id].side.Buy? || db.contexts[id].side.Sell?)
            && AmountFound(db, id, Principal) + AmountFound(db, id, Commission) + AmountFound(db, id, Tax) ==
               (if db.contexts[id].side.Buy? then -v.amount - v.commission - v.tax else v.amount - v.commission - v.tax)
            && (v.quantity != 0.0 ==>
                  && db.postings[id].positionEvent.Some?
                  && FindPosition(db.positions, db.postings[id].positionEvent.value).Some?
                  && FindPosition(db.positions, db.postings[id].positionEvent.value).value.quantity ==
                     (if db.contexts[id].side.Buy? then v.quantity else -v.quantity))
  {
  }

  /** A linked cash row is on the order's own account and currency and settles on the proven date. */
  ghost predicate RowAgrees(db: Db, account: string, id: DeltaId, c: Component)
    requires id.order in db.orders
  {
    CashEvent(id, c) in db.components ==>
      var row := FindCash(db.cash, db.components[CashEvent(id, c)]);
      && row.Some? && row.value.amount != 0.0
      && row.value.account == account == db.orders[id.order].account && row.value.currency == db.orders[id.order].currency
      && Settles(db, id, row.value.settlement)
  }

  /** The rows of an accepted posting belong to its order, and it does not predate its delta. */
  lemma AcceptedPostingAgrees(db: Db, account: string, o: string, d: Delta, c: Component)
    requires PostingValid(db, account, o, d) && HasEffect(d.values)
    ensures var id := DeltaId(o, d.to);
            && o in db.orders && id in db.postings && d.createdAt <= db.postings[id].at
            && db.contexts[id].side == db.orders[o].side && RowAgrees(db, account, id, c)
            && (d.values.quantity != 0.0 ==>
                  var row := FindPosition(db.positions, db.postings[id].positionEvent.value);
                  row.Some? && row.value.account == account && row.value.instrument == db.orders[o].instrument)
  {
    var id := DeltaId(o, d.to);
    assert ComponentValid(db, id, d.values, db.contexts[id], c) by {
      match c case Principal => case Commission => case Tax =>
    }
  }

  // --------------------------------------------------------------------- agreement

  lemma {:induction false} JoinFindsOwn(d: seq<Delta>, i: nat, base: int)
    requires i < |d| && forall k :: 0 <= k < |d| ==> d[k].to == base + k
    ensures JoinDelta(d, base + i) == Some(d[i])
    decreases i
  {
    if i > 0 { JoinFindsOwn(d[1..], i - 1, base + 1); }
  }

  lemma ChainIsValid(e: seq<Snapshot>, d: seq<Delta>)
    requires ExecutionChain(e, d)
    ensures ExecutionValid(e, d)
  {
    forall k | 0 <= k < |d| ensures d[k].to == 1 + k { assert Linked(e, d, k); }
    forall i | 0 <= i < |e| ensures SnapshotValid(e, d, i) {
      assert Linked(e, d, i);
      JoinFindsOwn(d, i, 1);
    }
  }

  lemma SlotIsValid(db: Db, id: DeltaId, c: Component)
    requires id in db.postings && PostingSound(db, id) && CashSlot(db, id, c)
    ensures ComponentValid(db, id, DeltaValues(db, id), db.contexts[id], c)
  {
  }

  lemma WrittenPostingIsValid(db: Db, o: string, i: nat)
    requires Inv(db) && EffectsPosted(db) && o in db.orders && i < |DeltasOf(db, o)|
    ensures PostingValid(db, db.orders[o].account, o, DeltasOf(db, o)[i])
  {
    assert OrderInv(db, o);
    assert Linked(SnapshotsOf(db, o), DeltasOf(db, o), i);
    var id := DeltaId(o, i + 1);
    if id in db.postings {
      PostedIsValid(db, id);
    } else {
      assert !HasEffect(DeltasOf(db, o)[i].values);
    }
  }

  lemma PositionIsValid(db: Db, id: DeltaId)
    requires id in db.postings && PostingSound(db, id) && PositionSlot(db, id)
    ensures PositionValid(db, id, DeltaValues(db, id), db.contexts[id])
  {
  }

  lemma PrincipalIsLinked(db: Db, id: DeltaId)
    requires id in db.postings && PostingSound(db, id) && CashSlot(db, id, Principal)
    ensures PrincipalLinked(db, id)
  {
  }

  lemma ContextIsChecked(db: Db, id: DeltaId)
    requires id in db.postings && PostingSound(db, id)
    ensures ContextChecked(db, db.orders[id.order].account, id, DeltasOf(db, id.order)[id.sequence - 1].createdAt)
  {
  }

  lemma PostedIsValid(db: Db, id: DeltaId)
    requires PostingsInv(db) && id in db.postings && id.order in db.orders
    requires 1 <= id.sequence <= |DeltasOf(db, id.order)| && DeltasOf(db, id.order)[id.sequence - 1].to == id.sequence
    ensures PostingValid(db, db.orders[id.order].account, id.order, DeltasOf(db, id.order)[id.sequence - 1])
  {
    assert PostingSound(db, id);
    assert CashSlot(db, id, Principal) && CashSlot(db, id, Commission) && CashSlot(db, id, Tax) && PositionSlot(db, id);
    ContextIsChecked(db, id);
    PositionIsValid(db, id);
    SlotIsValid(db, id, Principal);
    SlotIsValid(db, id, Commission);
    SlotIsValid(db, id, Tax);
    PrincipalIsLinked(db, id);
  }

  /** Every row of the table is one of its order's rows. */
  lemma {:induction false} RowIsListed<T>(rows: seq<Keyed<T>>, n: nat) returns (i: nat)
    requires n < |rows|
    ensures i < |Of(rows, rows[n].order)| && Of(rows, rows[n].order)[i] == rows[n].row
    decreases |rows|
  {
    var init := rows[..|rows| - 1];
    if n < |rows| - 1 { i := RowIsListed(init, n); } else { i := |Of(init, rows[n].order)|; }
  }

  /** The writers insert in sequence, so their rows are read as written. */
  lemma WrittenAsRead(db: Db, o: string)
    requires StateChain(StatesOf(db, o)) && ExecutionChain(SnapshotsOf(db, o), DeltasOf(db, o))
    ensures StatesRead(db, o) == StatesOf(db, o) && SnapshotsRead(db, o) == SnapshotsOf(db, o)
  {
    var s, e := StatesOf(db, o), SnapshotsOf(db, o);
    forall i | 0 <= i < |s| ensures StateNumber()(s[i]) == i + 1 { assert Continues(s, i); }
    forall i | 0 <= i < |e| ensures SnapshotNumber()(e[i]) == i + 1 { assert Linked(e, DeltasOf(db, o), i); }
    OrderedStays(s, StateNumber());
    OrderedStays(e, SnapshotNumber());
  }

  /** Whatever the writers store, the replay validators accept, for every account. */
  lemma WritersPassReplay(raw: map<string, int>, openings: map<(string, string), string>, actions: seq<Action>, account: string)
    ensures var db := Run(Empty(raw, openings), actions);
            && (forall o :: InAccount(db, account, o) ==> StateChain(StatesRead(db, o)))
            && (forall o :: InAccount(db, account, o) ==> ExecutionValid(SnapshotsRead(db, o), DeltasOf(db, o)))
            && (forall n :: 0 <= n < |db.deltas| && InAccount(db, account, db.deltas[n].order) ==>
                  PostingValid(db, account, db.deltas[n].order, db.deltas[n].row))
  {
    RunKeeps(raw, openings, actions);
    var db := Run(Empty(raw, openings), actions);
    forall o ensures StateChain(StatesRead(db, o)) && ExecutionValid(SnapshotsRead(db, o), DeltasOf(db, o)) {
      assert OrderInv(db, o);
      WrittenAsRead(db, o);
      ChainIsValid(SnapshotsOf(db, o), DeltasOf(db, o));
    }
    forall n | 0 <= n < |db.deltas| && InAccount(db, account, db.deltas[n].order)
      ensures PostingValid(db, account, db.deltas[n].order, db.deltas[n].row)
    {
      var i := RowIsListed(db.deltas, n);
      WrittenPostingIsValid(db, db.deltas[n].order, i);
    }
  }
}
