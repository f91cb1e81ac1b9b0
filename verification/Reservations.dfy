/**
 Cash and share reservations: events that hold an amount back for an open order, their release when an observation finds
 the order terminal, and the replay check that no terminal order still holds one.
 */
module Reservations {
  import opened Common
  import opened Tables
  import opened OrderStates
  import opened Executions
  import opened LedgerRuns
  import opened LedgerReplay
  import opened LedgerStore

  /** `item` is the currency of a cash reservation, the instrument of a share reservation. */
  datatype Hold = Hold(sequence: int, account: string, item: string, amount: real, reserved: bool, source: string, at: int)

  datatype Kind = Cash | Shares

  datatype HoldRefusal = Negative | EvidenceConflict | IdentityChanges | TimeReversed | OrderUnknown

  /** The ledger tables together with the two reservation tables. */
  datatype Books = Books(db: Db, cash: seq<Keyed<Hold>>, shares: seq<Keyed<Hold>>)

  datatype Request = Request(order: string, account: string, item: string, amount: real, source: string, at: int, released: bool)

  function TableOf(b: Books, kind: Kind): seq<Keyed<Hold>> { if kind.Cash? then b.cash else b.shares }

  function HoldsOf(b: Books, kind: Kind, o: string): seq<Hold> { Of(TableOf(b, kind), o) }

  function WithTable(b: Books, kind: Kind, rows: seq<Keyed<Hold>>): Books {
    if kind.Cash? then b.(cash := rows) else b.(shares := rows)
  }

  predicate Evidenced(h: seq<Hold>, source: string) { exists i :: 0 <= i < |h| && h[i].source == source }

  /** The event a request asks for, behind the events `h`. */
  function EventOf(h: seq<Hold>, r: Request): Hold {
    Hold(|h| + 1, r.account, r.item, if r.released then 0.0 else r.amount, !r.released, r.source, r.at)
  }

  /** A stored event with the request's evidence says something else. */
  predicate Contradicts(h: seq<Hold>, r: Request) {
    exists i :: 0 <= i < |h| && h[i].source == r.source && h[i] != EventOf(h, r).(sequence := h[i].sequence)
  }

  /** `reserve_open_order` and `reserve_sell`: repeat, refuse, or append; the order's state is not consulted. */
  function Reserve(b: Books, kind: Kind, r: Request): Result<Books, HoldRefusal> {
    var h := HoldsOf(b, kind, r.order);
    if r.amount < 0.0 && (kind.Shares? || !r.released) then Err(Negative)
    else if Evidenced(h, r.source) then if Contradicts(h, r) then Err(EvidenceConflict) else Ok(b)
    else if h != [] && (h[|h| - 1].account, h[|h| - 1].item) != (r.account, r.item) then Err(IdentityChanges)
    else if h != [] && r.at < h[|h| - 1].at then Err(HoldRefusal.TimeReversed)
    else if r.order !in b.db.orders then Err(OrderUnknown)
    else Ok(WithTable(b, kind, TableOf(b, kind) + [Keyed(r.order, EventOf(h, r))]))
  }

  predicate Holding(b: Books, kind: Kind, o: string) {
    var h := HoldsOf(b, kind, o);
    h != [] && h[|h| - 1].reserved
  }

  /** The release cannot be recorded: this very response already speaks about a reservation still held. */
  predicate ReleaseConflicts(b: Books, kind: Kind, o: string, source: string) {
    Holding(b, kind, o) && Evidenced(HoldsOf(b, kind, o), source)
  }

  function Released(b: Books, kind: Kind, o: string, source: string, at: int): Books {
    var h := HoldsOf(b, kind, o);
    if !Holding(b, kind, o) then b
    else
      var last := h[|h| - 1];
      WithTable(b, kind, TableOf(b, kind) + [Keyed(o, Hold(|h| + 1, last.account, last.item, 0.0, false, source, at))])
  }

  /** `_release_reservations` on both tables. */
  function ReleaseAll(b: Books, o: string, source: string, at: int): Option<Books> {
    if ReleaseConflicts(b, Cash, o, source) || ReleaseConflicts(b, Shares, o, source) then None
    else Some(Released(Released(b, Cash, o, source, at), Shares, o, source, at))
  }

  /** The end of an observation, given its ledger outcome. */
  function Conclude(b: Books, freed: Option<Books>, db: Db, r: Result<OrderState, Refusal>): (Books, Result<OrderState, Refusal>) {
    if r.Ok? && Terminal(r.value) && freed.Some? then (freed.value.(db := db), r) else (b.(db := db), r)
  }

  /** `observe`, with the reservation release it ends in. */
  function ObserveAll(b: Books, obs: Observation): (Books, Result<OrderState, Refusal>) {
    var freed := ReleaseAll(b, obs.order, obs.source, obs.at);
    var (db, r) := Observe(b.db, obs.(release := freed.Some?));
    Conclude(b, freed, db, r)
  }

  // ------------------------------------------------------------------- runs

  datatype Step = Ledger(action: Action) | Reserving(kind: Kind, request: Request)

  function After(b: Books, s: Step): Books {
    match s
    case Reserving(kind, request) => (var r := Reserve(b, kind, request); if r.Ok? then r.value else b)
    case Ledger(a) => if a.Observed? then ObserveAll(b, a.obs).0 else b.(db := Next(b.db, a))
  }

  function Play(b: Books, steps: seq<Step>): Books
    decreases |steps|
  {
    if steps == [] then b else After(Play(b, steps[..|steps| - 1]), steps[|steps| - 1])
  }

  function Start(raw: map<string, int>, openings: map<(string, string), string>): Books { Books(Empty(raw, openings), [], []) }

  predicate Ended(b: Books, o: string) {
    var s := LastState(StatesOf(b.db, o));
    s.Some? && Terminal(s.value)
  }

  /** A terminal order that still holds cash or shares. */
  predicate Stuck(b: Books, o: string) { Ended(b, o) && (Holding(b, Cash, o) || Holding(b, Shares, o)) }

  /** The step reserves for an order that has ended, or ends an order from inside while it holds something. */
  predicate Strands(b: Books, s: Step, o: string) {
    match s
    case Reserving(kind, r) =>
      r.order == o && Ended(b, o) && !r.released && Reserve(b, kind, r).Ok? && !Evidenced(HoldsOf(b, kind, o), r.source)
    case Ledger(Internal(order, state, at, source, reason)) =>
      && order == o && Terminal(state) && AppendState(b.db, o, state, at, source, reason, false).Ok?
      && (Holding(b, Cash, o) || Holding(b, Shares, o))
    case _ => false
  }

  // ------------------------------------------------------------------- one step

  lemma RepeatedState(s: seq<StateEvent>, state: OrderState, at: int, source: Option<string>, reason: Option<string>, external: bool)
    requires DecideState(s, state, at, source, reason, external) == Ok(false)
    ensures LastState(s) == Some(state)
  {
  }

  lemma AppendedState(db: Db, order: string, state: OrderState, at: int, source: Option<string>, reason: Option<string>,
                      external: bool, o: string)
    requires AppendState(db, order, state, at, source, reason, external).Ok?
    ensures var t := AppendState(db, order, state, at, source, reason, external).value;
            if o == order then LastState(StatesOf(t, o)) == Some(state) else StatesOf(t, o) == StatesOf(db, o)
  {
    var s := StatesOf(db, order);
    if DecideState(s, state, at, source, reason, external).value {
      OfAppend(db.states, Keyed(order, NextEvent(s, state, at, source, reason)), o);
    } else {
      RepeatedState(s, state, at, source, reason, external);
    }
  }

  lemma PostingKeepsStates(db: Db, obs: Observation)
    requires PostNewest(db, obs).Ok?
    ensures PostNewest(db, obs).value.states == db.states
  {
  }

  lemma ReportKeepsStates(db: Db, obs: Observation)
    requires obs.report.Some? && ObserveReport(db, obs).Ok?
    ensures ObserveReport(db, obs).value.states == db.states
  {
    var t := AppendSnapshot(db, obs.order, obs.report.value, obs.at, obs.source).value.0;
    PostingKeepsStates(t, obs);
  }

  /** An observation that returns leaves its order in the observed state; one that raises leaves it alone, or unknown. */
  ghost predicate StateOutcome(db: Db, order: string, t: Db, r: Result<OrderState, Refusal>, o: string) {
    if o != order then StatesOf(t, o) == StatesOf(db, o)
    else if r.Ok? then LastState(StatesOf(t, o)) == Some(r.value)
    else StatesOf(t, o) == StatesOf(db, o) || LastState(StatesOf(t, o)) == Some(Unknown)
  }

  /** What an observation answers, and with which tables. */
  lemma ObserveAnswers(db: Db, obs: Observation, t: Db, r: Result<OrderState, Refusal>)
    requires (t, r) == Observe(db, obs)
    ensures r.Ok? ==> Stated(db, obs).Ok? && r.value == Normalize(obs.raw)
    ensures r.Ok? ==> t == Stated(db, obs).value || (obs.report.Some? && ObserveReport(Stated(db, obs).value, obs) == Ok(t))
    ensures r.Err? ==> t == db || (Stated(db, obs).Ok? && t == Stated(db, obs).value && Normalize(obs.raw) == Unknown)
  {
  }

  /** The states after an observation: as before, or as after its state event. */
  lemma ObservedTable(db: Db, obs: Observation, t: Db, r: Result<OrderState, Refusal>)
    requires (t, r) == Observe(db, obs)
    ensures r.Ok? ==> Stated(db, obs).Ok? && t.states == Stated(db, obs).value.states && r.value == Normalize(obs.raw)
    ensures r.Err? ==> t.states == db.states || (Stated(db, obs).Ok? && t.states == Stated(db, obs).value.states && Normalize(obs.raw) == Unknown)
  {
    ObserveAnswers(db, obs, t, r);
    if r.Ok? && t != Stated(db, obs).value { ReportKeepsStates(Stated(db, obs).value, obs); }
  }

  lemma ObservedState(db: Db, obs: Observation, o: string)
    ensures StateOutcome(db, obs.order, Observe(db, obs).0, Observe(db, obs).1, o)
  {
    var (t, r) := Observe(db, obs);
    ObservedTable(db, obs, t, r);
    OutcomeOfTable(db, obs, t, r, o);
  }

  lemma OutcomeOfTable(db: Db, obs: Observation, t: Db, r: Result<OrderState, Refusal>, o: string)
    requires r.Ok? ==> Stated(db, obs).Ok? && t.states == Stated(db, obs).value.states && r.value == Normalize(obs.raw)
    requires r.Err? ==> t.states == db.states || (Stated(db, obs).Ok? && t.states == Stated(db, obs).value.states && Normalize(obs.raw) == Unknown)
    ensures StateOutcome(db, obs.order, t, r, o)
  {
    if Stated(db, obs).Ok? {
      AppendedState(db, obs.order, Normalize(obs.raw), obs.at, Some(obs.source), UnknownReason(obs), true, o);
    }
  }

  lemma HoldAppended(rows: seq<Keyed<Hold>>, order: string, h: Hold)
    ensures forall o :: Of(rows + [Keyed(order, h)], o) == if o == order then Of(rows, o) + [h] else Of(rows, o)
  {
    forall o ensures Of(rows + [Keyed(order, h)], o) == if o == order then Of(rows, o) + [h] else Of(rows, o) {
      OfAppend(rows, Keyed(order, h), o);
    }
  }

  lemma ReleasedHolds(b: Books, kind: Kind, order: string, source: string, at: int)
    ensures var t := Released(b, kind, order, source, at);
            && !Holding(t, kind, order) && t.db == b.db
            && (forall k, o :: k != kind || o != order ==> HoldsOf(t, k, o) == HoldsOf(b, k, o))
  {
    var h := HoldsOf(b, kind, order);
    if Holding(b, kind, order) {
      HoldAppended(TableOf(b, kind), order, Hold(|h| + 1, h[|h| - 1].account, h[|h| - 1].item, 0.0, false, source, at));
    }
  }

  lemma ReleaseFrees(b: Books, o: string, source: string, at: int)
    requires ReleaseAll(b, o, source, at).Some?
    ensures var t := ReleaseAll(b, o, source, at).value;
            && !Holding(t, Cash, o) && !Holding(t, Shares, o)
            && forall k, other :: other != o ==> HoldsOf(t, k, other) == HoldsOf(b, k, other)
  {
    var c := Released(b, Cash, o, source, at);
    ReleasedHolds(b, Cash, o, source, at);
    ReleasedHolds(c, Shares, o, source, at);
    assert HoldsOf(Released(c, Shares, o, source, at), Cash, o) == HoldsOf(c, Cash, o);
  }

  /** Everything an observation of `o` does that matters to reservations: `t` and `r` are its outcome. */
  ghost predicate Concluded(b: Books, o: string, t: Books, r: Result<OrderState, Refusal>) {
    && (forall p :: StateOutcome(b.db, o, t.db, r, p))
    && (if r.Ok? && Terminal(r.value)
        then && !Holding(t, Cash, o) && !Holding(t, Shares, o)
             && forall k, other :: other != o ==> HoldsOf(t, k, other) == HoldsOf(b, k, other)
        else t.cash == b.cash && t.shares == b.shares)
  }

  /** A terminal observation that returns frees everything its order held and touches no other order; any other leaves the
      reservations alone, and the source's rollback with them. */
  lemma ObservationConcludes(b: Books, obs: Observation)
    ensures Concluded(b, obs.order, ObserveAll(b, obs).0, ObserveAll(b, obs).1)
  {
    var freed := ReleaseAll(b, obs.order, obs.source, obs.at);
    var asked := obs.(release := freed.Some?);
    forall p ensures StateOutcome(b.db, obs.order, Observe(b.db, asked).0, Observe(b.db, asked).1, p) {
      ObservedState(b.db, asked, p);
    }
    if freed.Some? { ReleaseFrees(b, obs.order, obs.source, obs.at); }
    TerminalNeedsRelease(b.db, asked);
    Concludes(b, obs.order, freed, Observe(b.db, asked).0, Observe(b.db, asked).1);
  }

  lemma TerminalNeedsRelease(db: Db, obs: Observation)
    ensures var r := Observe(db, obs).1; r.Ok? && Terminal(r.value) ==> obs.release
  {
  }

  lemma Concludes(b: Books, o: string, freed: Option<Books>, db: Db, r: Result<OrderState, Refusal>)
    requires forall p :: StateOutcome(b.db, o, db, r, p)
    requires r.Ok? && Terminal(r.value) ==> freed.Some?
    requires freed.Some? ==> !Holding(freed.value, Cash, o) && !Holding(freed.value, Shares, o)
    requires freed.Some? ==> forall k, other :: other != o ==> HoldsOf(freed.value, k, other) == HoldsOf(b, k, other)
    ensures var (t, s) := Conclude(b, freed, db, r); Concluded(b, o, t, s)
  {
    var t := Conclude(b, freed, db, r).0;
    if r.Ok? && Terminal(r.value) {
      forall k, other ensures HoldsOf(t, k, other) == HoldsOf(freed.value, k, other) {}
    }
  }

  lemma EndedSame(b: Books, t: Books, o: string)
    requires StatesOf(t.db, o) == StatesOf(b.db, o)
    ensures Ended(t, o) == Ended(b, o)
  {
  }

  lemma HoldingSame(b: Books, t: Books, kind: Kind, o: string)
    requires HoldsOf(t, kind, o) == HoldsOf(b, kind, o)
    ensures Holding(t, kind, o) == Holding(b, kind, o)
  {
  }

  lemma ConcludedStrandsNobody(b: Books, order: string, t: Books, r: Result<OrderState, Refusal>, o: string)
    requires Concluded(b, order, t, r) && !Stuck(b, o)
    ensures !Stuck(t, o)
  {
    assert StateOutcome(b.db, order, t.db, r, o);
    if !(r.Ok? && Terminal(r.value) && o == order) {
      HoldingSame(b, t, Cash, o);
      HoldingSame(b, t, Shares, o);
      if StatesOf(t.db, o) == StatesOf(b.db, o) { EndedSame(b, t, o); }
    }
  }

  lemma ObservationStrandsNobody(b: Books, obs: Observation, o: string)
    requires !Stuck(b, o)
    ensures !Stuck(ObserveAll(b, obs).0, o)
  {
    ObservationConcludes(b, obs);
    ConcludedStrandsNobody(b, obs.order, ObserveAll(b, obs).0, ObserveAll(b, obs).1, o);
  }

  lemma ReserveStrandsIff(b: Books, kind: Kind, r: Request, o: string)
    requires !Stuck(b, o)
    ensures Stuck(After(b, Reserving(kind, r)), o) <==> Strands(b, Reserving(kind, r), o)
  {
    var h := HoldsOf(b, kind, r.order);
    if Reserve(b, kind, r).Ok? && !Evidenced(h, r.source) {
      HoldAppended(TableOf(b, kind), r.order, EventOf(h, r));
      NewHold(b, kind, r.order, EventOf(h, r), o);
    }
  }

  /** A new event decides its own order's holding in its own table, and nothing else. */
  lemma NewHold(b: Books, kind: Kind, order: string, event: Hold, o: string)
    ensures var t := WithTable(b, kind, TableOf(b, kind) + [Keyed(order, event)]);
            && Ended(t, o) == Ended(b, o)
            && forall k :: Holding(t, k, o) == if k == kind && o == order then event.reserved else Holding(b, k, o)
  {
    HoldAppended(TableOf(b, kind), order, event);
  }

  /** An internal event that is accepted decides its own order's state, and nothing else. */
  lemma InternalOutcome(db: Db, a: Action, o: string)
    requires a.Internal?
    ensures var t := Next(db, a);
            if AppendState(db, a.order, a.state, a.at, a.source, a.reason, false).Ok? && o == a.order
            then LastState(StatesOf(t, o)) == Some(a.state) else StatesOf(t, o) == StatesOf(db, o)
  {
    if AppendState(db, a.order, a.state, a.at, a.source, a.reason, false).Ok? {
      AppendedState(db, a.order, a.state, a.at, a.source, a.reason, false, o);
    }
  }

  lemma SameTablesHold(b: Books, db: Db, kind: Kind, o: string)
    ensures Holding(b.(db := db), kind, o) == Holding(b, kind, o)
  {
  }

  lemma InternalStrandsIff(b: Books, a: Action, o: string)
    requires !Stuck(b, o) && a.Internal?
    ensures Stuck(After(b, Ledger(a)), o) <==> Strands(b, Ledger(a), o)
  {
    InternalOutcome(b.db, a, o);
    SameTablesHold(b, Next(b.db, a), Cash, o);
    SameTablesHold(b, Next(b.db, a), Shares, o);
    assert After(b, Ledger(a)) == b.(db := Next(b.db, a));
  }

  /** An order that is not stuck becomes stuck exactly by a step that strands it: a new reservation for an ended order, or
      an internal terminal event for one that holds something.  Observations never do. */
  lemma StepStrandsIff(b: Books, s: Step, o: string)
    requires !Stuck(b, o)
    ensures Stuck(After(b, s), o) <==> Strands(b, s, o)
  {
    match s
    case Reserving(kind, r) => ReserveStrandsIff(b, kind, r, o);
    case Ledger(a) =>
      if a.Observed? { ObservationStrandsNobody(b, a.obs, o); } else if a.Internal? { InternalStrandsIff(b, a, o); }
  }

  /** No step of the run strands the order. */
  ghost predicate Safe(b: Books, steps: seq<Step>, o: string) {
    forall i :: 0 <= i < |steps| ==> !Strands(Play(b, steps[..i]), steps[i], o)
  }

  lemma SafeInit(b: Books, init: seq<Step>, last: Step, o: string)
    requires Safe(b, init + [last], o)
    ensures Safe(b, init, o) && !Strands(Play(b, init), last, o)
  {
    var steps := init + [last];
    forall i | 0 <= i < |init| ensures !Strands(Play(b, init[..i]), init[i], o) {
      assert steps[..i] == init[..i] && !Strands(Play(b, steps[..i]), steps[i], o);
    }
    assert steps[..|init|] == init && !Strands(Play(b, steps[..|init|]), steps[|init|], o);
  }

  lemma PlayOne(b: Books, steps: seq<Step>, s: Step)
    ensures Play(b, steps + [s]) == After(Play(b, steps), s)
  {
    assert (steps + [s])[..|steps|] == steps;
  }

  lemma {:induction false} SafeStaysUnstuck(b: Books, steps: seq<Step>, o: string)
    requires !Stuck(b, o) && Safe(b, steps, o)
    ensures !Stuck(Play(b, steps), o)
    decreases |steps|
  {
    if steps != [] {
      var init, last := steps[..|steps| - 1], steps[|steps| - 1];
      assert steps == init + [last];
      SafeInit(b, init, last, o);
      SafeStaysUnstuck(b, init, o);
      PlayOne(b, init, last);
      StepStaysUnstuck(Play(b, init), last, o);
    }
  }

  lemma StepStaysUnstuck(b: Books, s: Step, o: string)
    requires !Stuck(b, o) && !Strands(b, s, o)
    ensures !Stuck(After(b, s), o)
  {
    StepStrandsIff(b, s, o);
  }

  /** So over every run in which no step strands an order, it is never stuck. */
  lemma {:induction false} NeverStranded(raw: map<string, int>, openings: map<(string, string), string>, steps: seq<Step>, o: string)
    requires Safe(Start(raw, openings), steps, o)
    ensures !Stuck(Play(Start(raw, openings), steps), o)
  {
    SafeStaysUnstuck(Start(raw, openings), steps, o);
  }

  lemma NoSource(s: seq<StateEvent>)
    ensures FindState(s, None) == |s|
  {
  }

  /** A first cash reservation is accepted and held. */
  lemma FirstHold(b: Books, r: Request)
    requires r.order in b.db.orders && HoldsOf(b, Cash, r.order) == [] && r.amount >= 0.0 && !r.released
    ensures After(b, Reserving(Cash, r)).db == b.db && Holding(After(b, Reserving(Cash, r)), Cash, r.order)
  {
    NewHold(b, Cash, r.order, EventOf([], r), r.order);
  }

  lemma FilledFromInside(db: Db, o: string)
    requires StatesOf(db, o) == [StateEvent(1, None, Submitting, 0, None, None)] && o in db.orders
    ensures AppendState(db, o, Filled, 0, None, None, false).Ok?
  {
    NoSource(StatesOf(db, o));
  }

  /** An order that takes a first cash reservation while submitting and is then filled by an internal event. */
  lemma HoldsThenEnds(b: Books, r: Request)
    requires r.order in b.db.orders && HoldsOf(b, Cash, r.order) == [] && r.amount >= 0.0 && !r.released
    requires StatesOf(b.db, r.order) == [StateEvent(1, None, Submitting, 0, None, None)]
    ensures Stuck(After(After(b, Reserving(Cash, r)), Ledger(Internal(r.order, Filled, 0, None, None))), r.order)
  {
    FirstHold(b, r);
    FilledFromInside(b.db, r.order);
    StepStrandsIff(After(b, Reserving(Cash, r)), Ledger(Internal(r.order, Filled, 0, None, None)), r.order);
  }

  lemma Submitted(o: string, info: OrderInfo) returns (steps: seq<Step>)
    ensures var b := Play(Start(map[], map[]), steps);
            && o in b.db.orders && HoldsOf(b, Cash, o) == []
            && StatesOf(b.db, o) == [StateEvent(1, None, Submitting, 0, None, None)]
  {
    var s1, s2 := Ledger(Register(o, info)), Ledger(Internal(o, Submitting, 0, None, None));
    var b0 := Start(map[], map[]);
    PlayOne(b0, [], s1);
    PlayOne(b0, [s1], s2);
    assert [] + [s1] == [s1];
    steps := [s1] + [s2];
    var b1 := After(b0, s1);
    assert StatesOf(b1.db, o) == [];
    NoSource([]);
    OfAppend(b1.db.states, Keyed(o, NextEvent([], Submitting, 0, None, None)), o);
  }

  /** It does happen: an order that holds cash and is then filled by an internal event keeps holding it. */
  lemma StuckReachable(o: string, info: OrderInfo) returns (steps: seq<Step>)
    ensures Stuck(Play(Start(map[], map[]), steps), o)
  {
    var first := Submitted(o, info);
    var r := Request(o, info.account, info.currency, 1.0, "", 0, false);
    HoldsThenEnds(Play(Start(map[], map[]), first), r);
    steps := first + [Reserving(Cash, r)] + [Ledger(Internal(o, Filled, 0, None, None))];
    PlayOne(Start(map[], map[]), first, Reserving(Cash, r));
    PlayOne(Start(map[], map[]), first + [Reserving(Cash, r)], Ledger(Internal(o, Filled, 0, None, None)));
  }

  // ------------------------------------------------------------------- the replay check

  function HoldNumber(): Hold -> int { (h: Hold) => h.sequence }

  /** An order's reservation events as the validator reads them. */
  function HoldsRead(rows: seq<Keyed<Hold>>, o: string): seq<Hold> { Ordered(Of(rows, o), HoldNumber()) }

  /** The event belongs to the order, holds no negative amount, and holds nothing once released. */
  predicate HoldLawful(h: Hold, account: string, item: string) {
    h.account == account && h.item == item && h.amount >= 0.0 && (h.reserved || h.amount == 0.0)
  }

  ghost predicate HoldsLawful(h: seq<Hold>, account: string, item: string) {
    forall i :: 0 <= i < |h| ==> HoldLawful(h[i], account, item)
  }

  function ItemOf(info: OrderInfo, kind: Kind): string { if kind.Cash? then info.currency else info.instrument }

  predicate EndedRead(db: Db, o: string) {
    var s := LastState(StatesRead(db, o));
    s.Some? && Terminal(s.value)
  }

  /** One order's events in one table pass. */
  ghost predicate HoldsValid(b: Books, kind: Kind, o: string)
    requires o in b.db.orders
  {
    var h := HoldsRead(TableOf(b, kind), o);
    && HoldsLawful(h, b.db.orders[o].account, ItemOf(b.db.orders[o], kind))
    && (h != [] && h[|h| - 1].reserved ==> !EndedRead(b.db, o))
  }

  /** What the loop over the rows has established of one order: its events `h` so far are lawful, and `latest` holds the
      status of the last. */
  ghost predicate OrderSoFar(db: Db, account: string, kind: Kind, h: seq<Hold>, latest: map<string, bool>, o: string) {
    && (InAccount(db, account, o) ==> HoldsLawful(h, account, ItemOf(db.orders[o], kind)))
    && (o in latest <==> InAccount(db, account, o) && h != [])
    && (o in latest ==> latest[o] == h[|h| - 1].reserved)
  }

  ghost predicate HoldsSoFar(db: Db, account: string, kind: Kind, rows: seq<Keyed<Hold>>, latest: map<string, bool>) {
    forall o :: OrderSoFar(db, account, kind, Of(rows, o), latest, o)
  }

  lemma HoldRowRead(db: Db, account: string, kind: Kind, rows: seq<Keyed<Hold>>, k: Keyed<Hold>, latest: map<string, bool>)
    requires HoldsSoFar(db, account, kind, rows, latest)
    ensures !InAccount(db, account, k.order) ==> HoldsSoFar(db, account, kind, rows + [k], latest)
    ensures InAccount(db, account, k.order) && HoldLawful(k.row, account, ItemOf(db.orders[k.order], kind)) ==>
              HoldsSoFar(db, account, kind, rows + [k], latest[k.order := k.row.reserved])
  {
    var lawful := InAccount(db, account, k.order) && HoldLawful(k.row, account, ItemOf(db.orders[k.order], kind));
    forall o
      ensures !InAccount(db, account, k.order) ==> OrderSoFar(db, account, kind, Of(rows + [k], o), latest, o)
      ensures lawful ==> OrderSoFar(db, account, kind, Of(rows + [k], o), latest[k.order := k.row.reserved], o)
    {
      OfAppend(rows, k, o);
      HoldRead(db, account, kind, Of(rows, o), k, latest, o);
    }
  }

  lemma HoldRead(db: Db, account: string, kind: Kind, h: seq<Hold>, k: Keyed<Hold>, latest: map<string, bool>, o: string)
    requires OrderSoFar(db, account, kind, h, latest, o)
    ensures var after := if k.order == o then h + [k.row] else h;
            && (!InAccount(db, account, k.order) ==> OrderSoFar(db, account, kind, after, latest, o))
            && (InAccount(db, account, k.order) && HoldLawful(k.row, account, ItemOf(db.orders[k.order], kind)) ==>
                  OrderSoFar(db, account, kind, after, latest[k.order := k.row.reserved], o))
  {
  }

  lemma UnlawfulStays(rows: seq<Keyed<Hold>>, n: nat, account: string, item: string)
    requires n < |rows| && !HoldLawful(rows[n].row, account, item)
    ensures !HoldsLawful(Of(rows, rows[n].order), account, item)
  {
    var i := RowIsListed(rows, n);
  }

  /** One table of `_validate_reservations`: the pass over its rows, then the check of every order's latest status. */
  method ValidateTable(b: Books, account: string, kind: Kind) returns (ok: bool)
    ensures ok <==> forall o :: InAccount(b.db, account, o) ==> HoldsValid(b, kind, o)
  {
    var rows := OrderedTable(TableOf(b, kind), HoldNumber());
    forall o ensures Of(rows, o) == HoldsRead(TableOf(b, kind), o) { OfOrdered(TableOf(b, kind), HoldNumber(), o); }
    var latest: map<string, bool> := map[];
    for n := 0 to |rows|
      invariant HoldsSoFar(b.db, account, kind, rows[..n], latest)
    {
      var k := rows[n];
      assert rows[..n + 1] == rows[..n] + [k];
      HoldRowRead(b.db, account, kind, rows[..n], k, latest);
      if InAccount(b.db, account, k.order) {
        if !HoldLawful(k.row, account, ItemOf(b.db.orders[k.order], kind)) {
          UnlawfulStays(rows, n, account, ItemOf(b.db.orders[k.order], kind));
          assert !HoldsValid(b, kind, k.order);
          return false;
        }
        latest := latest[k.order := k.row.reserved];
      }
    }
    assert rows[..|rows|] == rows;
    ok := forall o :: o in latest ==> latest[o] ==> !EndedRead(b.db, o);
    StatusDecides(b, account, kind, rows, latest);
  }

  lemma StatusDecides(b: Books, account: string, kind: Kind, rows: seq<Keyed<Hold>>, latest: map<string, bool>)
    requires HoldsSoFar(b.db, account, kind, rows, latest)
    requires forall o :: Of(rows, o) == HoldsRead(TableOf(b, kind), o)
    ensures (forall o :: o in latest ==> latest[o] ==> !EndedRead(b.db, o)) <==>
            forall o :: InAccount(b.db, account, o) ==> HoldsValid(b, kind, o)
  {
    forall o ensures o in latest ==> InAccount(b.db, account, o)
             ensures InAccount(b.db, account, o) ==> (HoldsValid(b, kind, o) <==> (o in latest && latest[o] ==> !EndedRead(b.db, o)))
    {
      assert OrderSoFar(b.db, account, kind, Of(rows, o), latest, o);
      assert Of(rows, o) == HoldsRead(TableOf(b, kind), o);
    }
  }

  /** `_validate_reservations`. */
  method ValidateReservations(b: Books, account: string) returns (ok: bool)
    ensures ok <==> forall o, kind :: InAccount(b.db, account, o) ==> HoldsValid(b, kind, o)
  {
    var cash := ValidateTable(b, account, Cash);
    if !cash { return false; }
    ok := ValidateTable(b, account, Shares);
    if ok {
      forall o, kind | InAccount(b.db, account, o) ensures HoldsValid(b, kind, o) { match kind case Cash => case Shares => }
    }
  }

  // ------------------------------------------------------------------- agreement

  /** What the writers keep of one order's events: numbered in turn, of one identity, nothing negative or held after release. */
  ghost predicate Kept(h: seq<Hold>) {
    forall i :: 0 <= i < |h| ==> h[i].sequence == i + 1 && HoldLawful(h[i], h[0].account, h[0].item)
  }

  ghost predicate AllKept(b: Books) { forall k, o :: Kept(HoldsOf(b, k, o)) }

  lemma KeptOne(h: seq<Hold>, x: Hold)
    requires Kept(h) && x.sequence == |h| + 1 && x.amount >= 0.0 && (x.reserved || x.amount == 0.0)
    requires h != [] ==> x.account == h[|h| - 1].account && x.item == h[|h| - 1].item
    ensures Kept(h + [x])
  {
  }

  lemma AppendKeeps(b: Books, kind: Kind, o: string, x: Hold)
    requires AllKept(b) && Kept(HoldsOf(b, kind, o) + [x])
    ensures AllKept(WithTable(b, kind, TableOf(b, kind) + [Keyed(o, x)]))
  {
    var t := WithTable(b, kind, TableOf(b, kind) + [Keyed(o, x)]);
    HoldAppended(TableOf(b, kind), o, x);
    forall k, p ensures Kept(HoldsOf(t, k, p)) {
      assert k != kind || p != o ==> HoldsOf(t, k, p) == HoldsOf(b, k, p);
    }
  }

  lemma ReserveKeeps(b: Books, kind: Kind, r: Request)
    requires AllKept(b) && Reserve(b, kind, r).Ok?
    ensures AllKept(Reserve(b, kind, r).value)
  {
    var h := HoldsOf(b, kind, r.order);
    if !Evidenced(h, r.source) {
      KeptOne(h, EventOf(h, r));
      AppendKeeps(b, kind, r.order, EventOf(h, r));
    }
  }

  lemma ReleasedKeeps(b: Books, kind: Kind, o: string, source: string, at: int)
    requires AllKept(b)
    ensures AllKept(Released(b, kind, o, source, at))
  {
    var h := HoldsOf(b, kind, o);
    if Holding(b, kind, o) {
      var x := Hold(|h| + 1, h[|h| - 1].account, h[|h| - 1].item, 0.0, false, source, at);
      KeptOne(h, x);
      AppendKeeps(b, kind, o, x);
    }
  }

  lemma SameTablesKept(b: Books, t: Books)
    requires AllKept(b) && t.cash == b.cash && t.shares == b.shares
    ensures AllKept(t)
  {
    forall k, o ensures Kept(HoldsOf(t, k, o)) { assert HoldsOf(t, k, o) == HoldsOf(b, k, o); }
  }

  lemma ConcludeKeeps(b: Books, freed: Option<Books>, db: Db, r: Result<OrderState, Refusal>)
    requires AllKept(b) && (freed.Some? ==> AllKept(freed.value))
    ensures AllKept(Conclude(b, freed, db, r).0)
  {
    SameTablesKept(b, b.(db := db));
    if freed.Some? { SameTablesKept(freed.value, freed.value.(db := db)); }
  }

  lemma ObserveKeepsHolds(b: Books, obs: Observation)
    requires AllKept(b)
    ensures AllKept(ObserveAll(b, obs).0)
  {
    var freed := ReleaseAll(b, obs.order, obs.source, obs.at);
    if freed.Some? {
      ReleasedKeeps(b, Cash, obs.order, obs.source, obs.at);
      ReleasedKeeps(Released(b, Cash, obs.order, obs.source, obs.at), Shares, obs.order, obs.source, obs.at);
    }
    var asked := obs.(release := freed.Some?);
    ConcludeKeeps(b, freed, Observe(b.db, asked).0, Observe(b.db, asked).1);
  }

  lemma {:induction false} PlayKeeps(raw: map<string, int>, openings: map<(string, string), string>, steps: seq<Step>)
    ensures AllKept(Play(Start(raw, openings), steps))
    decreases |steps|
  {
    if steps != [] {
      var b, s := Play(Start(raw, openings), steps[..|steps| - 1]), steps[|steps| - 1];
      PlayKeeps(raw, openings, steps[..|steps| - 1]);
      match s
      case Reserving(kind, r) => if Reserve(b, kind, r).Ok? { ReserveKeeps(b, kind, r); }
      case Ledger(a) => if a.Observed? { ObserveKeepsHolds(b, a.obs); } else { SameTablesKept(b, After(b, s)); }
    }
  }

  /** The order's own account and item. */
  ghost predicate OwnIdentity(b: Books, kind: Kind, o: string)
    requires o in b.db.orders
  {
    var h := HoldsOf(b, kind, o);
    h != [] ==> (h[0].account, h[0].item) == (b.db.orders[o].account, ItemOf(b.db.orders[o], kind))
  }

  lemma KeptAsRead(h: seq<Hold>)
    requires Kept(h)
    ensures Ordered(h, HoldNumber()) == h
  {
    forall i | 0 <= i < |h| ensures HoldNumber()(h[i]) == i + 1 {}
    OrderedStays(h, HoldNumber());
  }

  /** The ledger tables of a run are those of a run of the ledger alone. */
  lemma {:induction false} LedgerOfPlay(raw: map<string, int>, openings: map<(string, string), string>, steps: seq<Step>)
    returns (actions: seq<Action>)
    ensures Play(Start(raw, openings), steps).db == Run(Empty(raw, openings), actions)
    decreases |steps|
  {
    actions := [];
    if steps != [] {
      var b, s := Play(Start(raw, openings), steps[..|steps| - 1]), steps[|steps| - 1];
      var init := LedgerOfPlay(raw, openings, steps[..|steps| - 1]);
      actions := init;
      if s.Ledger? {
        var freed := s.action.Observed? && ReleaseAll(b, s.action.obs.order, s.action.obs.source, s.action.obs.at).Some?;
        var a := if s.action.Observed? then Observed(s.action.obs.(release := freed)) else s.action;
        actions := init + [a];
        assert actions[..|actions| - 1] == init;
        LedgerOfStep(b, s.action, a);
      } else {
        LedgerOfReserve(b, s.kind, s.request);
      }
    }
  }

  lemma LedgerOfStep(b: Books, asked: Action, a: Action)
    requires if asked.Observed?
             then a == Observed(asked.obs.(release := ReleaseAll(b, asked.obs.order, asked.obs.source, asked.obs.at).Some?))
             else a == asked
    ensures After(b, Ledger(asked)).db == Next(b.db, a)
  {
  }

  lemma LedgerOfReserve(b: Books, kind: Kind, r: Request)
    ensures After(b, Reserving(kind, r)).db == b.db
  {
  }

  /** Over every run, with every reservation release worked out, the ledger validators' conditions still hold. */
  lemma BooksPassReplay(raw: map<string, int>, openings: map<(string, string), string>, steps: seq<Step>, o: string)
    ensures var b := Play(Start(raw, openings), steps);
            StateChain(StatesRead(b.db, o)) && StatesRead(b.db, o) == StatesOf(b.db, o)
  {
    var actions := LedgerOfPlay(raw, openings, steps);
    RunKeeps(raw, openings, actions);
    var db := Run(Empty(raw, openings), actions);
    assert OrderInv(db, o);
    WrittenAsRead(db, o);
  }

  /** After every run the reservation check accepts an order exactly when its reservations carry its own identity, which the
      writers do not compare, and it is not stuck. */
  lemma ReservationsAcceptedIff(raw: map<string, int>, openings: map<(string, string), string>, steps: seq<Step>, o: string)
    requires o in Play(Start(raw, openings), steps).db.orders
    ensures var b := Play(Start(raw, openings), steps);
            HoldsValid(b, Cash, o) && HoldsValid(b, Shares, o) <==>
            OwnIdentity(b, Cash, o) && OwnIdentity(b, Shares, o) && !Stuck(b, o)
  {
    var b := Play(Start(raw, openings), steps);
    BooksPassReplay(raw, openings, steps, o);
    PlayKeeps(raw, openings, steps);
    OrderAcceptedIff(b, Cash, o);
    OrderAcceptedIff(b, Shares, o);
  }

  lemma OrderAcceptedIff(b: Books, kind: Kind, o: string)
    requires o in b.db.orders && Kept(HoldsOf(b, kind, o)) && StatesRead(b.db, o) == StatesOf(b.db, o)
    ensures HoldsValid(b, kind, o) <==> OwnIdentity(b, kind, o) && !(Ended(b, o) && Holding(b, kind, o))
  {
    var h := HoldsOf(b, kind, o);
    KeptAsRead(h);
    var account, item := b.db.orders[o].account, ItemOf(b.db.orders[o], kind);
    if h != [] && (h[0].account, h[0].item) == (account, item) {
      forall i | 0 <= i < |h| ensures HoldLawful(h[i], account, item) {}
    }
  }

  /** The event says what the request asks: an amount held back, or nothing held any more. */
  ghost predicate Tells(e: Hold, r: Request) {
    && e.account == r.account && e.item == r.item && e.source == r.source && e.at == r.at
    && (if r.released then !e.reserved && e.amount == 0.0 else e.reserved && e.amount == r.amount)
  }

  /** A request that is not refused repeats events that say just what it asks, or adds the one that does. */
  ghost predicate Recorded(b: Books, kind: Kind, r: Request, c: Books) {
    var h, g := HoldsOf(b, kind, r.order), HoldsOf(c, kind, r.order);
    && c.db == b.db
    && (if Evidenced(h, r.source) then c == b && forall i :: 0 <= i < |h| && h[i].source == r.source ==> Tells(h[i], r)
        else |g| == |h| + 1 && g[..|h|] == h && g[|h|].sequence == |g| && Tells(g[|h|], r))
  }

  lemma ReservedIsRecorded(b: Books, kind: Kind, r: Request)
    requires Reserve(b, kind, r).Ok?
    ensures Recorded(b, kind, r, Reserve(b, kind, r).value)
  {
    var h := HoldsOf(b, kind, r.order);
    if Evidenced(h, r.source) {
      forall i | 0 <= i < |h| && h[i].source == r.source ensures Tells(h[i], r) {
        assert h[i] == EventOf(h, r).(sequence := h[i].sequence);
      }
    } else {
      OfAppend(TableOf(b, kind), Keyed(r.order, EventOf(h, r)), r.order);
    }
  }

  // ------------------------------------------------------------------- the tables in place

  lemma ReportIgnoresRelease(db: Db, obs: Observation, release: bool)
    requires obs.report.Some?
    ensures ObserveReport(db, obs.(release := release)) == ObserveReport(db, obs)
  {
    var appended := AppendSnapshot(db, obs.order, obs.report.value, obs.at, obs.source);
    if appended.Ok? { PostingIgnoresRelease(appended.value.0, obs, release); }
  }

  lemma PostingIgnoresRelease(db: Db, obs: Observation, release: bool)
    ensures PostNewest(db, obs.(release := release)) == PostNewest(db, obs)
  {
  }

  /** What happens before the release, given the state event's outcome and, if there is a report, its outcome after it. */
  function Concluding(db: Db, state: OrderState, bare: bool, stated: Result<Db, Refusal>, done: Result<Db, Refusal>, release: bool)
    : (Db, Result<OrderState, Refusal>)
  {
    if state == Unknown then (if stated.Ok? then stated.value else db, Err(if stated.Ok? then UnknownBrokerState else stated.reason))
    else if (state == PartiallyFilled || state == Filled) && bare then (db, Err(ReportRequired))
    else if stated.Err? then (db, Err(stated.reason))
    else if done.Err? then (db, Err(done.reason))
    else if Terminal(state) && !release then (db, Err(ReservationConflict))
    else (done.value, Ok(state))
  }

  function Reported(db: Db, obs: Observation): Result<Db, Refusal> {
    if Stated(db, obs).Err? || obs.report.None? then Stated(db, obs) else ObserveReport(Stated(db, obs).value, obs)
  }

  lemma ObserveConcludes(db: Db, obs: Observation)
    ensures Observe(db, obs) ==
            Concluding(db, Normalize(obs.raw), obs.report.None? || obs.context.None?, Stated(db, obs), Reported(db, obs), obs.release)
  {
  }

  lemma ReportedIgnoresRelease(db: Db, obs: Observation, release: bool)
    ensures Stated(db, obs.(release := release)) == Stated(db, obs) && Reported(db, obs.(release := release)) == Reported(db, obs)
  {
    if Stated(db, obs).Ok? && obs.report.Some? { ReportIgnoresRelease(Stated(db, obs).value, obs, release); }
  }

  /** The ledger's outcome does not depend on the release until the very end, where a conflict undoes everything. */
  lemma ReleaseComesLast(db: Db, obs: Observation)
    ensures var (t, r) := Observe(db, obs.(release := true));
            Observe(db, obs.(release := false)) == if r.Ok? && Terminal(r.value) then (db, Err(ReservationConflict)) else (t, r)
  {
    ObserveConcludes(db, obs.(release := true));
    ObserveConcludes(db, obs.(release := false));
    ReportedIgnoresRelease(db, obs, true);
    ReportedIgnoresRelease(db, obs, false);
  }

  /** The reservation tables beside the ledger tables of one shared connection. */
  class ReservationConnection {
    const ledger: LedgerConnection
    var cash: seq<Keyed<Hold>>
    var shares: seq<Keyed<Hold>>

    function View(): Books
      reads this, ledger
    {
      Books(ledger.db, cash, shares)
    }

    constructor (ledger: LedgerConnection)
      ensures this.ledger == ledger && View() == Books(ledger.db, [], [])
    {
      this.ledger, cash, shares := ledger, [], [];
    }

    method Append(kind: Kind, order: string, event: Hold)
      modifies this
      ensures View() == WithTable(old(View()), kind, TableOf(old(View()), kind) + [Keyed(order, event)])
    {
      if kind.Cash? { cash := cash + [Keyed(order, event)]; } else { shares := shares + [Keyed(order, event)]; }
    }

    /** `reserve_open_order` and `reserve_sell` on the stored tables. */
    method ReserveHold(kind: Kind, r: Request) returns (res: Result<(), HoldRefusal>)
      modifies this
      ensures View() == After(old(View()), Reserving(kind, r))
      ensures res.Ok? <==> Reserve(old(View()), kind, r).Ok?
      ensures res.Err? ==> Reserve(old(View()), kind, r) == Err(res.reason)
      ensures res.Ok? ==> Recorded(old(View()), kind, r, View())
    {
      if Reserve(View(), kind, r).Ok? { ReservedIsRecorded(View(), kind, r); }
      if r.amount < 0.0 && (kind.Shares? || !r.released) { return Err(Negative); }
      var h := HoldsOf(View(), kind, r.order);
      if Evidenced(h, r.source) {
        if Contradicts(h, r) { return Err(EvidenceConflict); }
        return Ok(());
      }
      if h != [] {
        var last := h[|h| - 1];
        if last.account != r.account || last.item != r.item { return Err(IdentityChanges); }
        if r.at < last.at { return Err(HoldRefusal.TimeReversed); }
      }
      if r.order !in ledger.db.orders { return Err(OrderUnknown); }
      Append(kind, r.order, EventOf(h, r));
      res := Ok(());
    }

    /** The loops of `_release_reservations`, one table after the other; after a conflict the caller rolls back. */
    method ReleaseReservations(o: string, source: string, at: int) returns (ok: bool)
      modifies this
      ensures ok <==> ReleaseAll(old(View()), o, source, at).Some?
      ensures ok ==> View() == ReleaseAll(old(View()), o, source, at).value
    {
      ghost var was := View();
      ok := ReleaseTable(Cash, o, source, at);
      if !ok { return; }
      ReleasedHolds(was, Cash, o, source, at);
      assert HoldsOf(View(), Shares, o) == HoldsOf(was, Shares, o);
      ok := ReleaseTable(Shares, o, source, at);
    }

    method ReleaseTable(kind: Kind, o: string, source: string, at: int) returns (ok: bool)
      modifies this
      ensures ok <==> !ReleaseConflicts(old(View()), kind, o, source)
      ensures View() == if ok then Released(old(View()), kind, o, source, at) else old(View())
    {
      var h := HoldsOf(View(), kind, o);
      if h == [] || !h[|h| - 1].reserved { return true; }
      if Evidenced(h, source) { return false; }
      var last := h[|h| - 1];
      Append(kind, o, Hold(|h| + 1, last.account, last.item, 0.0, false, source, at));
      ok := true;
    }

    /** `observe` on the shared connection: state, snapshot and posting writes, then for a terminal state the release, and
        a rollback of all of it when the release conflicts.  The flag of the observation is not read. */
    method ObserveAndRelease(obs: Observation) returns (r: Result<OrderState, Refusal>)
      modifies this, ledger
      ensures View() == ObserveAll(old(View()), obs).0 && r == ObserveAll(old(View()), obs).1
    {
      ghost var was := View();
      var savepoint, savedCash, savedShares := ledger.db, cash, shares;
      r := ledger.ObserveOrder(obs.(release := true));
      ReleaseComesLast(savepoint, obs);
      if r.Ok? && Terminal(r.value) {
        ReleaseReadsTables(was, ledger.db, obs.order, obs.source, obs.at);
        var ok := ReleaseReservations(obs.order, obs.source, obs.at);
        if !ok {
          ledger.db, cash, shares := savepoint, savedCash, savedShares;
          return Err(ReservationConflict);
        }
      }
    }
  }

  lemma ReleasedReadsTable(b: Books, db: Db, kind: Kind, o: string, source: string, at: int)
    ensures Released(b.(db := db), kind, o, source, at) == Released(b, kind, o, source, at).(db := db)
    ensures ReleaseConflicts(b.(db := db), kind, o, source) == ReleaseConflicts(b, kind, o, source)
  {
  }

  /** The release reads and writes only the reservation tables. */
  lemma ReleaseReadsTables(b: Books, db: Db, o: string, source: string, at: int)
    ensures var freed, other := ReleaseAll(b, o, source, at), ReleaseAll(b.(db := db), o, source, at);
            && freed.Some? == other.Some?
            && (freed.Some? ==> other.value == freed.value.(db := db))
  {
    ReleasedReadsTable(b, db, Cash, o, source, at);
    ReleasedReadsTable(b, db, Shares, o, source, at);
    ReleasedReadsTable(Released(b, Cash, o, source, at), db, Shares, o, source, at);
  }
}
