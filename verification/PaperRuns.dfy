/** What every run of the paper broker keeps: solvency, conservation and idempotence. */
module PaperRuns {
  import opened Common
  import opened PaperBroker

  datatype Action =
    | Init(opening: Opening)
    | SubmitOrder(request: Request)
    | CancelOrder(client: string)
    | FillOrder(fill: Fill)

  function Next(b: Option<State>, account: string, a: Action): Option<State> {
    match a
    case Init(opening) => Initialize(b, opening)
    case SubmitOrder(request) => Submit(b, account, request)
    case CancelOrder(client) => Cancel(b, client)
    case FillOrder(fill) => RecordFill(b, fill)
  }

  function Run(b: Option<State>, account: string, actions: seq<Action>): Option<State>
    decreases |actions|
  {
    if actions == [] then b
    else Next(Run(b, account, actions[..|actions| - 1]), account, actions[|actions| - 1])
  }

  // ------------------------------------------------------- sums over recorded fills

  /** Total quantity the fills recorded for one order. */
  function FilledQuantity(fills: seq<Fill>, client: string): real {
    if fills == [] then 0.0
    else
      var f := fills[|fills| - 1];
      FilledQuantity(fills[..|fills| - 1], client) + (if f.client == client then f.quantity else 0.0)
  }

  function FilledFees(fills: seq<Fill>, client: string): real {
    if fills == [] then 0.0
    else
      var f := fills[|fills| - 1];
      FilledFees(fills[..|fills| - 1], client) + (if f.client == client then f.fee else 0.0)
  }

  /** The request a fill executes, read off its order. */
  ghost predicate Names(orders: seq<Order>, f: Fill) {
    FindOrder(orders, f.client) < |orders|
  }

  function RequestOf(orders: seq<Order>, f: Fill): Request
    requires Names(orders, f)
  {
    orders[FindOrder(orders, f.client)].request
  }

  /** Quantity times price over the fills of orders of one side. */
  ghost function Traded(fills: seq<Fill>, orders: seq<Order>, side: Side): real
    requires AllNamed(fills, orders)
  {
    if fills == [] then 0.0
    else
      var f := fills[|fills| - 1];
      Traded(fills[..|fills| - 1], orders, side) + (if RequestOf(orders, f).side == side then f.quantity * f.price else 0.0)
  }

  /** Quantity over the fills of orders of one side in one instrument. */
  ghost function Shares(fills: seq<Fill>, orders: seq<Order>, side: Side, instrument: string): real
    requires AllNamed(fills, orders)
  {
    if fills == [] then 0.0
    else
      var f := fills[|fills| - 1];
      var r := RequestOf(orders, f);
      Shares(fills[..|fills| - 1], orders, side, instrument)
      + (if r.side == side && r.instrument == instrument then f.quantity else 0.0)
  }

  function Fees(fills: seq<Fill>): real {
    if fills == [] then 0.0 else Fees(fills[..|fills| - 1]) + fills[|fills| - 1].fee
  }

  // ---------------------------------------------------------------------- invariant

  ghost predicate OrderSound(o: Order) {
    && !o.request.side.OtherSide?
    && o.request.quantity > 0.0 && o.request.price > 0.0
    && 0.0 <= o.filled <= o.request.quantity
    && 0.0 <= o.remainingFee <= o.request.fee
    && (o.status.Filled? <==> o.filled == o.request.quantity)
    && (o.status.Open? ==> o.filled == 0.0)
    && (o.status.PartiallyFilled? ==> o.filled > 0.0)
  }

  ghost predicate UniqueClients(orders: seq<Order>) {
    forall i, j :: 0 <= i < j < |orders| ==> orders[i].request.client != orders[j].request.client
  }

  ghost predicate Unique(s: State) {
    && UniqueClients(s.orders)
    && (forall i, j :: 0 <= i < j < |s.orders| ==> s.orders[i].request.intent != s.orders[j].request.intent)
    && (forall i, j :: 0 <= i < j < |s.fills| ==> s.fills[i].id != s.fills[j].id)
  }

  ghost predicate OrdersSound(orders: seq<Order>) {
    forall i :: 0 <= i < |orders| ==> OrderSound(orders[i])
  }

  ghost predicate AllNamed(fills: seq<Fill>, orders: seq<Order>) {
    forall i :: 0 <= i < |fills| ==> Names(orders, fills[i])
  }

  ghost predicate Sound(s: State) {
    OrdersSound(s.orders) && AllNamed(s.fills, s.orders) && Unique(s)
  }

  /** Cash and shares always cover what open orders hold back. */
  ghost predicate Solvent(s: State) {
    && s.cash - ReservedCash(s.orders) >= 0.0
    && (forall i :: Position(s.positions, i) - ReservedShares(s.orders, i) >= 0.0)
  }

  /** Nothing appears or vanishes: balances are the opening plus the fills, and each order's
      progress is the sum of its own fills. */
  ghost predicate Conserved(s: State)
    requires Sound(s)
  {
    && CashBalance(s)
    && (forall i :: SharesBalance(s, i))
    && (forall k :: 0 <= k < |s.orders| ==> Progress(s, s.orders[k]))
  }

  /** Cash is the opening, less what buys cost, plus what sells brought, less every fee. */
  ghost predicate CashBalance(s: State)
    requires AllNamed(s.fills, s.orders)
  {
    s.cash == s.initial.cash - Traded(s.fills, s.orders, Buy) + Traded(s.fills, s.orders, Sell) - Fees(s.fills)
  }

  /** A position is the opening, plus the shares bought, less the shares sold. */
  ghost predicate SharesBalance(s: State, i: string)
    requires AllNamed(s.fills, s.orders)
  {
    Position(s.positions, i) ==
    Position(s.initial.positions, i) + Shares(s.fills, s.orders, Buy, i) - Shares(s.fills, s.orders, Sell, i)
  }

  ghost predicate Progress(s: State, o: Order) {
    && o.filled == FilledQuantity(s.fills, o.request.client)
    && o.request.fee - o.remainingFee == FilledFees(s.fills, o.request.client)
  }

  ghost predicate Inv(s: State) {
    Sound(s) && Solvent(s) && Conserved(s)
  }

  // ------------------------------------------------------- sums under append and update

  lemma AppendOrder(orders: seq<Order>, o: Order, instrument: string)
    ensures ReservedCash(orders + [o]) == ReservedCash(orders) + CashHold(o)
    ensures ReservedShares(orders + [o], instrument) == ReservedShares(orders, instrument) + ShareHold(o, instrument)
  {
    assert (orders + [o])[..|orders|] == orders;
  }

  lemma {:induction false} UpdateOrder(orders: seq<Order>, k: nat, o: Order, instrument: string)
    requires k < |orders|
    ensures ReservedCash(orders[k := o]) == ReservedCash(orders) - CashHold(orders[k]) + CashHold(o)
    ensures ReservedShares(orders[k := o], instrument) ==
            ReservedShares(orders, instrument) - ShareHold(orders[k], instrument) + ShareHold(o, instrument)
    decreases |orders|
  {
    var init := orders[..|orders| - 1];
    if k == |orders| - 1 {
      assert orders[k := o][..|orders| - 1] == init;
    } else {
      assert orders[k := o][..|orders| - 1] == init[k := o];
      UpdateOrder(init, k, o, instrument);
    }
  }

  /** With unique client ids, the order found for a client is the one that carries it. */
  lemma FindIs(orders: seq<Order>, k: nat, client: string)
    requires k < |orders| && orders[k].request.client == client && UniqueClients(orders)
    ensures FindOrder(orders, client) == k
  {
  }

  /** Later order lists keep the earlier orders' requests in place. */
  ghost predicate SameRequests(before: seq<Order>, after: seq<Order>) {
    |before| <= |after| && forall k :: 0 <= k < |before| ==> before[k].request == after[k].request
  }

  /** Later orders do not change which order a client id finds. */
  lemma FindSurvives(before: seq<Order>, after: seq<Order>, client: string)
    requires FindOrder(before, client) < |before| && SameRequests(before, after)
    ensures FindOrder(after, client) == FindOrder(before, client)
  {
    var k := FindOrder(before, client);
    assert after[k].request.client == client;
  }

  lemma NamesSurvive(fills: seq<Fill>, before: seq<Order>, after: seq<Order>)
    requires AllNamed(fills, before) && SameRequests(before, after)
    ensures AllNamed(fills, after)
    ensures forall i :: 0 <= i < |fills| ==> RequestOf(after, fills[i]) == RequestOf(before, fills[i])
  {
    forall i | 0 <= i < |fills| ensures Names(after, fills[i]) && RequestOf(after, fills[i]) == RequestOf(before, fills[i]) {
      FindSurvives(before, after, fills[i].client);
    }
  }

  /** The fill totals read only the orders' requests. */
  lemma {:induction false} TotalsSurvive(fills: seq<Fill>, before: seq<Order>, after: seq<Order>, side: Side, instrument: string)
    requires AllNamed(fills, before) && SameRequests(before, after)
    ensures AllNamed(fills, after)
    ensures Traded(fills, after, side) == Traded(fills, before, side)
    ensures Shares(fills, after, side, instrument) == Shares(fills, before, side, instrument)
    decreases |fills|
  {
    NamesSurvive(fills, before, after);
    if fills != [] { TotalsSurvive(fills[..|fills| - 1], before, after, side, instrument); }
  }

  // ------------------------------------------------------------------ each operation

  /** A change of the order list that keeps every request keeps the balances' account. */
  lemma OrdersKeepBalances(s: State, t: State)
    requires Sound(s) && Conserved(s) && SameRequests(s.orders, t.orders)
    requires t.initial == s.initial && t.cash == s.cash && t.positions == s.positions && t.fills == s.fills
    ensures AllNamed(t.fills, t.orders)
    ensures CashBalance(t) && forall i :: SharesBalance(t, i)
  {
    NamesSurvive(s.fills, s.orders, t.orders);
    TotalsSurvive(s.fills, s.orders, t.orders, Buy, "");
    TotalsSurvive(s.fills, s.orders, t.orders, Sell, "");
    forall i ensures SharesBalance(t, i) {
      TotalsSurvive(s.fills, s.orders, t.orders, Buy, i);
      TotalsSurvive(s.fills, s.orders, t.orders, Sell, i);
      assert SharesBalance(s, i);
    }
  }

  lemma SubmitKeepsSolvent(s: State, account: string, r: Request)
    requires Solvent(s) && Accepts(s, account, r)
    ensures Solvent(s.(orders := s.orders + [NewOrder(r)]))
  {
    var t := s.(orders := s.orders + [NewOrder(r)]);
    AppendOrder(s.orders, NewOrder(r), "");
    forall i ensures Position(t.positions, i) - ReservedShares(t.orders, i) >= 0.0 {
      AppendOrder(s.orders, NewOrder(r), i);
      assert Position(s.positions, i) - ReservedShares(s.orders, i) >= 0.0;
    }
  }

  lemma SubmitKeepsSound(s: State, account: string, r: Request)
    requires Sound(s) && Accepts(s, account, r)
    ensures Sound(s.(orders := s.orders + [NewOrder(r)]))
  {
    NamesSurvive(s.fills, s.orders, s.orders + [NewOrder(r)]);
    assert OrderSound(NewOrder(r));
  }

  lemma SubmitKeeps(s: State, account: string, r: Request)
    requires Inv(s) && Accepts(s, account, r)
    ensures Inv(s.(orders := s.orders + [NewOrder(r)]))
  {
    var t := s.(orders := s.orders + [NewOrder(r)]);
    SubmitKeepsSolvent(s, account, r);
    SubmitKeepsSound(s, account, r);
    OrdersKeepBalances(s, t);
    forall k | 0 <= k < |t.orders| ensures Progress(t, t.orders[k]) {
      if k < |s.orders| { assert Progress(s, s.orders[k]); } else { NoFillsYet(s, s.fills, r.client); }
    }
  }

  /** No recorded fill names a client without an order. */
  lemma {:induction false} NoFillsYet(s: State, fills: seq<Fill>, client: string)
    requires AllNamed(fills, s.orders)
    requires FindOrder(s.orders, client) == |s.orders|
    ensures FilledQuantity(fills, client) == 0.0 && FilledFees(fills, client) == 0.0
    decreases |fills|
  {
    if fills != [] { NoFillsYet(s, fills[..|fills| - 1], client); }
  }

  lemma CancelKeepsSolvent(s: State, k: nat)
    requires Sound(s) && Solvent(s) && k < |s.orders|
    ensures Solvent(s.(orders := s.orders[k := s.orders[k].(status := Canceled)]))
  {
    var o := s.orders[k].(status := Canceled);
    var t := s.(orders := s.orders[k := o]);
    assert OrderSound(s.orders[k]);
    HoldsNonNegative(s.orders[k], "");
    UpdateOrder(s.orders, k, o, "");
    forall i ensures Position(t.positions, i) - ReservedShares(t.orders, i) >= 0.0 {
      UpdateOrder(s.orders, k, o, i);
      HoldsNonNegative(s.orders[k], i);
      assert Position(s.positions, i) - ReservedShares(s.orders, i) >= 0.0;
    }
  }

  lemma CancelKeepsSound(s: State, k: nat)
    requires Sound(s) && k < |s.orders| && IsOpen(s.orders[k])
    ensures Sound(s.(orders := s.orders[k := s.orders[k].(status := Canceled)]))
  {
    assert OrderSound(s.orders[k]);
    NamesSurvive(s.fills, s.orders, s.orders[k := s.orders[k].(status := Canceled)]);
  }

  lemma CancelKeeps(s: State, k: nat)
    requires Inv(s) && k < |s.orders| && IsOpen(s.orders[k])
    ensures Inv(s.(orders := s.orders[k := s.orders[k].(status := Canceled)]))
  {
    var t := s.(orders := s.orders[k := s.orders[k].(status := Canceled)]);
    CancelKeepsSolvent(s, k);
    CancelKeepsSound(s, k);
    OrdersKeepBalances(s, t);
    forall n | 0 <= n < |t.orders| ensures Progress(t, t.orders[n]) { assert Progress(s, s.orders[n]); }
  }

  lemma HoldsNonNegative(o: Order, instrument: string)
    requires OrderSound(o)
    ensures CashHold(o) >= 0.0 && ShareHold(o, instrument) >= 0.0
  {
    assert Remaining(o) * o.request.price >= 0.0;
  }

  /** Price improvement: executing `q` of `r` at `p`, no worse than `limit`, costs at most what is freed. */
  lemma FreedCash(r: real, rest: real, q: real, p: real, limit: real, held: real, left: real, cost: real)
    requires q >= 0.0 && p <= limit && rest == r - q
    requires held == r * limit && left == rest * limit && cost == q * p
    ensures held - left >= cost
  {
    var room := limit - p;
    assert held - left == q * limit;
    assert q * limit == q * p + q * room;
    NonNegativeProduct(q, room);
  }

  lemma NonNegativeProduct(a: real, b: real)
    requires a >= 0.0 && b >= 0.0
    ensures a * b >= 0.0
  {
  }

  lemma FreedHold(before: real, after: real, held: real, left: real, cost: real, fee: real, used: real)
    requires before == held + fee && after <= left + (fee - used) && held - left >= cost
    ensures before - after >= cost + used
  {
  }

  /** A fill never uses more cash than its order stops holding, nor more shares. */
  lemma FillFreesEnough(o: Order, f: Fill, instrument: string)
    requires OrderSound(o) && FillValid(f) && FillFits(o, f)
    ensures OrderSound(FilledOrder(o, f))
    ensures o.request.side.Buy? ==>
              CashHold(o) - CashHold(FilledOrder(o, f)) >= f.quantity * f.price + f.fee
    ensures !o.request.side.Buy? ==>
              CashHold(o) - CashHold(FilledOrder(o, f)) >= f.fee - f.quantity * f.price
    ensures ShareHold(o, instrument) - ShareHold(FilledOrder(o, f), instrument) ==
            if !o.request.side.Buy? && o.request.instrument == instrument then f.quantity else 0.0
  {
    var n := FilledOrder(o, f);
    assert Remaining(n) == Remaining(o) - f.quantity;
    if o.request.side.Buy? {
      var r, limit := Remaining(o), o.request.price;
      var held, left, cost := r * limit, Remaining(n) * limit, f.quantity * f.price;
      FreedCash(r, Remaining(n), f.quantity, f.price, limit, held, left, cost);
      assert Remaining(n) == 0.0 ==> left == 0.0;
      FreedHold(CashHold(o), CashHold(n), held, left, cost, o.remainingFee, f.fee);
    } else {
      NonNegativeProduct(f.quantity, f.price);
    }
  }

  /** The fill that takes all an order may still take: the rest, at its limit, for its whole fee. */
  function WorstFill(o: Order, id: string): Fill {
    Fill(id, o.request.client, Remaining(o), o.request.price, o.remainingFee)
  }

  /** An open order holds back exactly what its worst fill would use, and afterwards nothing. */
  lemma HoldIsWorstFill(o: Order, id: string, instrument: string)
    requires OrderSound(o) && IsOpen(o) && !Blank(id)
    ensures var f := WorstFill(o, id);
            && FillValid(f) && FillFits(o, f) && FilledOrder(o, f).status.Filled?
            && CashHold(FilledOrder(o, f)) == 0.0
            && CashHold(o) == (if o.request.side.Buy? then f.quantity * f.price + f.fee else f.fee)
            && ShareHold(o, instrument) ==
               (if o.request.side.Sell? && o.request.instrument == instrument then f.quantity else 0.0)
  {
    assert Remaining(FilledOrder(o, WorstFill(o, id))) == 0.0;
  }

  lemma FillKeepsShares(s: State, k: nat, f: Fill, i: string)
    requires k < |s.orders| && OrderSound(s.orders[k]) && FillValid(f) && FillFits(s.orders[k], f)
    requires Position(s.positions, i) - ReservedShares(s.orders, i) >= 0.0
    ensures Position(ApplyFill(s, k, f).positions, i) - ReservedShares(ApplyFill(s, k, f).orders, i) >= 0.0
  {
    FillFreesEnough(s.orders[k], f, i);
    UpdateOrder(s.orders, k, FilledOrder(s.orders[k], f), i);
  }

  lemma FillKeepsCash(s: State, k: nat, f: Fill)
    requires k < |s.orders| && OrderSound(s.orders[k]) && FillValid(f) && FillFits(s.orders[k], f)
    requires s.cash - ReservedCash(s.orders) >= 0.0
    ensures ApplyFill(s, k, f).cash - ReservedCash(ApplyFill(s, k, f).orders) >= 0.0
  {
    var o := s.orders[k];
    FillPays(o, f);
    UpdateOrder(s.orders, k, FilledOrder(o, f), "");
    StillCovered(s.cash, ReservedCash(s.orders), CashHold(o), CashHold(FilledOrder(o, f)), CashMoved(o.request, f));
  }

  /** What a fill takes from cash is at most what its order stops holding. */
  lemma FillPays(o: Order, f: Fill)
    requires OrderSound(o) && FillValid(f) && FillFits(o, f)
    ensures CashHold(o) - CashHold(FilledOrder(o, f)) >= -CashMoved(o.request, f)
  {
    FillFreesEnough(o, f, "");
  }

  lemma StillCovered(cash: real, reserved: real, before: real, after: real, moved: real)
    requires cash - reserved >= 0.0 && before - after >= -moved
    ensures cash + moved - (reserved - before + after) >= 0.0
  {
  }

  lemma FillKeepsSolvent(s: State, k: nat, f: Fill)
    requires Sound(s) && Solvent(s) && k < |s.orders| && FillValid(f) && FillFits(s.orders[k], f)
    ensures Solvent(ApplyFill(s, k, f))
  {
    assert OrderSound(s.orders[k]);
    FillKeepsCash(s, k, f);
    forall i ensures Position(ApplyFill(s, k, f).positions, i) - ReservedShares(ApplyFill(s, k, f).orders, i) >= 0.0 {
      assert Position(s.positions, i) - ReservedShares(s.orders, i) >= 0.0;
      FillKeepsShares(s, k, f, i);
    }
  }

  lemma FillKeepsOrders(orders: seq<Order>, k: nat, f: Fill)
    requires OrdersSound(orders) && k < |orders| && FillValid(f) && FillFits(orders[k], f)
    ensures OrdersSound(orders[k := FilledOrder(orders[k], f)])
  {
    assert OrderSound(orders[k]);
    FillFreesEnough(orders[k], f, "");
  }

  /** The new fill is named too, and its id is new. */
  lemma FillIsNamed(s: State, k: nat, f: Fill)
    requires AllNamed(s.fills, s.orders) && Unique(s) && k < |s.orders| && s.orders[k].request.client == f.client
    requires FindFill(s.fills, f.id) == |s.fills|
    ensures AllNamed(ApplyFill(s, k, f).fills, ApplyFill(s, k, f).orders) && Unique(ApplyFill(s, k, f))
    ensures var t := ApplyFill(s, k, f); Names(t.orders, f) && RequestOf(t.orders, f) == s.orders[k].request
  {
    var t := ApplyFill(s, k, f);
    NamesSurvive(s.fills, s.orders, t.orders);
    FindIs(t.orders, k, f.client);
  }

  lemma FillKeepsSound(s: State, f: Fill)
    requires Sound(s) && AcceptsFill(s, f)
    ensures Sound(ApplyFill(s, FindOrder(s.orders, f.client), f))
  {
    var k := FindOrder(s.orders, f.client);
    FillKeepsOrders(s.orders, k, f);
    FillIsNamed(s, k, f);
  }

  lemma AppendFill(fills: seq<Fill>, f: Fill, orders: seq<Order>, side: Side, instrument: string)
    requires AllNamed(fills, orders) && Names(orders, f)
    ensures AllNamed(fills + [f], orders)
    ensures var r := RequestOf(orders, f);
            && Traded(fills + [f], orders, side) ==
               Traded(fills, orders, side) + (if r.side == side then f.quantity * f.price else 0.0)
            && Shares(fills + [f], orders, side, instrument) ==
               Shares(fills, orders, side, instrument)
               + (if r.side == side && r.instrument == instrument then f.quantity else 0.0)
            && Fees(fills + [f]) == Fees(fills) + f.fee
  {
    assert (fills + [f])[..|fills|] == fills;
  }

  lemma AppendProgress(fills: seq<Fill>, f: Fill, client: string)
    ensures FilledQuantity(fills + [f], client) ==
            FilledQuantity(fills, client) + (if f.client == client then f.quantity else 0.0)
    ensures FilledFees(fills + [f], client) ==
            FilledFees(fills, client) + (if f.client == client then f.fee else 0.0)
  {
    assert (fills + [f])[..|fills|] == fills;
  }

  lemma FillKeepsProgress(s: State, k: nat, f: Fill, n: nat)
    requires k < |s.orders| && s.orders[k].request.client == f.client && UniqueClients(s.orders)
    requires n < |s.orders| && Progress(s, s.orders[n])
    ensures Progress(ApplyFill(s, k, f), ApplyFill(s, k, f).orders[n])
  {
    AppendProgress(s.fills, f, s.orders[n].request.client);
    assert n != k ==> s.orders[n].request.client != f.client;
  }

  /** The totals of a side after one more fill. */
  lemma FillMovesTotals(s: State, k: nat, f: Fill, side: Side, i: string)
    requires Sound(s) && k < |s.orders| && AllNamed(s.fills + [f], ApplyFill(s, k, f).orders)
    requires var t := ApplyFill(s, k, f); Names(t.orders, f) && RequestOf(t.orders, f) == s.orders[k].request
    ensures var t, r := ApplyFill(s, k, f), s.orders[k].request;
            && Traded(t.fills, t.orders, side) ==
               Traded(s.fills, s.orders, side) + (if r.side == side then f.quantity * f.price else 0.0)
            && Shares(t.fills, t.orders, side, i) ==
               Shares(s.fills, s.orders, side, i) + (if r.side == side && r.instrument == i then f.quantity else 0.0)
            && Fees(t.fills) == Fees(s.fills) + f.fee
  {
    var t := ApplyFill(s, k, f);
    TotalsSurvive(s.fills, s.orders, t.orders, side, i);
    AppendFill(s.fills, f, t.orders, side, i);
  }

  lemma FillKeepsBalances(s: State, k: nat, f: Fill, i: string)
    requires Sound(s) && k < |s.orders| && AllNamed(s.fills + [f], ApplyFill(s, k, f).orders)
    requires var t := ApplyFill(s, k, f); Names(t.orders, f) && RequestOf(t.orders, f) == s.orders[k].request
    requires CashBalance(s) && SharesBalance(s, i)
    ensures CashBalance(ApplyFill(s, k, f)) && SharesBalance(ApplyFill(s, k, f), i)
  {
    assert OrderSound(s.orders[k]);
    FillMovesTotals(s, k, f, Buy, i);
    FillMovesTotals(s, k, f, Sell, i);
  }

  lemma FillKeepsConserved(s: State, f: Fill)
    requires Sound(s) && Conserved(s) && AcceptsFill(s, f)
    requires Sound(ApplyFill(s, FindOrder(s.orders, f.client), f))
    ensures Conserved(ApplyFill(s, FindOrder(s.orders, f.client), f))
  {
    var k := FindOrder(s.orders, f.client);
    var t := ApplyFill(s, k, f);
    FillIsNamed(s, k, f);
    forall i ensures SharesBalance(t, i) && CashBalance(t) {
      assert SharesBalance(s, i);
      FillKeepsBalances(s, k, f, i);
    }
    forall n | 0 <= n < |t.orders| ensures Progress(t, t.orders[n]) {
      assert Progress(s, s.orders[n]);
      FillKeepsProgress(s, k, f, n);
    }
    assert SharesBalance(t, "");
  }

  lemma NextKeepsInv(b: Option<State>, account: string, a: Action)
    requires b.Some? ==> Inv(b.value)
    ensures Next(b, account, a).Some? ==> Inv(Next(b, account, a).value)
  {
    match a
    case Init(opening) =>
    case SubmitOrder(request) =>
      if b.Some? && Accepts(b.value, account, request) { SubmitKeeps(b.value, account, request); }
    case CancelOrder(client) =>
      if b.Some? {
        var k := FindOrder(b.value.orders, client);
        if k < |b.value.orders| && IsOpen(b.value.orders[k]) { CancelKeeps(b.value, k); }
      }
    case FillOrder(fill) =>
      if b.Some? && AcceptsFill(b.value, fill) {
        FillKeepsSound(b.value, fill);
        FillKeepsSolvent(b.value, FindOrder(b.value.orders, fill.client), fill);
        FillKeepsConserved(b.value, fill);
      }
  }

  /** Solvency, conservation and uniqueness hold after every run from an empty store. */
  lemma {:induction false} RunKeepsInv(account: string, actions: seq<Action>)
    ensures Run(None, account, actions).Some? ==> Inv(Run(None, account, actions).value)
    decreases |actions|
  {
    if actions != [] {
      RunKeepsInv(account, actions[..|actions| - 1]);
      NextKeepsInv(Run(None, account, actions[..|actions| - 1]), account, actions[|actions| - 1]);
    }
  }

  /** What every run's balances are: cash is the opening less quantity times price of all fills of buys, plus
      that of all fills of sells, less all fees; a position is the opening plus bought less sold quantity. */
  lemma BalancesAreFills(account: string, actions: seq<Action>, instrument: string)
    requires Run(None, account, actions).Some?
    ensures var s := Run(None, account, actions).value;
            && AllNamed(s.fills, s.orders)
            && s.cash == s.initial.cash - Traded(s.fills, s.orders, Buy) + Traded(s.fills, s.orders, Sell) - Fees(s.fills)
            && Position(s.positions, instrument) == Position(s.initial.positions, instrument)
                 + Shares(s.fills, s.orders, Buy, instrument) - Shares(s.fills, s.orders, Sell, instrument)
  {
    RunKeepsInv(account, actions);
    var s := Run(None, account, actions).value;
    assert Inv(s);
    assert SharesBalance(s, instrument);
  }

  ghost predicate NewIdentity(s: State, r: Request) {
    forall i :: 0 <= i < |s.orders| ==> s.orders[i].request.client != r.client && s.orders[i].request.intent != r.intent
  }

  lemma SolventCanAfford(s: State, r: Request)
    requires Solvent(s.(orders := s.orders + [NewOrder(r)])) && !r.side.OtherSide?
    ensures Affordable(s, r)
  {
    var t := s.(orders := s.orders + [NewOrder(r)]);
    AppendOrder(s.orders, NewOrder(r), r.instrument);
    assert Position(t.positions, r.instrument) - ReservedShares(t.orders, r.instrument) >= 0.0;
  }

  /** In every reachable document a valid request under a new identity becomes an order exactly when the account stays
      solvent with it: what is free covers its worst fill. */
  lemma AcceptedIffSolvent(account: string, actions: seq<Action>, r: Request)
    requires Run(None, account, actions).Some?
    ensures var s := Run(None, account, actions).value;
            Accepts(s, account, r) <==>
              && RequestValid(account, r) && (r.currency.None? || r.currency.value == s.initial.currency)
              && NewIdentity(s, r) && Solvent(s.(orders := s.orders + [NewOrder(r)]))
  {
    var s := Run(None, account, actions).value;
    RunKeepsInv(account, actions);
    if Accepts(s, account, r) { SubmitKeepsSolvent(s, account, r); }
    if RequestValid(account, r) && Solvent(s.(orders := s.orders + [NewOrder(r)])) { SolventCanAfford(s, r); }
  }

  /** A fill buys no higher and sells no lower than its order's limit. */
  ghost predicate WithinLimit(r: Request, f: Fill) {
    && f.quantity > 0.0 && f.price > 0.0 && f.fee >= 0.0
    && (r.side.Buy? ==> f.price <= r.price) && (r.side.Sell? ==> f.price >= r.price)
  }

  ghost predicate LimitsKept(fills: seq<Fill>, orders: seq<Order>) {
    AllNamed(fills, orders) && forall i :: 0 <= i < |fills| ==> WithinLimit(RequestOf(orders, fills[i]), fills[i])
  }

  lemma LimitsSurvive(fills: seq<Fill>, before: seq<Order>, after: seq<Order>)
    requires LimitsKept(fills, before) && SameRequests(before, after)
    ensures LimitsKept(fills, after)
  {
    NamesSurvive(fills, before, after);
  }

  lemma FillKeepsLimits(s: State, f: Fill)
    requires Sound(s) && LimitsKept(s.fills, s.orders) && AcceptsFill(s, f)
    ensures var t := ApplyFill(s, FindOrder(s.orders, f.client), f); LimitsKept(t.fills, t.orders)
  {
    var k := FindOrder(s.orders, f.client);
    var t := ApplyFill(s, k, f);
    LimitsSurvive(s.fills, s.orders, t.orders);
    FillIsNamed(s, k, f);
  }

  lemma NextKeepsLimits(b: Option<State>, account: string, a: Action)
    requires b.Some? ==> Inv(b.value) && LimitsKept(b.value.fills, b.value.orders)
    ensures var c := Next(b, account, a); c.Some? ==> LimitsKept(c.value.fills, c.value.orders)
  {
    if b.Some? {
      var s := b.value;
      if a.FillOrder? && AcceptsFill(s, a.fill) {
        FillKeepsLimits(s, a.fill);
      } else {
        LimitsSurvive(s.fills, s.orders, Next(b, account, a).value.orders);
      }
    }
  }

  /** Every fill of every run keeps its order's limit. */
  lemma {:induction false} FillsWithinLimits(account: string, actions: seq<Action>)
    ensures var b := Run(None, account, actions); b.Some? ==> LimitsKept(b.value.fills, b.value.orders)
    decreases |actions|
  {
    if actions != [] {
      FillsWithinLimits(account, actions[..|actions| - 1]);
      RunKeepsInv(account, actions[..|actions| - 1]);
      NextKeepsLimits(Run(None, account, actions[..|actions| - 1]), account, actions[|actions| - 1]);
    }
  }

  lemma {:induction false} ReservesNonNegative(orders: seq<Order>, instrument: string)
    requires forall i :: 0 <= i < |orders| ==> OrderSound(orders[i])
    ensures ReservedCash(orders) >= 0.0 && ReservedShares(orders, instrument) >= 0.0
    decreases |orders|
  {
    if orders != [] {
      ReservesNonNegative(orders[..|orders| - 1], instrument);
      HoldsNonNegative(orders[|orders| - 1], instrument);
    }
  }

  /** So neither cash nor any position is ever negative. */
  lemma NeverNegative(account: string, actions: seq<Action>, instrument: string)
    requires Run(None, account, actions).Some?
    ensures Run(None, account, actions).value.cash >= 0.0
    ensures Position(Run(None, account, actions).value.positions, instrument) >= 0.0
  {
    RunKeepsInv(account, actions);
    ReservesNonNegative(Run(None, account, actions).value.orders, instrument);
  }

  // -------------------------------------------------------------------- idempotence

  /** Later documents remember everything an earlier one recorded. */
  ghost predicate Remembers(s: State, t: State) {
    && t.initial == s.initial
    && |s.orders| <= |t.orders|
    && (forall k :: 0 <= k < |s.orders| ==> t.orders[k].request == s.orders[k].request)
    && (forall k :: 0 <= k < |s.orders| && !IsOpen(s.orders[k]) ==> t.orders[k] == s.orders[k])
    && s.fills <= t.fills
  }

  lemma {:induction false} RunRemembers(s: State, account: string, actions: seq<Action>)
    ensures Run(Some(s), account, actions).Some? && Remembers(s, Run(Some(s), account, actions).value)
    decreases |actions|
  {
    if actions != [] { RunRemembers(s, account, actions[..|actions| - 1]); }
  }

  /** The action is accepted: it changes the document, or finds its effect already there. */
  ghost predicate Accepted(b: Option<State>, account: string, a: Action) {
    match a
    case Init(o) => CanInitialize(b, o)
    case SubmitOrder(r) => b.Some? && (Accepts(b.value, account, r) || Recorded(b.value, r))
    case CancelOrder(c) => b.Some? && FindOrder(b.value.orders, c) < |b.value.orders|
    case FillOrder(f) => b.Some? && (AcceptsFill(b.value, f) || f in b.value.fills)
  }

  /** What an accepted action leaves behind for its repetition to find. */
  ghost predicate LeavesMark(s: State, a: Action) {
    match a
    case Init(o) => s.initial == o
    case SubmitOrder(r) => exists k :: 0 <= k < |s.orders| && s.orders[k].request == r
    case CancelOrder(c) => FindOrder(s.orders, c) < |s.orders| && !IsOpen(s.orders[FindOrder(s.orders, c)])
    case FillOrder(f) => f in s.fills
  }

  lemma AcceptedLeavesMark(b: Option<State>, account: string, a: Action)
    requires Accepted(b, account, a)
    ensures Next(b, account, a).Some? && LeavesMark(Next(b, account, a).value, a)
  {
    var s := Next(b, account, a);
    if a.SubmitOrder? {
      if Accepts(b.value, account, a.request) {
        assert s.value.orders[|b.value.orders|].request == a.request;
      } else {
        assert s.value.orders[FindMatch(b.value.orders, a.request)].request == a.request;
      }
    } else if a.CancelOrder? {
      FindSurvives(b.value.orders, s.value.orders, a.client);
    } else if a.FillOrder? && AcceptsFill(b.value, a.fill) {
      assert s.value.fills[|b.value.fills|] == a.fill;
    }
  }

  lemma MarkSurvives(s: State, t: State, a: Action)
    requires LeavesMark(s, a) && Remembers(s, t)
    ensures LeavesMark(t, a)
  {
    if a.SubmitOrder? {
      var k :| 0 <= k < |s.orders| && s.orders[k].request == a.request;
      assert t.orders[k].request == a.request;
    } else if a.CancelOrder? {
      FindSurvives(s.orders, t.orders, a.client);
    }
  }

  lemma MarkStops(s: State, account: string, a: Action)
    requires LeavesMark(s, a)
    ensures Next(Some(s), account, a) == Some(s)
  {
  }

  /** Once a request, fill, cancel or initialization has been accepted, repeating it at any
      later time, after any other actions, changes nothing. */
  lemma RepeatChangesNothing(account: string, before: seq<Action>, a: Action, later: seq<Action>)
    requires Accepted(Run(None, account, before), account, a)
    ensures var t := Run(Next(Run(None, account, before), account, a), account, later);
            Next(t, account, a) == t
  {
    var b := Run(None, account, before);
    AcceptedLeavesMark(b, account, a);
    var s := Next(b, account, a).value;
    RunRemembers(s, account, later);
    MarkSurvives(s, Run(Some(s), account, later).value, a);
    MarkStops(Run(Some(s), account, later).value, account, a);
  }

  /** The action is answered and not refused: what the corresponding method's contract says of its result. */
  ghost predicate Succeeds(b: Option<State>, account: string, a: Action) {
    match a
    case Init(o) => CanInitialize(b, o)
    case SubmitOrder(r) => SubmitSucceeds(b, account, r)
    case CancelOrder(c) => b.Some? && FindOrder(b.value.orders, c) < |b.value.orders|
    case FillOrder(f) => FillSucceeds(b, f)
  }

  /** The document holds the very order, closed order or fill that the action asks for, where the action looks for it. */
  ghost predicate HoldsAnswer(s: State, a: Action) {
    match a
    case Init(o) => s.initial == o
    case SubmitOrder(r) => Recorded(s, r)
    case CancelOrder(c) => FindOrder(s.orders, c) < |s.orders| && !IsOpen(s.orders[FindOrder(s.orders, c)])
    case FillOrder(f) => RecordedFill(s, f)
  }

  lemma SuccessIsHeld(b: Option<State>, account: string, a: Action)
    requires Succeeds(b, account, a)
    ensures Next(b, account, a).Some? && HoldsAnswer(Next(b, account, a).value, a)
  {
    var s := Next(b, account, a);
    if a.SubmitOrder? && Accepts(b.value, account, a.request) {
      assert s.value.orders[|b.value.orders|].request == a.request;
    } else if a.CancelOrder? {
      FindSurvives(b.value.orders, s.value.orders, a.client);
    } else if a.FillOrder? && AcceptsFill(b.value, a.fill) {
      assert s.value.fills[|b.value.fills|] == a.fill;
    }
  }

  lemma AnswerSurvives(s: State, t: State, a: Action)
    requires HoldsAnswer(s, a) && Remembers(s, t)
    ensures HoldsAnswer(t, a)
    ensures a.SubmitOrder? ==> FindMatch(t.orders, a.request) == FindMatch(s.orders, a.request)
  {
    if a.SubmitOrder? {
      var k := FindMatch(s.orders, a.request);
      assert t.orders[k].request == a.request;
      assert forall i :: 0 <= i < k ==> t.orders[i].request == s.orders[i].request;
    } else if a.CancelOrder? {
      FindSurvives(s.orders, t.orders, a.client);
    } else if a.FillOrder? {
      var k := FindFill(s.fills, a.fill.id);
      assert t.fills[k] == a.fill;
      assert forall i :: 0 <= i < k ==> t.fills[i] == s.fills[i];
    }
  }

  /** Repeating an answered action at any later time, after any other actions, is answered again: with the recorded order,
      the closed order or the recorded fill. */
  lemma RepeatIsAnswered(account: string, before: seq<Action>, a: Action, later: seq<Action>)
    requires Succeeds(Run(None, account, before), account, a)
    ensures var t := Run(Next(Run(None, account, before), account, a), account, later);
            t.Some? && HoldsAnswer(t.value, a) && Succeeds(t, account, a) && Next(t, account, a) == t
  {
    var b := Run(None, account, before);
    SuccessIsHeld(b, account, a);
    var s := Next(b, account, a).value;
    RunRemembers(s, account, later);
    var t := Run(Some(s), account, later).value;
    AnswerSurvives(s, t, a);
    StillSucceeds(b, s, t, account, a);
  }

  lemma StillSucceeds(b: Option<State>, s: State, t: State, account: string, a: Action)
    requires Succeeds(b, account, a) && Next(b, account, a) == Some(s) && Remembers(s, t) && HoldsAnswer(t, a)
    ensures Succeeds(Some(t), account, a) && Next(Some(t), account, a) == Some(t)
  {
    if b.Some? { assert s.initial == b.value.initial; }
  }
}
