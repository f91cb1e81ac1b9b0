/**
 The persistent paper broker: limit orders, long-only, caller-supplied fills.

 The persisted JSON document is the value `State`; its `orders` and `fills`
 dictionaries are sequences in insertion order whose keys are proved unique.
 `PersistentPaperBroker` changes the document in place, one transaction a method,
 and each method is specified by a function on documents; `PaperRuns` then proves
 what every run of those functions keeps.
 */
module PaperBroker {
  import opened Common

  /** Why a call raises; one name for each of the source's messages. */
  datatype Refusal =
    | CurrencyRequired | InvalidPositions | InvalidDecimal | InitializationConflict | OrderIdentityRequired | OrderOwnershipOrSide
    | UnsupportedOrderType | NotionalConflict | AccountUninitialized | CurrencyConflict | IdempotencyConflict
    | InsufficientCash | InsufficientPosition | OrderNotFound | FillIdRequired
    | FillConflict | FillOrderNotOpen | FillLimitOrQuantity | FillFeeExceedsReserve

  datatype Side = Buy | Sell | OtherSide

  datatype Status = Open | PartiallyFilled | Filled | Canceled

  datatype Request = Request(account: string, client: string, intent: string, instrument: string, side: Side,
                             quantity: real, price: real, fee: real, orderType: Option<string>,
                             notional: Option<real>, currency: Option<string>)

  datatype Order = Order(request: Request, filled: real, remainingFee: real, status: Status)

  datatype Fill = Fill(id: string, client: string, quantity: real, price: real, fee: real)

  datatype Opening = Opening(currency: string, cash: real, positions: map<string, real>)

  datatype State = State(initial: Opening, cash: real, positions: map<string, real>,
                         orders: seq<Order>, fills: seq<Fill>)

  predicate IsOpen(o: Order) { o.status.Open? || o.status.PartiallyFilled? }

  function Remaining(o: Order): real { o.request.quantity - o.filled }

  function Position(positions: map<string, real>, instrument: string): real {
    if instrument in positions then positions[instrument] else 0.0
  }

  /** The cash one order holds back. */
  function CashHold(o: Order): real {
    if !IsOpen(o) then 0.0
    else if o.request.side.Buy? then Remaining(o) * o.request.price + o.remainingFee
    else o.remainingFee
  }

  /** The shares of `instrument` one order holds back. */
  function ShareHold(o: Order, instrument: string): real {
    if IsOpen(o) && !o.request.side.Buy? && o.request.instrument == instrument then Remaining(o) else 0.0
  }

  function ReservedCash(orders: seq<Order>): real {
    if orders == [] then 0.0
    else ReservedCash(orders[..|orders| - 1]) + CashHold(orders[|orders| - 1])
  }

  function ReservedShares(orders: seq<Order>, instrument: string): real {
    if orders == [] then 0.0
    else ReservedShares(orders[..|orders| - 1], instrument) + ShareHold(orders[|orders| - 1], instrument)
  }

  /** Index of the first order satisfying the idempotency match, or `|orders|`. */
  function FindMatch(orders: seq<Order>, request: Request): (k: nat)
    ensures k <= |orders|
    ensures k < |orders| ==> orders[k].request.client == request.client || orders[k].request.intent == request.intent
    ensures forall i | 0 <= i < k :: orders[i].request.client != request.client && orders[i].request.intent != request.intent
  {
    if orders == [] then 0
    else
      var k := FindMatch(orders[..|orders| - 1], request);
      var last := orders[|orders| - 1].request;
      if k < |orders| - 1 then k
      else if last.client == request.client || last.intent == request.intent then |orders| - 1
      else |orders|
  }

  /** The place of the client's order, or the number of orders. */
  function FindOrder(orders: seq<Order>, client: string): (k: nat)
    ensures k <= |orders|
    ensures k < |orders| ==> orders[k].request.client == client
    ensures forall i | 0 <= i < k :: orders[i].request.client != client
  {
    if orders == [] then 0
    else
      var k := FindOrder(orders[..|orders| - 1], client);
      if k < |orders| - 1 then k
      else if orders[|orders| - 1].request.client == client then |orders| - 1
      else |orders|
  }

  function FindFill(fills: seq<Fill>, id: string): (k: nat)
    ensures k <= |fills|
    ensures k < |fills| ==> fills[k].id == id
    ensures forall i | 0 <= i < k :: fills[i].id != id
  {
    if fills == [] then 0
    else
      var k := FindFill(fills[..|fills| - 1], id);
      if k < |fills| - 1 then k else if fills[|fills| - 1].id == id then |fills| - 1 else |fills|
  }

  /** Three characters, of which the cased ones are capital. */
  predicate CurrencyValid(c: string) {
    && |c| == 3
    && (exists i :: 0 <= i < |c| && 'A' <= c[i] <= 'Z')
    && (forall i :: 0 <= i < |c| ==> !('a' <= c[i] <= 'z'))
  }

  predicate OpeningValid(o: Opening) {
    && CurrencyValid(o.currency)
    && o.cash >= 0.0
    && (forall k :: k in o.positions ==> !Blank(k) && o.positions[k] >= 0.0)
  }

  /** The checks `submit_order` makes before it opens its transaction. */
  predicate RequestValid(account: string, r: Request) {
    && !Blank(r.client) && !Blank(r.intent) && !Blank(r.instrument)
    && r.account == account && !r.side.OtherSide?
    && r.quantity > 0.0 && r.price > 0.0 && r.fee >= 0.0
    && (r.orderType.None? || r.orderType.value == "LIMIT")
    && (r.notional.None? || (r.notional.value >= 0.0 && r.notional.value == r.quantity * r.price))
  }

  function NewOrder(r: Request): Order { Order(r, 0.0, r.fee, Open) }

  predicate Affordable(s: State, r: Request) {
    && s.cash - ReservedCash(s.orders) >= (if r.side.Buy? then r.quantity * r.price + r.fee else r.fee)
    && (r.side.Sell? ==>
          Position(s.positions, r.instrument) - ReservedShares(s.orders, r.instrument) >= r.quantity)
  }

  predicate FillValid(f: Fill) {
    !Blank(f.id) && f.quantity > 0.0 && f.price > 0.0 && f.fee >= 0.0
  }

  /** The fill respects the order it names: open, within quantity, limit price and reserved fee. */
  predicate FillFits(o: Order, f: Fill) {
    && IsOpen(o)
    && f.quantity <= Remaining(o)
    && (if o.request.side.Buy? then f.price <= o.request.price else f.price >= o.request.price)
    && f.fee <= o.remainingFee
  }

  function FilledOrder(o: Order, f: Fill): Order {
    Order(o.request, o.filled + f.quantity, o.remainingFee - f.fee,
          if f.quantity == Remaining(o) then Filled else PartiallyFilled)
  }

  /** What a fill of a request adds to cash: buys pay, sells receive, both pay the fee. */
  function CashMoved(r: Request, f: Fill): real {
    (if r.side.Buy? then -(f.quantity * f.price) else f.quantity * f.price) - f.fee
  }

  function SharesMoved(r: Request, f: Fill): real {
    if r.side.Buy? then f.quantity else -f.quantity
  }

  function ApplyFill(s: State, k: nat, f: Fill): State
    requires k < |s.orders|
  {
    var o := s.orders[k];
    var instrument := o.request.instrument;
    State(s.initial,
          s.cash + CashMoved(o.request, f),
          s.positions[instrument := Position(s.positions, instrument) + SharesMoved(o.request, f)],
          s.orders[k := FilledOrder(o, f)],
          s.fills + [f])
  }

  // Each operation as a function from the stored row to the new row; `None` is "no row yet".

  predicate CanInitialize(b: Option<State>, o: Opening) {
    OpeningValid(o) && (b.Some? ==> b.value.initial == o)
  }

  function Initialize(b: Option<State>, o: Opening): Option<State> {
    if OpeningValid(o) && b.None? then Some(State(o, o.cash, o.positions, [], [])) else b
  }

  /** The request is already recorded: resubmitting returns the order it made. */
  predicate Recorded(s: State, r: Request) {
    var k := FindMatch(s.orders, r);
    k < |s.orders| && s.orders[k].request == r
  }

  /** The request makes a new order. */
  predicate Accepts(s: State, account: string, r: Request) {
    && RequestValid(account, r)
    && (r.currency.None? || r.currency.value == s.initial.currency)
    && FindMatch(s.orders, r) == |s.orders|
    && Affordable(s, r)
  }

  /** The request is answered with an order, new or recorded. */
  predicate SubmitSucceeds(b: Option<State>, account: string, r: Request) {
    && b.Some? && RequestValid(account, r) && (r.currency.None? || r.currency.value == b.value.initial.currency)
    && (Accepts(b.value, account, r) || Recorded(b.value, r))
  }

  function Submit(b: Option<State>, account: string, r: Request): Option<State> {
    if b.Some? && Accepts(b.value, account, r)
    then Some(b.value.(orders := b.value.orders + [NewOrder(r)])) else b
  }

  function Cancel(b: Option<State>, client: string): Option<State> {
    if b.None? then b
    else
      var s, k := b.value, FindOrder(b.value.orders, client);
      if k < |s.orders| && IsOpen(s.orders[k])
      then Some(s.(orders := s.orders[k := s.orders[k].(status := Canceled)])) else b
  }

  /** The fill is new and fits the order it names. */
  predicate AcceptsFill(s: State, f: Fill) {
    && FillValid(f)
    && FindFill(s.fills, f.id) == |s.fills|
    && FindOrder(s.orders, f.client) < |s.orders|
    && FillFits(s.orders[FindOrder(s.orders, f.client)], f)
  }

  predicate RecordedFill(s: State, f: Fill) {
    var k := FindFill(s.fills, f.id);
    k < |s.fills| && s.fills[k] == f
  }

  predicate FillSucceeds(b: Option<State>, f: Fill) {
    b.Some? && FillValid(f) && (AcceptsFill(b.value, f) || RecordedFill(b.value, f))
  }

  function RecordFill(b: Option<State>, f: Fill): Option<State> {
    if b.Some? && AcceptsFill(b.value, f) then Some(ApplyFill(b.value, FindOrder(b.value.orders, f.client), f)) else b
  }

  class PersistentPaperBroker {
    const account: string
    var row: Option<State>

    constructor (account: string)
      ensures this.account == account && row.None?
    {
      this.account := account;
      row := None;
    }

    method Init(o: Opening) returns (r: Result<(), Refusal>)
      modifies this
      ensures row == Initialize(old(row), o)
      ensures r.Ok? <==> CanInitialize(old(row), o)
    {
      if !CurrencyValid(o.currency) { return Err(CurrencyRequired); }
      if exists k :: k in o.positions && Blank(k) { return Err(InvalidPositions); }
      if o.cash < 0.0 || exists k :: k in o.positions && o.positions[k] < 0.0 { return Err(InvalidDecimal); }
      if row.Some? {
        if row.value.initial != o { return Err(InitializationConflict); }
        return Ok(());
      }
      row := Some(State(o, o.cash, o.positions, [], []));
      r := Ok(());
    }

    /** The accumulating loop of `_reserved`. */
    static method Reserved(orders: seq<Order>) returns (cash: real, shares: map<string, real>)
      ensures cash == ReservedCash(orders)
      ensures forall i :: Position(shares, i) == ReservedShares(orders, i)
    {
      cash, shares := 0.0, map[];
      for n := 0 to |orders|
        invariant cash == ReservedCash(orders[..n])
        invariant forall i :: Position(shares, i) == ReservedShares(orders[..n], i)
      {
        assert orders[..n + 1][..n] == orders[..n];
        var o := orders[n];
        if IsOpen(o) {
          var remaining := o.request.quantity - o.filled;
          if o.request.side.Buy? {
            cash := cash + remaining * o.request.price + o.remainingFee;
          } else {
            shares := shares[o.request.instrument := Position(shares, o.request.instrument) + remaining];
            cash := cash + o.remainingFee;
          }
        }
      }
      assert orders[..|orders|] == orders;
    }

    method SubmitOrder(request: Request) returns (r: Result<Order, Refusal>)
      modifies this
      ensures row == Submit(old(row), account, request)
      ensures old(row).Some? && Accepts(old(row).value, account, request) ==> r == Ok(NewOrder(request))
      ensures r.Ok? <==> SubmitSucceeds(old(row), account, request)
      ensures r.Ok? ==>
                && request.account == account && request.side in {Buy, Sell}
                && request.quantity > 0.0 && request.price > 0.0 && request.fee >= 0.0
                && (request.orderType.Some? ==> request.orderType.value == "LIMIT")
                && (request.notional.Some? ==> request.notional.value == request.quantity * request.price)
                && (request.currency.Some? ==> request.currency.value == old(row).value.initial.currency)
                && r.value.request == request && r.value in row.value.orders
      ensures r.Ok? && Recorded(old(row).value, request) ==>
                r.value == old(row).value.orders[FindMatch(old(row).value.orders, request)]
    {
      if Blank(request.client) || Blank(request.intent) || Blank(request.instrument) {
        return Err(OrderIdentityRequired);
      }
      if request.account != account || request.side.OtherSide? { return Err(OrderOwnershipOrSide); }
      if request.quantity <= 0.0 || request.price <= 0.0 || request.fee < 0.0 { return Err(InvalidDecimal); }
      if request.orderType.Some? && request.orderType.value != "LIMIT" { return Err(UnsupportedOrderType); }
      if request.notional.Some? && request.notional.value < 0.0 { return Err(InvalidDecimal); }
      if request.notional.Some? && request.notional.value != request.quantity * request.price {
        return Err(NotionalConflict);
      }
      if row.None? { return Err(AccountUninitialized); }
      var s := row.value;
      if request.currency.Some? && request.currency.value != s.initial.currency { return Err(CurrencyConflict); }
      for n := 0 to |s.orders|
        invariant FindMatch(s.orders, request) >= n
      {
        var existing := s.orders[n];
        if existing.request.client == request.client || existing.request.intent == request.intent {
          if existing.request != request { return Err(IdempotencyConflict); }
          return Ok(existing);
        }
      }
      var reservedCash, reservedShares := Reserved(s.orders);
      var needed := if request.side.Buy? then request.quantity * request.price + request.fee else request.fee;
      if s.cash - reservedCash < needed { return Err(InsufficientCash); }
      if request.side.Sell? &&
         Position(s.positions, request.instrument) - Position(reservedShares, request.instrument) < request.quantity {
        return Err(InsufficientPosition);
      }
      var order := NewOrder(request);
      row := Some(s.(orders := s.orders + [order]));
      r := Ok(order);
    }

    method CancelOrder(client: string) returns (r: Result<Order, Refusal>)
      modifies this
      ensures row == Cancel(old(row), client)
      ensures r.Ok? <==> old(row).Some? && FindOrder(old(row).value.orders, client) < |old(row).value.orders|
      ensures r.Ok? ==> r.value == row.value.orders[FindOrder(old(row).value.orders, client)]
    {
      if row.None? { return Err(AccountUninitialized); }
      var s := row.value;
      var k := FindOrder(s.orders, client);
      if k == |s.orders| { return Err(OrderNotFound); }
      var order := s.orders[k];
      if order.status.Open? || order.status.PartiallyFilled? {
        order := order.(status := Canceled);
        row := Some(s.(orders := s.orders[k := order]));
      }
      r := Ok(order);
    }

    method FillOrder(f: Fill) returns (r: Result<Fill, Refusal>)
      modifies this
      ensures row == RecordFill(old(row), f)
      ensures r.Ok? <==> FillSucceeds(old(row), f)
      ensures old(row).Some? && AcceptsFill(old(row).value, f) ==>
                var s, t := old(row).value, row.value;
                var p := s.orders[FindOrder(s.orders, f.client)].request;
                && t.cash == (if p.side.Buy? then s.cash - f.quantity * f.price - f.fee
                              else s.cash + f.quantity * f.price - f.fee)
                && Position(t.positions, p.instrument) ==
                   (if p.side.Buy? then Position(s.positions, p.instrument) + f.quantity
                    else Position(s.positions, p.instrument) - f.quantity)
                && (forall i :: i != p.instrument ==> Position(t.positions, i) == Position(s.positions, i))
      ensures r.Ok? ==> r.value == f
    {
      if Blank(f.id) { return Err(FillIdRequired); }
      if f.quantity <= 0.0 || f.price <= 0.0 || f.fee < 0.0 { return Err(InvalidDecimal); }
      if row.None? { return Err(AccountUninitialized); }
      var s := row.value;
      var seen := FindFill(s.fills, f.id);
      if seen < |s.fills| {
        if s.fills[seen] != f { return Err(FillConflict); }
        return Ok(s.fills[seen]);
      }
      var k := FindOrder(s.orders, f.client);
      if k == |s.orders| || !IsOpen(s.orders[k]) { return Err(FillOrderNotOpen); }
      var order := s.orders[k];
      var remaining := order.request.quantity - order.filled;
      var buy := order.request.side.Buy?;
      if f.quantity > remaining || (buy && f.price > order.request.price) || (!buy && f.price < order.request.price) {
        return Err(FillLimitOrQuantity);
      }
      if f.fee > order.remainingFee { return Err(FillFeeExceedsReserve); }
      var instrument := order.request.instrument;
      var cash := s.cash + (if buy then -(f.quantity * f.price) else f.quantity * f.price) - f.fee;
      var position := Position(s.positions, instrument) + (if buy then f.quantity else -f.quantity);
      var updated := order.(filled := order.filled + f.quantity, remainingFee := order.remainingFee - f.fee,
                            status := if f.quantity == remaining then Filled else PartiallyFilled);
      assert AcceptsFill(s, f);
      assert ApplyFill(s, k, f).cash == cash;
      assert ApplyFill(s, k, f).orders[k] == updated;
      row := Some(s.(cash := cash, positions := s.positions[instrument := position],
                     orders := s.orders[k := updated], fills := s.fills + [f]));
      r := Ok(f);
    }
  }
}
