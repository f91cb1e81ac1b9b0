/**
 From an authorized target to orders: open exposure is netted, each target becomes a lot-rounded desired holding, and
 the difference to what is held and already working becomes at most one order per instrument.  Amounts are exact.
 */
module Planner {
  import opened Common
  import opened Sums
  import opened Rounding
  import Authority
  import Governor

  datatype Side = Buy | Sell

  /** `OpenOrderExposure`, whose constructor demands 0 <= filled < ordered. */
  datatype Exposure = Exposure(orderId: string, instrument: string, side: Side, ordered: real, filled: real)

  datatype Quote = Quote(price: real, observedAt: int, validUntil: int, sessionOpen: bool)

  datatype Rule = Rule(lot: real, tick: real, minimumQuantity: real, minimumNotional: real, feeRate: real, feeTick: real)

  datatype Order = Order(side: Side, quantity: real, notional: real, limit: real, fee: real, observedAt: int)

  datatype Refusal =
    | ExposureInvalid | ExposureConflict | InputInvalid | SessionClosed | QuoteFromFuture | QuoteStale
    | ExposureCross | IntentInvalid

  predicate Working(e: Exposure) { 0.0 <= e.filled < e.ordered }

  predicate Quoted(q: Quote) { q.price > 0.0 && q.observedAt < q.validUntil }

  predicate Ruled(r: Rule) {
    r.lot > 0.0 && r.tick > 0.0 && r.minimumQuantity >= 0.0 && r.minimumNotional >= 0.0 && r.feeRate >= 0.0 && r.feeTick > 0.0
  }

  // ------------------------------------------------------------------- open exposure

  function Signed(e: Exposure): real {
    if e.side.Buy? then e.ordered - e.filled else e.filled - e.ordered
  }

  /** The signed remaining quantity working in an instrument. */
  function Net(items: seq<Exposure>, k: string): real
    decreases |items|
  {
    if items == [] then 0.0
    else Net(items[..|items| - 1], k) + (if items[|items| - 1].instrument == k then Signed(items[|items| - 1]) else 0.0)
  }

  ghost predicate Crossed(items: seq<Exposure>) {
    exists i, j :: 0 <= i < |items| && 0 <= j < |items| && items[i].instrument == items[j].instrument && items[i].side != items[j].side
  }

  ghost predicate DistinctIds(items: seq<Exposure>) {
    forall i, j :: 0 <= i < j < |items| ==> items[i].orderId != items[j].orderId
  }

  /** The set of sides seen per instrument never grows past one; `sides` keeps that one. */
  ghost predicate Uncrossed(items: seq<Exposure>, sides: map<string, Side>) {
    && (forall i :: 0 <= i < |items| ==> items[i].instrument in sides && sides[items[i].instrument] == items[i].side)
    && (forall k :: k in sides ==> exists i :: 0 <= i < |items| && items[i].instrument == k)
  }

  /** The totals of exposure that is not crossed. */
  ghost predicate Netted(items: seq<Exposure>, totals: map<string, real>) {
    && !Crossed(items)
    && (forall k :: k in totals <==> exists i :: 0 <= i < |items| && items[i].instrument == k)
    && (forall k :: k in totals ==> totals[k] == Net(items, k))
  }

  /** Open exposure is refused exactly for repeated order ids or opposite sides in one instrument; otherwise each
      instrument's total is its net remaining quantity. */
  method NetOpenQuantities(items: seq<Exposure>) returns (res: Result<map<string, real>, Refusal>)
    requires forall i :: 0 <= i < |items| ==> Working(items[i])
    ensures !DistinctIds(items) ==> res == Err(ExposureInvalid)
    ensures DistinctIds(items) && Crossed(items) ==> res == Err(ExposureConflict)
    ensures DistinctIds(items) && !Crossed(items) ==> res.Ok? && Netted(items, res.value)
  {
    var repeated := exists i, j :: 0 <= i < |items| && i < j < |items| && items[i].orderId == items[j].orderId;
    assert repeated <==> !DistinctIds(items);
    if repeated { return Err(ExposureInvalid); }
    res := NetTotals(items);
  }

  method NetTotals(items: seq<Exposure>) returns (res: Result<map<string, real>, Refusal>)
    ensures res.Err? ==> res.reason == ExposureConflict && Crossed(items)
    ensures res.Ok? ==> Netted(items, res.value)
  {
    var sides: map<string, Side>, totals: map<string, real> := map[], map[];
    for n := 0 to |items|
      invariant Tracked(items[..n], sides, totals)
    {
      var e := items[n];
      if e.instrument in sides && sides[e.instrument] != e.side {
        CrossedAt(items, n, sides);
        return Err(ExposureConflict);
      }
      assert items[..n + 1] == items[..n] + [e];
      TrackedOne(items[..n], e, sides, totals);
      sides, totals := sides[e.instrument := e.side], Sum(totals, e);
    }
    assert items[..|items|] == items;
    UncrossedMeans(items, sides);
    res := Ok(totals);
  }

  ghost predicate Tracked(items: seq<Exposure>, sides: map<string, Side>, totals: map<string, real>) {
    Uncrossed(items, sides) && totals.Keys == sides.Keys && Totals(items, totals)
  }

  lemma TrackedOne(items: seq<Exposure>, e: Exposure, sides: map<string, Side>, totals: map<string, real>)
    requires Tracked(items, sides, totals) && (e.instrument in sides ==> sides[e.instrument] == e.side)
    ensures Tracked(items + [e], sides[e.instrument := e.side], Sum(totals, e))
  {
    UncrossedOne(items, e, sides);
    TotalsOne(items, e, totals);
  }

  lemma UncrossedOne(items: seq<Exposure>, e: Exposure, sides: map<string, Side>)
    requires Uncrossed(items, sides) && (e.instrument in sides ==> sides[e.instrument] == e.side)
    ensures Uncrossed(items + [e], sides[e.instrument := e.side])
  {
    var all, next := items + [e], sides[e.instrument := e.side];
    forall k | k in next ensures exists i :: 0 <= i < |all| && all[i].instrument == k {
      if k == e.instrument {
        assert all[|items|].instrument == k;
      } else {
        var i :| 0 <= i < |items| && items[i].instrument == k;
        assert all[i].instrument == k;
      }
    }
  }

  lemma CrossedAt(items: seq<Exposure>, n: nat, sides: map<string, Side>)
    requires n < |items| && Uncrossed(items[..n], sides)
    requires items[n].instrument in sides && sides[items[n].instrument] != items[n].side
    ensures Crossed(items)
  {
    var before := items[..n];
    var i :| 0 <= i < |before| && before[i].instrument == items[n].instrument;
    assert items[i] == before[i] && items[i].side != items[n].side;
  }

  lemma UncrossedMeans(items: seq<Exposure>, sides: map<string, Side>)
    requires Uncrossed(items, sides)
    ensures !Crossed(items)
    ensures forall k :: k in sides <==> exists i :: 0 <= i < |items| && items[i].instrument == k
  {
  }

  function Sum(totals: map<string, real>, e: Exposure): map<string, real> {
    totals[e.instrument := (if e.instrument in totals then totals[e.instrument] else 0.0) + Signed(e)]
  }

  ghost predicate Totals(items: seq<Exposure>, totals: map<string, real>) {
    forall k :: Net(items, k) == if k in totals then totals[k] else 0.0
  }

  lemma TotalsOne(items: seq<Exposure>, e: Exposure, totals: map<string, real>)
    requires Totals(items, totals)
    ensures Totals(items + [e], Sum(totals, e))
  {
    assert (items + [e])[..|items|] == items;
  }

  /** Exposure that is not crossed nets to a quantity on its own side, so it is never mistaken for none. */
  lemma {:induction false} NetSign(items: seq<Exposure>, k: string, side: Side)
    requires forall i :: 0 <= i < |items| ==> Working(items[i]) && (items[i].instrument == k ==> items[i].side == side)
    ensures side.Buy? ==> Net(items, k) >= 0.0
    ensures side.Sell? ==> Net(items, k) <= 0.0
    ensures Net(items, k) == 0.0 <==> forall i :: 0 <= i < |items| ==> items[i].instrument != k
    decreases |items|
  {
    if items != [] {
      var init := items[..|items| - 1];
      NetSign(init, k, side);
      assert forall i :: 0 <= i < |init| ==> init[i] == items[i];
    }
  }

  /** What an instrument's orders asked for, and what of it is filled. */
  function OrderedTotal(items: seq<Exposure>, k: string): real
    decreases |items|
  {
    if items == [] then 0.0
    else OrderedTotal(items[..|items| - 1], k) + (if items[|items| - 1].instrument == k then items[|items| - 1].ordered else 0.0)
  }

  function FilledTotal(items: seq<Exposure>, k: string): real
    decreases |items|
  {
    if items == [] then 0.0
    else FilledTotal(items[..|items| - 1], k) + (if items[|items| - 1].instrument == k then items[|items| - 1].filled else 0.0)
  }

  /** The net is what is still to fill: counted up when the instrument's orders buy, down when they sell. */
  lemma {:induction false} NetIsUnfilled(items: seq<Exposure>, k: string, side: Side)
    requires forall i :: 0 <= i < |items| && items[i].instrument == k ==> items[i].side == side
    ensures Net(items, k) ==
            if side.Buy? then OrderedTotal(items, k) - FilledTotal(items, k) else FilledTotal(items, k) - OrderedTotal(items, k)
    decreases |items|
  {
    if items != [] {
      var init := items[..|items| - 1];
      assert forall i :: 0 <= i < |init| ==> init[i] == items[i];
      NetIsUnfilled(init, k, side);
    }
  }

  // ------------------------------------------------------------------- one instrument

  function Desired(nav: real, target: real, price: real, lot: real): real
    requires price > 0.0 && lot > 0.0
  {
    RoundDown(nav * target / price, lot)
  }

  /** The desired holding: the most whole lots that the target's share of the net asset value buys. */
  ghost predicate IsDesired(desired: real, nav: real, target: real, price: real, lot: real) {
    desired * price <= nav * target < (desired + lot) * price && Multiple(desired, lot)
  }

  lemma DesiredMeaning(nav: real, target: real, price: real, lot: real)
    requires price > 0.0 && lot > 0.0
    ensures IsDesired(Desired(nav, target, price, lot), nav, target, price, lot)
  {
    var share, desired := nav * target / price, Desired(nav, target, price, lot);
    RoundDownBounds(share, lot);
    DivideBack(nav * target, price);
    ProductOrder(desired, share, price);
    ProductStrict(share, desired + lot, price);
  }

  function Product(a: real, b: real): real { a * b }

  /** No order below the minima; a zero quantity or price cannot be constructed. */
  function Sized(side: Side, quantity: real, limit: real, quote: Quote, rule: Rule): Result<Option<Order>, Refusal>
    requires Quoted(quote) && Ruled(rule)
  {
    var notional := quantity * limit;
    if quantity < rule.minimumQuantity || notional < rule.minimumNotional then Ok(None)
    else if quantity <= 0.0 || notional <= 0.0 || limit <= 0.0 then Err(IntentInvalid)
    else Ok(Some(Order(side, quantity, notional, limit, RoundUp(Product(notional, rule.feeRate), rule.feeTick), quote.observedAt)))
  }

  /** The order for a difference between desired and held. */
  function Ordered(delta: real, quote: Quote, rule: Rule): Result<Option<Order>, Refusal>
    requires Quoted(quote) && Ruled(rule)
  {
    Sized(if delta > 0.0 then Buy else Sell, RoundDown(Abs(delta), rule.lot), RoundDown(quote.price, rule.tick), quote, rule)
  }

  function Delta(nav: real, target: real, quote: Quote, rule: Rule, current: real, open: real): real
    requires Quoted(quote) && Ruled(rule)
  {
    Desired(nav, target, quote.price, rule.lot) - current - open
  }

  /** The checks of one instrument, given what is missing. */
  function PlanDelta(delta: real, open: real, quote: Quote, rule: Rule, instant: int): Result<Option<Order>, Refusal>
    requires Quoted(quote) && Ruled(rule)
  {
    if !quote.sessionOpen then Err(SessionClosed)
    else if instant < quote.observedAt then Err(QuoteFromFuture)
    else if instant >= quote.validUntil then Err(QuoteStale)
    else if open != 0.0 && delta != 0.0 && (open > 0.0) != (delta > 0.0) then Err(ExposureCross)
    else if delta == 0.0 then Ok(None)
    else Ordered(delta, quote, rule)
  }

  function Plan(nav: real, target: real, quote: Quote, rule: Rule, current: real, open: real, instant: int)
    : Result<Option<Order>, Refusal>
    requires Quoted(quote) && Ruled(rule)
  {
    PlanDelta(Delta(nav, target, quote, rule, current, open), open, quote, rule, instant)
  }

  function Signum(o: Order): real { if o.side.Buy? then o.quantity else -o.quantity }

  ghost predicate Above(y: real, x: real, unit: real) {
    x <= y < x + unit && Multiple(y, unit)
  }

  /** What the figures of an order are, given its quantity and limit. */
  ghost predicate Priced(o: Order, quote: Quote, rule: Rule)
    requires Ruled(rule)
  {
    && rule.minimumQuantity <= o.quantity && rule.minimumNotional <= o.notional && o.notional == o.quantity * o.limit
    && 0.0 < o.quantity && 0.0 < o.limit && Above(o.fee, Product(o.notional, rule.feeRate), rule.feeTick) && o.observedAt == quote.observedAt
  }

  lemma SizedMeaning(side: Side, quantity: real, limit: real, quote: Quote, rule: Rule)
    requires Quoted(quote) && Ruled(rule)
    requires Sized(side, quantity, limit, quote, rule).Ok? && Sized(side, quantity, limit, quote, rule).value.Some?
    ensures var o := Sized(side, quantity, limit, quote, rule).value.value;
            Priced(o, quote, rule) && o.side == side && o.quantity == quantity && o.limit == limit
  {
    RoundUpBounds(Product(quantity * limit, rule.feeRate), rule.feeTick);
  }

  ghost predicate Below(y: real, x: real, unit: real) {
    y <= x < y + unit && Multiple(y, unit)
  }

  lemma OrderedMeaning(delta: real, quote: Quote, rule: Rule)
    requires Quoted(quote) && Ruled(rule) && Ordered(delta, quote, rule).Ok? && Ordered(delta, quote, rule).value.Some?
    ensures var o := Ordered(delta, quote, rule).value.value;
            && Priced(o, quote, rule) && (o.side.Buy? <==> delta > 0.0)
            && Below(o.quantity, Abs(delta), rule.lot) && Below(o.limit, quote.price, rule.tick)
  {
    var side := if delta > 0.0 then Buy else Sell;
    var quantity := LotsWithin(Abs(delta), rule.lot);
    var limit := LotsWithin(quote.price, rule.tick);
    SizedMeaning(side, quantity, limit, quote, rule);
  }

  lemma LotsWithin(x: real, unit: real) returns (y: real)
    requires unit > 0.0
    ensures y == RoundDown(x, unit) && Below(y, x, unit)
  {
    RoundDownBounds(x, unit);
    y := RoundDown(x, unit);
  }

  /** A planned order moves held plus working quantity toward the desired holding, to within one lot of it, never past
      it and never against what is already working. */
  lemma {:induction false} OrderMovesTowardDesired(nav: real, target: real, quote: Quote, rule: Rule, current: real, open: real, instant: int)
    requires Quoted(quote) && Ruled(rule)
    requires var p := Plan(nav, target, quote, rule, current, open, instant); p.Ok? && p.value.Some?
    ensures var o := Plan(nav, target, quote, rule, current, open, instant).value.value;
            var desired, before := Desired(nav, target, quote.price, rule.lot), current + open;
            var after := before + Signum(o);
            && (o.side.Buy? ==> before < after <= desired < after + rule.lot && open >= 0.0)
            && (o.side.Sell? ==> after - rule.lot < desired <= after < before && open <= 0.0)
            && Multiple(o.quantity, rule.lot) && o.notional == o.quantity * o.limit
  {
    var delta := Delta(nav, target, quote, rule, current, open);
    PlannedMeaning(delta, open, quote, rule, instant);
    TowardDesired(PlanDelta(delta, open, quote, rule, instant).value.value, delta, current + open, rule.lot);
  }

  /** A planned order fills what is missing from its own side, in whole lots. */
  lemma PlannedMeaning(delta: real, open: real, quote: Quote, rule: Rule, instant: int)
    requires Quoted(quote) && Ruled(rule)
    requires var p := PlanDelta(delta, open, quote, rule, instant); p.Ok? && p.value.Some?
    ensures var o := PlanDelta(delta, open, quote, rule, instant).value.value;
            && 0.0 < o.quantity && Below(o.quantity, Abs(delta), rule.lot) && o.notional == o.quantity * o.limit
            && (if o.side.Buy? then delta > 0.0 && open >= 0.0 else delta < 0.0 && open <= 0.0)
  {
    OrderedMeaning(delta, quote, rule);
  }

  lemma TowardDesired(o: Order, delta: real, before: real, lot: real)
    requires 0.0 < o.quantity && Below(o.quantity, Abs(delta), lot) && (o.side.Buy? <==> delta > 0.0)
    ensures var desired, after := before + delta, before + Signum(o);
            && (o.side.Buy? ==> before < after <= desired < after + lot)
            && (o.side.Sell? ==> after - lot < desired <= after < before)
  {
  }

  /** Planning again, once the order is working, asks for nothing more; with no minimum at all, a remainder below one
      lot is refused instead. */
  lemma {:induction false} ReplanSettles(nav: real, target: real, quote: Quote, rule: Rule, current: real, open: real, instant: int)
    requires Quoted(quote) && Ruled(rule)
    requires var p := Plan(nav, target, quote, rule, current, open, instant); p.Ok? && p.value.Some?
    ensures var o := Plan(nav, target, quote, rule, current, open, instant).value.value;
            var again := Plan(nav, target, quote, rule, current, open + Signum(o), instant);
            var left := Delta(nav, target, quote, rule, current, open + Signum(o));
            && again in {Ok(None), Err(IntentInvalid)}
            && (again == Ok(None) <==> left == 0.0 || rule.minimumQuantity > 0.0 || rule.minimumNotional > 0.0)
  {
    var delta := Delta(nav, target, quote, rule, current, open);
    ReplanDelta(delta, open, quote, rule, instant);
  }

  lemma ReplanDelta(delta: real, open: real, quote: Quote, rule: Rule, instant: int)
    requires Quoted(quote) && Ruled(rule)
    requires var p := PlanDelta(delta, open, quote, rule, instant); p.Ok? && p.value.Some?
    ensures var moved := Signum(PlanDelta(delta, open, quote, rule, instant).value.value);
            var again := PlanDelta(delta - moved, open + moved, quote, rule, instant);
            && again in {Ok(None), Err(IntentInvalid)}
            && (again == Ok(None) <==> delta - moved == 0.0 || rule.minimumQuantity > 0.0 || rule.minimumNotional > 0.0)
  {
    PlannedMeaning(delta, open, quote, rule, instant);
    var left := delta - Signum(PlanDelta(delta, open, quote, rule, instant).value.value);
    assert 0.0 <= Abs(left) < rule.lot;
    ZeroIffBelow(Abs(left), rule.lot);
    NothingLeft(left, quote, rule);
  }

  lemma NothingLeft(left: real, quote: Quote, rule: Rule)
    requires Quoted(quote) && Ruled(rule) && RoundDown(Abs(left), rule.lot) == 0.0
    ensures Ordered(left, quote, rule) ==
            if rule.minimumQuantity > 0.0 || rule.minimumNotional > 0.0 then Ok(None) else Err(IntentInvalid)
  {
  }

  /** The guards before an order is sized: session, quote age and working exposure. */
  predicate Admits(nav: real, target: real, quote: Quote, rule: Rule, current: real, open: real, instant: int)
    requires Quoted(quote) && Ruled(rule)
  {
    var delta := Delta(nav, target, quote, rule, current, open);
    && quote.sessionOpen && quote.observedAt <= instant < quote.validUntil
    && !(open != 0.0 && delta != 0.0 && (open > 0.0) != (delta > 0.0))
  }

  /** No minimum drops the order although its quantity or its limit rounds to zero. */
  predicate Unconstructible(delta: real, quote: Quote, rule: Rule)
    requires Quoted(quote) && Ruled(rule)
  {
    && delta != 0.0 && rule.minimumNotional == 0.0
    && (|| (Abs(delta) < rule.lot && rule.minimumQuantity == 0.0)
        || (quote.price < rule.tick && rule.minimumQuantity <= RoundDown(Abs(delta), rule.lot)))
  }

  /** Any plan, first or repeated, is refused as unconstructible exactly when the guards pass, something is missing, and
      without a minimum to drop it the difference is below a lot or the price below a tick. */
  lemma PlanUnconstructibleIff(nav: real, target: real, quote: Quote, rule: Rule, current: real, open: real, instant: int)
    requires Quoted(quote) && Ruled(rule)
    ensures Plan(nav, target, quote, rule, current, open, instant) == Err(IntentInvalid) <==>
            && Admits(nav, target, quote, rule, current, open, instant)
            && Unconstructible(Delta(nav, target, quote, rule, current, open), quote, rule)
  {
    var delta := Delta(nav, target, quote, rule, current, open);
    ZeroIffBelow(Abs(delta), rule.lot);
    ZeroIffBelow(quote.price, rule.tick);
    SizedRefusedIff(if delta > 0.0 then Buy else Sell, RoundDown(Abs(delta), rule.lot), RoundDown(quote.price, rule.tick),
                    quote, rule);
  }

  /** A non-negative amount rounds to zero exactly when it is below the unit. */
  lemma ZeroIffBelow(x: real, unit: real)
    requires unit > 0.0 && x >= 0.0
    ensures RoundDown(x, unit) >= 0.0 && (RoundDown(x, unit) == 0.0 <==> x < unit)
  {
    RoundDownBounds(x, unit);
  }

  lemma SizedRefusedIff(side: Side, quantity: real, limit: real, quote: Quote, rule: Rule)
    requires Quoted(quote) && Ruled(rule) && quantity >= 0.0 && limit >= 0.0
    ensures Sized(side, quantity, limit, quote, rule) == Err(IntentInvalid) <==>
            && (quantity == 0.0 || limit == 0.0) && rule.minimumQuantity <= quantity && rule.minimumNotional == 0.0
  {
    if quantity > 0.0 && limit > 0.0 { ProductStrict(0.0, quantity, limit); }
  }

  /** It does happen, after a first order and without one: with no minimum, a missing half share refuses the plan. */
  lemma SubLotRemainderRefused()
    ensures var quote, rule := Quote(10.0, 0, 9, true), Rule(1.0, 1.0, 0.0, 0.0, 0.0, 1.0);
            var first := Plan(100.0, 1.0, quote, rule, 0.5, 0.0, 1);
            && first.Ok? && first.value.Some? && Signum(first.value.value) == 9.0
            && Plan(100.0, 1.0, quote, rule, 0.5, 9.0, 1) == Err(IntentInvalid)
            && Plan(100.0, 1.0, quote, rule, 9.5, 0.0, 1) == Err(IntentInvalid)
  {
    var quote, rule := Quote(10.0, 0, 9, true), Rule(1.0, 1.0, 0.0, 0.0, 0.0, 1.0);
    assert Desired(100.0, 1.0, 10.0, 1.0) == 10.0;
    assert RoundDown(9.5, 1.0) == 9.0 && RoundDown(10.0, 1.0) == 10.0;
    PlanUnconstructibleIff(100.0, 1.0, quote, rule, 0.5, 9.0, 1);
    PlanUnconstructibleIff(100.0, 1.0, quote, rule, 9.5, 0.0, 1);
  }

  // ------------------------------------------------------------------- the whole plan

  lemma DesiredWithinTarget(nav: real, target: real, price: real, lot: real)
    requires price > 0.0 && lot > 0.0
    ensures Desired(nav, target, price, lot) * price <= nav * target
  {
    RoundDownBounds(nav * target / price, lot);
    ProductOrder(Desired(nav, target, price, lot), nav * target / price, price);
    DivideBack(nav * target, price);
  }

  function Costs(nav: real, w: map<string, real>, quotes: map<string, Quote>, rules: map<string, Rule>): map<string, real>
    requires forall k :: k in w ==> k in quotes && Quoted(quotes[k]) && k in rules && Ruled(rules[k])
  {
    map k | k in w :: assert Quoted(quotes[k]) && Ruled(rules[k]); Desired(nav, w[k], quotes[k].price, rules[k].lot) * quotes[k].price
  }

  /** Together the desired holdings of an authorized target cost at most the net asset value. */
  lemma DesiredWithinNav(nav: real, w: map<string, real>, quotes: map<string, Quote>, rules: map<string, Rule>)
    requires Authority.IsTarget(w)
    requires forall k :: k in w ==> k in quotes && Quoted(quotes[k]) && k in rules && Ruled(rules[k])
    ensures SumOver(w.Keys, Costs(nav, w, quotes, rules)) <= nav
  {
    var costs := Costs(nav, w, quotes, rules);
    var shares := map k | k in w :: nav * w[k];
    forall k | k in w ensures costs[k] <= shares[k] { DesiredWithinTarget(nav, w[k], quotes[k].price, rules[k].lot); }
    SumAtMost(w.Keys, costs, shares);
    SumScaled(w.Keys, w, shares, nav);
  }

  lemma DesiredMonotone(nav: real, a: real, b: real, price: real, lot: real)
    requires nav > 0.0 && price > 0.0 && lot > 0.0 && a <= b
    ensures Desired(nav, a, price, lot) <= Desired(nav, b, price, lot)
  {
    ProductOrder(a, b, nav);
    QuotientMonotone(nav * a, nav * b, price);
    RoundDownMonotone(nav * a / price, nav * b / price, lot);
  }

  lemma QuotientMonotone(a: real, b: real, unit: real)
    requires unit > 0.0 && a <= b
    ensures a / unit <= b / unit
  {
    QuotientOrder(a, unit, b / unit);
    DivideBack(b, unit);
  }

  lemma RoundDownMonotone(x: real, y: real, unit: real)
    requires unit > 0.0 && x <= y
    ensures RoundDown(x, unit) <= RoundDown(y, unit)
  {
    QuotientMonotone(x, y, unit);
    ProductOrder((x / unit).Floor as real, (y / unit).Floor as real, unit);
  }

  /** Raising more flags never raises the desired holding of a risky instrument, whatever
      its price and lot. */
  lemma MoreFlagsSmallerHoldings(t: Governor.Tables, p: Governor.Policy, a: Governor.Inputs, b: Governor.Inputs,
                                 w: map<string, real>, nav: real, k: string, price: real, lot: real)
    requires Governor.Admitted(t, p) && a.flags <= b.flags && a.policyVersion == b.policyVersion
    requires Authority.IsTarget(w) && p.cash in w && Governor.Approves(Governor.Decide(t, p, b))
    requires nav > 0.0 && price > 0.0 && lot > 0.0 && k in w && k != p.cash
    ensures var m, n := Governor.Decide(t, p, b).multiplier, Governor.Decide(t, p, a).multiplier;
            Desired(nav, Authority.Bound(w, p.cash, m)[k], price, lot) <= Desired(nav, Authority.Bound(w, p.cash, n)[k], price, lot)
  {
    Authority.MoreFlagsMoreCash(t, p, a, b, w);
    var m, n := Governor.Decide(t, p, b).multiplier, Governor.Decide(t, p, a).multiplier;
    DesiredMonotone(nav, Authority.Bound(w, p.cash, m)[k], Authority.Bound(w, p.cash, n)[k], price, lot);
  }

  datatype Weight = Weight(instrument: string, target: real)

  datatype Market = Market(quotes: map<string, Quote>, rules: map<string, Rule>, current: map<string, real>, open: map<string, real>)

  ghost predicate WellFormed(m: Market) {
    && (forall k :: k in m.quotes ==> Quoted(m.quotes[k]))
    && (forall k :: k in m.rules ==> Ruled(m.rules[k]))
  }

  function PlanFor(nav: real, w: Weight, m: Market, instant: int): Result<Option<Order>, Refusal>
    requires WellFormed(m)
  {
    var k := w.instrument;
    if k !in m.quotes || k !in m.rules || k !in m.current then Err(InputInvalid)
    else Plan(nav, w.target, m.quotes[k], m.rules[k], m.current[k], if k in m.open then m.open[k] else 0.0, instant)
  }

  function Found(orders: map<string, Order>, k: string): Option<Order> {
    if k in orders then Some(orders[k]) else None
  }

  /** The order leads from what is held and working toward a desired holding `goal`: to within a lot of it, never past it,
      never against what is working, in whole lots, at the quote's price rounded down to the tick. */
  ghost predicate LeadsTo(o: Order, goal: real, held: real, working: real, quote: Quote, rule: Rule) {
    && Multiple(o.quantity, rule.lot) && 0.0 < o.quantity
    && Below(o.limit, quote.price, rule.tick) && o.notional == o.quantity * o.limit
    && (o.side.Buy? ==> working >= 0.0 && held + working + o.quantity <= goal < held + working + o.quantity + rule.lot)
    && (o.side.Sell? ==> working <= 0.0 && held + working - o.quantity - rule.lot < goal <= held + working - o.quantity)
  }

  /** An order the plan places is for a target that has its quote, rule and holding, and leads to its desired holding. */
  ghost predicate PlacedFor(o: Order, nav: real, w: Weight, m: Market, instant: int) {
    var k := w.instrument;
    && k in m.quotes && k in m.rules && k in m.current
    && m.quotes[k].sessionOpen && m.quotes[k].observedAt <= instant < m.quotes[k].validUntil
    && exists goal :: IsDesired(goal, nav, w.target, m.quotes[k].price, m.rules[k].lot) &&
         LeadsTo(o, goal, m.current[k], if k in m.open then m.open[k] else 0.0, m.quotes[k], m.rules[k])
  }

  lemma PlannedIsPlaced(nav: real, w: Weight, m: Market, instant: int)
    requires WellFormed(m) && PlanFor(nav, w, m, instant).Ok? && PlanFor(nav, w, m, instant).value.Some?
    ensures PlacedFor(PlanFor(nav, w, m, instant).value.value, nav, w, m, instant)
  {
    var k := w.instrument;
    var quote, rule, open := m.quotes[k], m.rules[k], if k in m.open then m.open[k] else 0.0;
    var delta := Delta(nav, w.target, quote, rule, m.current[k], open);
    var o := PlanDelta(delta, open, quote, rule, instant).value.value;
    DesiredMeaning(nav, w.target, quote.price, rule.lot);
    OrderedMeaning(delta, quote, rule);
    DeltaLeads(o, Desired(nav, w.target, quote.price, rule.lot), delta, m.current[k], open, quote, rule);
  }

  /** Whole lots of the difference at the rounded price are below a minimum. */
  ghost predicate TooSmall(delta: real, quote: Quote, rule: Rule) {
    exists quantity, limit ::
      && Below(quantity, Abs(delta), rule.lot) && Below(limit, quote.price, rule.tick)
      && (quantity < rule.minimumQuantity || quantity * limit < rule.minimumNotional)
  }

  /** A target gets no order because nothing is missing from its desired holding, or too little. */
  ghost predicate NeedsNone(nav: real, w: Weight, m: Market) {
    var k := w.instrument;
    && k in m.quotes && k in m.rules && k in m.current
    && exists goal :: IsDesired(goal, nav, w.target, m.quotes[k].price, m.rules[k].lot) &&
         var delta := goal - m.current[k] - (if k in m.open then m.open[k] else 0.0);
         delta == 0.0 || TooSmall(delta, m.quotes[k], m.rules[k])
  }

  lemma DroppedTooSmall(delta: real, quote: Quote, rule: Rule)
    requires Quoted(quote) && Ruled(rule) && Ordered(delta, quote, rule) == Ok(None)
    ensures TooSmall(delta, quote, rule)
  {
    var quantity := LotsWithin(Abs(delta), rule.lot);
    var limit := LotsWithin(quote.price, rule.tick);
    SizedDropped(if delta > 0.0 then Buy else Sell, quantity, limit, quote, rule);
  }

  lemma SizedDropped(side: Side, quantity: real, limit: real, quote: Quote, rule: Rule)
    requires Quoted(quote) && Ruled(rule) && Sized(side, quantity, limit, quote, rule) == Ok(None)
    ensures quantity < rule.minimumQuantity || quantity * limit < rule.minimumNotional
  {
  }

  lemma SkippedNeedsNone(nav: real, w: Weight, m: Market, instant: int)
    requires WellFormed(m) && PlanFor(nav, w, m, instant) == Ok(None)
    ensures NeedsNone(nav, w, m)
  {
    var k := w.instrument;
    var quote, rule, open := m.quotes[k], m.rules[k], if k in m.open then m.open[k] else 0.0;
    var delta := Delta(nav, w.target, quote, rule, m.current[k], open);
    DesiredMeaning(nav, w.target, quote.price, rule.lot);
    if delta != 0.0 { DroppedTooSmall(delta, quote, rule); }
  }

  lemma DeltaLeads(o: Order, goal: real, delta: real, held: real, working: real, quote: Quote, rule: Rule)
    requires Ruled(rule) && Priced(o, quote, rule) && delta == goal - held - working && (o.side.Buy? <==> delta > 0.0)
    requires Below(o.quantity, Abs(delta), rule.lot) && Below(o.limit, quote.price, rule.tick)
    requires working != 0.0 && delta != 0.0 ==> (working > 0.0 <==> delta > 0.0)
    ensures LeadsTo(o, goal, held, working, quote, rule)
  {
  }

  /** The plan holds, per target, the order its own figures call for and no other; one refusal refuses all. */
  method PlanOrders(nav: real, targets: seq<Weight>, m: Market, instant: int) returns (res: Result<map<string, Order>, Refusal>)
    requires WellFormed(m)
    requires forall i, j :: 0 <= i < j < |targets| ==> targets[i].instrument != targets[j].instrument
    ensures nav <= 0.0 ==> res == Err(InputInvalid)
    ensures nav > 0.0 && res.Err? ==> exists i :: 0 <= i < |targets| && PlanFor(nav, targets[i], m, instant) == Err(res.reason)
    ensures res.Ok? ==> forall i :: 0 <= i < |targets| ==> PlanFor(nav, targets[i], m, instant) == Ok(Found(res.value, targets[i].instrument))
    ensures res.Ok? ==> forall k :: k in res.value ==> exists i :: 0 <= i < |targets| && targets[i].instrument == k
    ensures res.Ok? ==> forall i :: 0 <= i < |targets| && targets[i].instrument in res.value ==>
                          PlacedFor(res.value[targets[i].instrument], nav, targets[i], m, instant)
    ensures res.Ok? ==> forall i :: 0 <= i < |targets| && targets[i].instrument !in res.value ==> NeedsNone(nav, targets[i], m)
  {
    if nav <= 0.0 { return Err(InputInvalid); }
    var orders: map<string, Order> := map[];
    for n := 0 to |targets|
      invariant forall i :: 0 <= i < n ==> PlanFor(nav, targets[i], m, instant) == Ok(Found(orders, targets[i].instrument))
      invariant forall k :: k in orders ==> exists i :: 0 <= i < n && targets[i].instrument == k
    {
      var plan := PlanFor(nav, targets[n], m, instant);
      if plan.Err? { return Err(plan.reason); }
      if plan.value.Some? {
        orders := orders[targets[n].instrument := plan.value.value];
      }
    }
    forall i | 0 <= i < |targets| && targets[i].instrument in orders
      ensures PlacedFor(orders[targets[i].instrument], nav, targets[i], m, instant)
    {
      PlannedIsPlaced(nav, targets[i], m, instant);
    }
    forall i | 0 <= i < |targets| && targets[i].instrument !in orders ensures NeedsNone(nav, targets[i], m) {
      SkippedNeedsNone(nav, targets[i], m, instant);
    }
    res := Ok(orders);
  }
}
