/**
 The execution schedule: a parent order becomes limit-priced children in time windows, each capped by a share of the
 window's forecast volume.  Instants are microseconds; the microstructure assessment is a parameter.
 */
module Scheduling {
  import opened Common
  import opened Rounding
  import opened Allocation
  import opened Planner

  datatype Mode = Immediate | PassiveLimit | Twap | Pov | OpenCloseAware | EventDeferred

  datatype Policy = Policy(mode: Mode, participation: real, maxOrderAdv: real, maxImpact: real, maxVolatility: real,
                           childCount: nat, eventBuffer: int)

  /** `reference` is the fresh assessment's executable price, present exactly when it allows trading. */
  datatype Request = Request(
    side: Side, quantity: real, limit: real, agrees: bool, reference: Option<real>, bid: real, ask: real,
    limitSupported: bool, regular: Option<(int, int)>, sessionHolds: bool,
    evaluatedAt: int, transitionStart: int, validUntil: int, forecastValidUntil: int,
    urgency: real, adv: real, volatility: real, impact: real, volumes: seq<real>, events: seq<int>)

  datatype Child = Child(sequence: nat, quantity: real, price: real, notBefore: int, expiresAt: int, volumeCap: real)

  datatype Reason =
    | InputInvalid | ParentMarketConflict | Microstructure | OrderTypeUnsupported | SessionUnavailable
    | WindowUnavailable | EventDefer | OrderAdvLimit | MarketCostLimit | VolumeMissing | ParentLotConflict
    | CapacityInsufficient | PriceInvalid | ChildBelowMinimum | ChildWindowInvalid | ScheduleReady

  /** PLANNED exactly when there are children. */
  datatype Schedule = Schedule(reason: Reason, children: seq<Child>)

  predicate PolicyAdmitted(p: Policy) {
    && 0.0 < p.participation <= 1.0 && 0.0 < p.maxOrderAdv <= 1.0 && 0.0 < p.maxImpact && 0.0 < p.maxVolatility
    && 1 <= p.childCount <= 1000 && 0 <= p.eventBuffer
  }

  /** What the parent order and the quote guarantee by construction. */
  predicate ParentAdmitted(r: Request) {
    && r.quantity > 0.0 && r.limit > 0.0 && r.bid > 0.0 && r.ask > 0.0
    && (r.reference.Some? ==> r.reference.value > 0.0)
  }

  predicate InputsValid(r: Request) {
    && r.volumes != [] && r.adv > 0.0 && 0.0 <= r.urgency <= 1.0 && r.volatility >= 0.0 && r.impact >= 0.0
    && forall i :: 0 <= i < |r.volumes| ==> r.volumes[i] >= 0.0
  }

  /** The first instant that is not before the evaluation, the transition, the session's opening or, where openings are
      avoided, the end of the buffer after it. */
  ghost predicate IsStart(start: int, r: Request, p: Policy)
    requires r.regular.Some?
  {
    var opening := r.regular.value.0 + if p.mode.OpenCloseAware? then p.eventBuffer else 0;
    && start >= r.evaluatedAt && start >= r.transitionStart && start >= r.regular.value.0 && start >= opening
    && (start == r.evaluatedAt || start == r.transitionStart || start == r.regular.value.0 || start == opening)
  }

  /** The last instant within both validities, the session and, where closings are avoided, the time before its buffer. */
  ghost predicate IsEnd(end: int, r: Request, p: Policy)
    requires r.regular.Some?
  {
    var closing := r.regular.value.1 - if p.mode.OpenCloseAware? then p.eventBuffer else 0;
    && end <= r.validUntil && end <= r.forecastValidUntil && end <= r.regular.value.1 && end <= closing
    && (end == r.validUntil || end == r.forecastValidUntil || end == r.regular.value.1 || end == closing)
  }

  function Start(r: Request, p: Policy): (start: int)
    requires r.regular.Some?
    ensures IsStart(start, r, p)
  {
    var base := Max(r.evaluatedAt, Max(r.transitionStart, r.regular.value.0));
    if p.mode.OpenCloseAware? then Max(base, r.regular.value.0 + p.eventBuffer) else base
  }

  function End(r: Request, p: Policy): (end: int)
    requires r.regular.Some?
    ensures IsEnd(end, r, p)
  {
    var base := Min(r.validUntil, Min(r.forecastValidUntil, r.regular.value.1));
    if p.mode.OpenCloseAware? then Min(base, r.regular.value.1 - p.eventBuffer) else base
  }

  function Fraction(urgency: real): real { 1.0 - urgency / 2.0 }

  /** Higher urgency compresses the window. */
  function Span(r: Request, p: Policy): int
    requires r.regular.Some?
  {
    ((End(r, p) - Start(r, p)) as real * Fraction(r.urgency)).Floor
  }

  /** The whole instants in what urgency leaves of the time between: all of it at urgency zero, half at one. */
  ghost predicate IsSpan(span: int, length: int, urgency: real) {
    2.0 * span as real <= length as real * (2.0 - urgency) < 2.0 * span as real + 2.0
  }

  lemma SpanMeaning(r: Request, p: Policy)
    requires r.regular.Some?
    ensures IsSpan(Span(r, p), End(r, p) - Start(r, p), r.urgency)
  {
    HalfOf((End(r, p) - Start(r, p)) as real, r.urgency);
  }

  lemma HalfOf(x: real, urgency: real)
    ensures 2.0 * (x * Fraction(urgency)) == x * (2.0 - urgency)
  {
    assert 2.0 * Fraction(urgency) == 2.0 - urgency;
  }

  function Count(p: Policy): nat {
    if p.mode.Twap? || p.mode.Pov? || p.mode.OpenCloseAware? then p.childCount else 1
  }

  predicate EventNear(r: Request, p: Policy, i: nat)
    requires r.regular.Some? && i < |r.events|
  {
    Start(r, p) - p.eventBuffer <= r.events[i] <= Start(r, p) + Span(r, p) + p.eventBuffer
  }

  /** The refusals before allocation, in the order they are given. */
  function Halt(r: Request, p: Policy, rule: Rule): Option<Reason>
    requires Ruled(rule)
  {
    if !InputsValid(r) then Some(Reason.InputInvalid)
    else if !r.agrees then Some(ParentMarketConflict)
    else if r.reference.None? then Some(Microstructure)
    else if !r.limitSupported then Some(OrderTypeUnsupported)
    else if r.regular.None? then Some(SessionUnavailable)
    else if Start(r, p) >= End(r, p) || !r.sessionHolds then Some(WindowUnavailable)
    else if p.mode.EventDeferred? || exists i :: 0 <= i < |r.events| && EventNear(r, p, i) then Some(EventDefer)
    else if r.quantity / r.adv > p.maxOrderAdv then Some(OrderAdvLimit)
    else if r.volatility > p.maxVolatility || r.impact > p.maxImpact then Some(MarketCostLimit)
    else if |r.volumes| != Count(p) then Some(VolumeMissing)
    else if r.quantity / rule.lot != (r.quantity / rule.lot).Floor as real then Some(ParentLotConflict)
    else None
  }

  function Lots(r: Request, rule: Rule): int
    requires Ruled(rule)
  {
    (r.quantity / rule.lot).Floor
  }

  function ScaledVolume(r: Request, i: nat): real
    requires i < |r.volumes|
  {
    r.volumes[i] * Fraction(r.urgency)
  }

  function CapacityOf(volume: real, participation: real, lot: real): int
    requires lot > 0.0
  {
    (volume * participation / lot).Floor
  }

  /** The most whole lots within the participation share of a window's volume, itself reduced by urgency. */
  ghost predicate IsCapacity(lots: int, volume: real, urgency: real, participation: real, lot: real) {
    exists scaled :: 2.0 * scaled == volume * (2.0 - urgency) && WithinShare(lots, scaled, participation, lot)
  }

  ghost predicate WithinShare(lots: int, volume: real, participation: real, lot: real) {
    Units(lots, lot) <= volume * participation < Units(lots, lot) + lot
  }

  lemma CapacityMeaning(r: Request, p: Policy, rule: Rule, i: nat)
    requires Ruled(rule) && i < |r.volumes|
    ensures IsCapacity(Capacities(r, p, rule)[i], r.volumes[i], r.urgency, p.participation, rule.lot)
  {
    HalfOf(r.volumes[i], r.urgency);
    ShareMeaning(ScaledVolume(r, i), p.participation, rule.lot);
  }

  lemma ShareMeaning(volume: real, participation: real, lot: real)
    requires lot > 0.0
    ensures WithinShare(CapacityOf(volume, participation, lot), volume, participation, lot)
  {
    RoundDownBounds(volume * participation, lot);
  }

  function Capacities(r: Request, p: Policy, rule: Rule): seq<int>
    requires Ruled(rule)
  {
    seq(|r.volumes|, i requires 0 <= i < |r.volumes| => CapacityOf(ScaledVolume(r, i), p.participation, rule.lot))
  }

  lemma ProductNonNegativeReal(a: real, b: real)
    requires a >= 0.0 && b >= 0.0
    ensures a * b >= 0.0
  {
  }

  lemma CapacityNonNegative(volume: real, participation: real, lot: real)
    requires volume >= 0.0 && participation >= 0.0 && lot > 0.0
    ensures CapacityOf(volume, participation, lot) >= 0
  {
    var share := volume * participation;
    assert share >= 0.0 by { ProductNonNegativeReal(volume, participation); }
    QuotientOrder(share, lot, 0.0);
  }

  lemma ScaledNonNegative(r: Request, i: nat)
    requires InputsValid(r) && i < |r.volumes|
    ensures ScaledVolume(r, i) >= 0.0
  {
    var v, f := r.volumes[i], Fraction(r.urgency);
    assert f >= 0.0;
    ProductNonNegativeReal(v, f);
    assert ScaledVolume(r, i) == v * f;
  }

  lemma CapacitiesNonNegative(r: Request, p: Policy, rule: Rule)
    requires Ruled(rule) && PolicyAdmitted(p) && InputsValid(r)
    ensures forall i :: 0 <= i < |r.volumes| ==> Capacities(r, p, rule)[i] >= 0
  {
    forall i | 0 <= i < |r.volumes| ensures Capacities(r, p, rule)[i] >= 0 {
      ScaledNonNegative(r, i);
      CapacityNonNegative(ScaledVolume(r, i), p.participation, rule.lot);
    }
  }

  /** Lots within a capacity are quantity within the participation share of the volume. */
  lemma WithinCapacity(taken: int, volume: real, participation: real, lot: real)
    requires lot > 0.0 && taken <= CapacityOf(volume, participation, lot)
    ensures Units(taken, lot) <= volume * participation
  {
    QuotientOrder(volume * participation, lot, taken as real);
  }

  lemma LotsOfParent(r: Request, rule: Rule)
    requires Ruled(rule) && r.quantity > 0.0 && r.quantity / rule.lot == (r.quantity / rule.lot).Floor as real
    ensures Units(Lots(r, rule), rule.lot) == r.quantity && Lots(r, rule) >= 1
  {
    DivideBack(r.quantity, rule.lot);
    QuotientOrder(r.quantity, rule.lot, 0.0);
  }

  // ------------------------------------------------------------------- price

  function Reference(r: Request, p: Policy): real
    requires r.reference.Some?
  {
    if p.mode.PassiveLimit? then (if r.side.Buy? then r.bid else r.ask) else r.reference.value
  }

  function Price(r: Request, p: Policy, rule: Rule): real
    requires r.reference.Some? && Ruled(rule)
  {
    if r.side.Buy? then RoundDown(MinReal(Reference(r, p), r.limit), rule.tick)
    else RoundUp(MaxReal(Reference(r, p), r.limit), rule.tick)
  }

  /** The price of every child: on the tick, as near as the tick allows to the better of the parent's limit and the
      market's price, which is the passive side of the quote or else the assessed executable price. */
  ghost predicate IsPrice(price: real, r: Request, p: Policy, tick: real)
    requires r.reference.Some?
  {
    var market := if !p.mode.PassiveLimit? then r.reference.value else if r.side.Buy? then r.bid else r.ask;
    && Multiple(price, tick)
    && (r.side.Buy? ==> price <= market && price <= r.limit && (market < price + tick || r.limit < price + tick))
    && (r.side.Sell? ==> price >= market && price >= r.limit && (market > price - tick || r.limit > price - tick))
  }

  lemma PriceMeaning(r: Request, p: Policy, rule: Rule)
    requires r.reference.Some? && Ruled(rule)
    ensures IsPrice(Price(r, p, rule), r, p, rule.tick)
  {
    if r.side.Buy? {
      RoundDownBounds(MinReal(Reference(r, p), r.limit), rule.tick);
    } else {
      RoundUpBounds(MaxReal(Reference(r, p), r.limit), rule.tick);
    }
  }

  predicate NoWorse(side: Side, price: real, limit: real) {
    if side.Buy? then price <= limit else price >= limit
  }

  lemma PriceNoWorse(r: Request, p: Policy, rule: Rule)
    requires r.reference.Some? && Ruled(rule)
    ensures NoWorse(r.side, Price(r, p, rule), r.limit) && Multiple(Price(r, p, rule), rule.tick)
  {
    if r.side.Buy? {
      RoundDownBounds(MinReal(Reference(r, p), r.limit), rule.tick);
    } else {
      RoundUpBounds(MaxReal(Reference(r, p), r.limit), rule.tick);
    }
  }

  // ------------------------------------------------------------------- children

  /** What is fixed once lots and price are settled. */
  datatype Frame = Frame(start: int, span: int, count: nat, price: real, volumes: seq<real>)

  predicate FrameFits(f: Frame) { f.count > 0 && f.span >= 0 && |f.volumes| == f.count }

  function ChildAt(f: Frame, rule: Rule, i: nat, taken: int): Child
    requires FrameFits(f) && i < f.count
  {
    Child(i + 1, Units(taken, rule.lot), f.price, Edge(f.start, f.span, i, f.count), Edge(f.start, f.span, i + 1, f.count),
          f.volumes[i])
  }

  function ChildFault(c: Child, rule: Rule): Option<Reason> {
    if c.quantity < rule.minimumQuantity || c.quantity * c.price < rule.minimumNotional then Some(ChildBelowMinimum)
    else if c.notBefore >= c.expiresAt then Some(ChildWindowInvalid)
    else None
  }

  /** The children of the first `n` windows. */
  function Children(f: Frame, rule: Rule, allocation: seq<int>, n: nat): seq<Child>
    requires FrameFits(f) && n <= |allocation| <= f.count
  {
    if n == 0 then []
    else Children(f, rule, allocation, n - 1) +
         (if allocation[n - 1] == 0 then [] else [ChildAt(f, rule, n - 1, allocation[n - 1])])
  }

  function Quantity(cs: seq<Child>): real
    decreases |cs|
  {
    if cs == [] then 0.0 else Quantity(cs[..|cs| - 1]) + cs[|cs| - 1].quantity
  }

  lemma UnitsAdd(a: int, b: int, unit: real)
    ensures Units(a + b, unit) == Units(a, unit) + Units(b, unit)
  {
    assert (a + b) as real == a as real + b as real;
  }

  /** Running totals that grow by whole lots are whole lots. */
  lemma {:induction false} LotsAccumulate(q: seq<real>, allocation: seq<int>, lot: real, n: nat)
    requires n <= |allocation| < |q| && q[0] == 0.0
    requires forall i :: 0 <= i < |allocation| ==> q[i + 1] == q[i] + Units(allocation[i], lot)
    ensures q[n] == Units(Total(allocation[..n]), lot)
    decreases n
  {
    if n == 0 {
      assert Units(0, lot) == 0.0;
    } else {
      LotsAccumulate(q, allocation, lot, n - 1);
      assert allocation[..n] == allocation[..n - 1] + [allocation[n - 1]];
      TotalOne(allocation[..n - 1], allocation[n - 1]);
      UnitsAdd(Total(allocation[..n - 1]), allocation[n - 1], lot);
      assert q[n - 1 + 1] == q[n - 1] + Units(allocation[n - 1], lot);
    }
  }

  lemma ChildrenStep(f: Frame, rule: Rule, allocation: seq<int>, i: nat)
    requires FrameFits(f) && i < |allocation| <= f.count
    ensures Quantity(Children(f, rule, allocation, i + 1)) == Quantity(Children(f, rule, allocation, i)) + Units(allocation[i], rule.lot)
  {
    Grows(Children(f, rule, allocation, i), Children(f, rule, allocation, i + 1), allocation[i], rule.lot,
          ChildAt(f, rule, i, allocation[i]));
  }

  lemma Grows(before: seq<Child>, cs: seq<Child>, taken: int, lot: real, c: Child)
    requires cs == if taken == 0 then before else before + [c]
    requires c.quantity == Units(taken, lot)
    ensures Quantity(cs) == Quantity(before) + Units(taken, lot)
  {
    if taken == 0 {
      assert Units(0, lot) == 0.0;
    } else {
      QuantityOne(before, c);
    }
  }

  lemma ChildrenQuantity(f: Frame, rule: Rule, allocation: seq<int>)
    requires FrameFits(f) && |allocation| <= f.count
    ensures Quantity(Children(f, rule, allocation, |allocation|)) == Units(Total(allocation), rule.lot)
  {
    var n := |allocation|;
    var q := seq(n + 1, i requires 0 <= i <= n => Quantity(Children(f, rule, allocation, i)));
    forall i | 0 <= i < n ensures q[i + 1] == q[i] + Units(allocation[i], rule.lot) { ChildrenStep(f, rule, allocation, i); }
    LotsAccumulate(q, allocation, rule.lot, n);
    assert allocation[..n] == allocation;
  }

  lemma QuantityOne(cs: seq<Child>, c: Child)
    ensures Quantity(cs + [c]) == Quantity(cs) + c.quantity
  {
    assert (cs + [c])[..|cs|] == cs;
  }

  /** Each child is one of the windows with lots. */
  ghost predicate FromWindow(c: Child, f: Frame, rule: Rule, allocation: seq<int>, n: nat)
    requires FrameFits(f) && n <= |allocation| <= f.count
  {
    1 <= c.sequence <= n && allocation[c.sequence - 1] != 0 && c == ChildAt(f, rule, c.sequence - 1, allocation[c.sequence - 1])
  }

  ghost predicate InSequence(cs: seq<Child>) {
    forall i, j :: 0 <= i < j < |cs| ==> cs[i].sequence < cs[j].sequence && cs[i].expiresAt <= cs[j].notBefore
  }

  lemma {:induction false} ChildrenInSequence(f: Frame, rule: Rule, allocation: seq<int>, n: nat)
    requires FrameFits(f) && n <= |allocation| <= f.count
    ensures var cs := Children(f, rule, allocation, n);
            InSequence(cs) && forall i :: 0 <= i < |cs| ==> FromWindow(cs[i], f, rule, allocation, n)
    decreases n
  {
    if n > 0 {
      ChildrenInSequence(f, rule, allocation, n - 1);
      var before, cs := Children(f, rule, allocation, n - 1), Children(f, rule, allocation, n);
      forall i | 0 <= i < |before|
        ensures before[i].expiresAt <= Edge(f.start, f.span, n - 1, f.count) && FromWindow(before[i], f, rule, allocation, n)
      {
        EdgesTile(f.start, f.span, before[i].sequence, n - 1, f.count);
      }
    }
  }

  lemma {:induction false} ChildrenExist(f: Frame, rule: Rule, allocation: seq<int>, n: nat)
    requires FrameFits(f) && n <= |allocation| <= f.count && Total(allocation[..n]) != 0
    ensures Children(f, rule, allocation, n) != []
    decreases n
  {
    if n > 0 && allocation[n - 1] == 0 {
      assert allocation[..n] == allocation[..n - 1] + [0];
      TotalOne(allocation[..n - 1], 0);
      ChildrenExist(f, rule, allocation, n - 1);
    }
  }

  /** The loop that builds the children and stops at the first one it may not place. */
  method BuildChildren(f: Frame, rule: Rule, allocation: seq<int>) returns (s: Schedule)
    requires FrameFits(f) && |allocation| == f.count
    ensures s.reason.ScheduleReady? ==> s.children == Children(f, rule, allocation, |allocation|)
    ensures s.reason.ScheduleReady? ==> forall i :: 0 <= i < |allocation| && allocation[i] != 0 ==> ChildFault(ChildAt(f, rule, i, allocation[i]), rule).None?
    ensures !s.reason.ScheduleReady? ==> s.children == [] && s.reason in {ChildBelowMinimum, ChildWindowInvalid}
    ensures !s.reason.ScheduleReady? ==> exists i :: 0 <= i < |allocation| && allocation[i] != 0 && ChildFault(ChildAt(f, rule, i, allocation[i]), rule) == Some(s.reason)
  {
    var children: seq<Child> := [];
    for i := 0 to |allocation|
      invariant children == Children(f, rule, allocation, i)
      invariant forall j :: 0 <= j < i && allocation[j] != 0 ==> ChildFault(ChildAt(f, rule, j, allocation[j]), rule).None?
    {
      if allocation[i] == 0 { continue; }
      var c := ChildAt(f, rule, i, allocation[i]);
      var fault := ChildFault(c, rule);
      if fault.Some? { return Schedule(fault.value, []); }
      children := children + [c];
    }
    s := Schedule(ScheduleReady, children);
  }

  // ------------------------------------------------------------------- the schedule

  /** A child is a whole number of lots within its window's share, inside every bound, at a price no worse than the
      parent's limit and on the tick. */
  ghost predicate ChildSound(c: Child, r: Request, p: Policy, rule: Rule)
    requires r.regular.Some?
  {
    && 0.0 < c.quantity && Multiple(c.quantity, rule.lot) && c.quantity >= rule.minimumQuantity
    && c.quantity <= c.volumeCap * p.participation
    && 1 <= c.sequence <= |r.volumes| && c.volumeCap == ScaledVolume(r, c.sequence - 1)
    && 0.0 < c.price && Multiple(c.price, rule.tick) && NoWorse(r.side, c.price, r.limit)
    && Start(r, p) <= c.notBefore < c.expiresAt <= End(r, p)
  }

  ghost predicate Conserving(cs: seq<Child>, r: Request, p: Policy, rule: Rule)
    requires r.regular.Some?
  {
    Quantity(cs) == r.quantity && InSequence(cs) && forall i :: 0 <= i < |cs| ==> ChildSound(cs[i], r, p, rule)
  }

  lemma SpanWithin(r: Request, p: Policy)
    requires InputsValid(r) && r.regular.Some? && Start(r, p) < End(r, p)
    ensures 0 <= Span(r, p) <= End(r, p) - Start(r, p)
  {
    var length := (End(r, p) - Start(r, p)) as real;
    ProductNonNegativeReal(length, Fraction(r.urgency));
    ProductNonNegativeReal(length, 1.0 - Fraction(r.urgency));
    assert length * (1.0 - Fraction(r.urgency)) == length - length * Fraction(r.urgency);
  }

  function Volumes(r: Request): seq<real> {
    seq(|r.volumes|, i requires 0 <= i < |r.volumes| => ScaledVolume(r, i))
  }

  function FrameOf(r: Request, p: Policy, rule: Rule): Frame
    requires r.regular.Some? && r.reference.Some? && Ruled(rule)
  {
    Frame(Start(r, p), Span(r, p), |r.volumes|, Price(r, p, rule), Volumes(r))
  }

  lemma ChildIsSound(r: Request, p: Policy, rule: Rule, i: nat, taken: int)
    requires Ruled(rule) && PolicyAdmitted(p) && ParentAdmitted(r) && Halt(r, p, rule).None?
    requires i < |r.volumes| && 0 < taken <= Capacities(r, p, rule)[i] && Price(r, p, rule) > 0.0
    requires FrameFits(FrameOf(r, p, rule)) && ChildFault(ChildAt(FrameOf(r, p, rule), rule, i, taken), rule).None?
    ensures ChildSound(ChildAt(FrameOf(r, p, rule), rule, i, taken), r, p, rule)
  {
    WithinCapacity(taken, ScaledVolume(r, i), p.participation, rule.lot);
    ProductStrict(0.0, taken as real, rule.lot);
    PriceNoWorse(r, p, rule);
    SpanWithin(r, p);
    EdgesTile(Start(r, p), Span(r, p), i, i + 1, |r.volumes|);
  }

  /** Children built from an allocation that conserves the parent conserve it too. */
  lemma {:induction false} ChildrenConserve(r: Request, p: Policy, rule: Rule, allocation: seq<int>)
    requires Ruled(rule) && PolicyAdmitted(p) && ParentAdmitted(r) && Halt(r, p, rule).None?
    requires Allocates(allocation, Capacities(r, p, rule), Lots(r, rule)) && Price(r, p, rule) > 0.0
    requires FrameFits(FrameOf(r, p, rule))
    requires forall i :: 0 <= i < |allocation| && allocation[i] != 0 ==> ChildFault(ChildAt(FrameOf(r, p, rule), rule, i, allocation[i]), rule).None?
    ensures Conserving(Children(FrameOf(r, p, rule), rule, allocation, |allocation|), r, p, rule)
    ensures Children(FrameOf(r, p, rule), rule, allocation, |allocation|) != []
  {
    var f, n := FrameOf(r, p, rule), |allocation|;
    var cs := Children(f, rule, allocation, n);
    assert allocation[..n] == allocation;
    WholeQuantity(f, rule, allocation, Lots(r, rule));
    LotsOfParent(r, rule);
    ChildrenInSequence(f, rule, allocation, n);
    forall i | 0 <= i < |cs| ensures ChildSound(cs[i], r, p, rule) {
      assert FromWindow(cs[i], f, rule, allocation, n);
      WindowChildIsSound(r, p, rule, allocation, cs[i]);
    }
  }

  lemma WholeQuantity(f: Frame, rule: Rule, allocation: seq<int>, lots: int)
    requires FrameFits(f) && |allocation| <= f.count && Total(allocation) == lots
    ensures Quantity(Children(f, rule, allocation, |allocation|)) == Units(lots, rule.lot)
    ensures lots != 0 ==> Children(f, rule, allocation, |allocation|) != []
  {
    assert allocation[..|allocation|] == allocation;
    ChildrenQuantity(f, rule, allocation);
    if lots != 0 { ChildrenExist(f, rule, allocation, |allocation|); }
  }

  lemma WindowChildIsSound(r: Request, p: Policy, rule: Rule, allocation: seq<int>, c: Child)
    requires Ruled(rule) && PolicyAdmitted(p) && ParentAdmitted(r) && Halt(r, p, rule).None?
    requires Allocates(allocation, Capacities(r, p, rule), Lots(r, rule)) && Price(r, p, rule) > 0.0
    requires FrameFits(FrameOf(r, p, rule)) && FromWindow(c, FrameOf(r, p, rule), rule, allocation, |allocation|)
    requires ChildFault(c, rule).None?
    ensures ChildSound(c, r, p, rule)
  {
    var k := c.sequence - 1;
    ChildIsSound(r, p, rule, k, allocation[k]);
  }

  predicate Overfull(allocation: seq<int>, capacity: seq<int>)
    requires |allocation| == |capacity|
  {
    exists i :: 0 <= i < |allocation| && allocation[i] > capacity[i]
  }

  /** Whether the mode's allocation does not fit: for participation, the total capacity; otherwise, some equal share. */
  predicate Insufficient(r: Request, p: Policy, rule: Rule)
    requires Ruled(rule) && |r.volumes| > 0
  {
    var capacity := Capacities(r, p, rule);
    if p.mode.Pov? then Total(capacity) < Lots(r, rule)
    else Overfull(Shares(Lots(r, rule), |r.volumes|, |r.volumes|), capacity)
  }

  /** How the lots are divided: under participation each window takes what it can until none are left; otherwise evenly,
      an odd lot going to an earlier window. */
  ghost predicate Divided(allocation: seq<int>, r: Request, p: Policy, rule: Rule)
    requires Ruled(rule)
  {
    && Allocates(allocation, Capacities(r, p, rule), Lots(r, rule))
    && (p.mode.Pov? ==> forall i :: 0 <= i < |allocation| ==>
          allocation[i] == Capacities(r, p, rule)[i] || Through(allocation, i) == Lots(r, rule))
    && (!p.mode.Pov? ==> forall i, j :: 0 <= i < j < |allocation| ==>
          allocation[j] <= allocation[i] <= allocation[j] + 1)
  }

  /** The allocation step of either mode. */
  method Allocate(r: Request, p: Policy, rule: Rule) returns (allocation: Option<seq<int>>)
    requires Ruled(rule) && PolicyAdmitted(p) && ParentAdmitted(r) && Halt(r, p, rule).None?
    ensures allocation.None? <==> Insufficient(r, p, rule)
    ensures allocation.Some? ==> Divided(allocation.value, r, p, rule)
  {
    var capacity, lots := Capacities(r, p, rule), Lots(r, rule);
    CapacitiesNonNegative(r, p, rule);
    LotsOfParent(r, rule);
    var chosen: seq<int>;
    if p.mode.Pov? {
      var left;
      chosen, left := Greedy(capacity, lots);
      if left > 0 { return None; }
    } else {
      chosen := Shares(lots, |r.volumes|, |r.volumes|);
      SharesConserve(lots, |r.volumes|);
    }
    if Overfull(chosen, capacity) { return None; }
    allocation := Some(chosen);
  }

  /** A child is its window's lots at the schedule's price, between the window's edges in the span. */
  ghost predicate IsWindowChild(c: Child, r: Request, p: Policy, rule: Rule, allocation: seq<int>)
    requires r.regular.Some? && r.reference.Some? && |allocation| == |r.volumes|
  {
    var k := c.sequence - 1;
    && 0 <= k < |r.volumes| && allocation[k] != 0 && c.quantity == Units(allocation[k], rule.lot)
    && IsPrice(c.price, r, p, rule.tick)
    && Nearest(c.notBefore - Start(r, p), Span(r, p) * k, |r.volumes|)
    && Nearest(c.expiresAt - Start(r, p), Span(r, p) * c.sequence, |r.volumes|)
    && 2.0 * c.volumeCap == r.volumes[k] * (2.0 - r.urgency)
  }

  /** The children are the windows of such a division. */
  ghost predicate Divides(cs: seq<Child>, r: Request, p: Policy, rule: Rule, allocation: seq<int>)
    requires Ruled(rule) && r.regular.Some? && r.reference.Some? && |allocation| == |r.volumes|
  {
    Divided(allocation, r, p, rule) && forall i :: 0 <= i < |cs| ==> IsWindowChild(cs[i], r, p, rule, allocation)
  }

  lemma WindowEdge(start: int, span: int, k: nat, count: nat)
    requires count > 0
    ensures Nearest(Edge(start, span, k, count) - start, span * k, count)
  {
    HalfEvenMeaning(span * k, count);
  }

  lemma WindowVolume(r: Request, k: nat)
    requires k < |r.volumes|
    ensures 2.0 * ScaledVolume(r, k) == r.volumes[k] * (2.0 - r.urgency)
  {
    HalfOf(r.volumes[k], r.urgency);
  }

  lemma WindowChild(r: Request, p: Policy, rule: Rule, allocation: seq<int>, k: nat)
    requires Ruled(rule) && r.regular.Some? && r.reference.Some? && |allocation| == |r.volumes|
    requires FrameFits(FrameOf(r, p, rule)) && k < |allocation| && allocation[k] != 0
    ensures IsWindowChild(ChildAt(FrameOf(r, p, rule), rule, k, allocation[k]), r, p, rule, allocation)
  {
    PriceMeaning(r, p, rule);
    WindowEdge(Start(r, p), Span(r, p), k, |r.volumes|);
    WindowEdge(Start(r, p), Span(r, p), k + 1, |r.volumes|);
    WindowVolume(r, k);
  }

  lemma WindowChildren(r: Request, p: Policy, rule: Rule, allocation: seq<int>)
    requires Ruled(rule) && r.regular.Some? && r.reference.Some? && |allocation| == |r.volumes|
    requires FrameFits(FrameOf(r, p, rule)) && Divided(allocation, r, p, rule)
    ensures Divides(Children(FrameOf(r, p, rule), rule, allocation, |allocation|), r, p, rule, allocation)
  {
    var cs := Children(FrameOf(r, p, rule), rule, allocation, |allocation|);
    ChildrenInSequence(FrameOf(r, p, rule), rule, allocation, |allocation|);
    forall i | 0 <= i < |cs| ensures IsWindowChild(cs[i], r, p, rule, allocation) {
      assert FromWindow(cs[i], FrameOf(r, p, rule), rule, allocation, |allocation|);
      WindowChild(r, p, rule, allocation, cs[i].sequence - 1);
    }
  }

  /** What a schedule may only be planned without. */
  ghost predicate Cleared(r: Request, p: Policy) {
    && r.agrees && r.reference.Some? && r.limitSupported && r.regular.Some? && r.sessionHolds
    && !p.mode.EventDeferred?
    && (forall i :: 0 <= i < |r.events| ==>
          r.events[i] < Start(r, p) - p.eventBuffer || r.events[i] > Start(r, p) + Span(r, p) + p.eventBuffer)
    && r.quantity <= p.maxOrderAdv * r.adv && r.volatility <= p.maxVolatility && r.impact <= p.maxImpact
    && |r.volumes| == if p.mode in {Twap, Pov, OpenCloseAware} then p.childCount else 1
  }

  lemma NoHaltCleared(r: Request, p: Policy, rule: Rule)
    requires Ruled(rule) && Halt(r, p, rule).None?
    ensures Cleared(r, p) && IsSpan(Span(r, p), End(r, p) - Start(r, p), r.urgency)
  {
    QuotientOrder(r.quantity, r.adv, p.maxOrderAdv);
    SpanMeaning(r, p);
    forall i | 0 <= i < |r.events|
      ensures r.events[i] < Start(r, p) - p.eventBuffer || r.events[i] > Start(r, p) + Span(r, p) + p.eventBuffer
    {
      assert !EventNear(r, p, i);
    }
  }

  /** Every planned schedule conserves its parent, divides it as its mode says, and every refusal has the stated cause. */
  method PlanSchedule(r: Request, p: Policy, rule: Rule) returns (s: Schedule)
    requires Ruled(rule) && PolicyAdmitted(p) && ParentAdmitted(r)
    ensures s.children != [] <==> s.reason.ScheduleReady?
    ensures Halt(r, p, rule).Some? ==> s.reason == Halt(r, p, rule).value
    ensures Halt(r, p, rule).None? ==> (s.reason.CapacityInsufficient? <==> Insufficient(r, p, rule))
    ensures Halt(r, p, rule).None? && !Insufficient(r, p, rule) ==> (s.reason.PriceInvalid? <==> Price(r, p, rule) <= 0.0)
    ensures s.reason.ScheduleReady? ==> Halt(r, p, rule).None? && Cleared(r, p) && Conserving(s.children, r, p, rule)
    ensures s.reason.ScheduleReady? ==> IsSpan(Span(r, p), End(r, p) - Start(r, p), r.urgency)
    ensures s.reason.ScheduleReady? ==> exists allocation :: |allocation| == |r.volumes| && Divides(s.children, r, p, rule, allocation)
  {
    var halt := Halt(r, p, rule);
    if halt.Some? { return Schedule(halt.value, []); }
    var allocation := Allocate(r, p, rule);
    if allocation.None? { return Schedule(CapacityInsufficient, []); }
    if Price(r, p, rule) <= 0.0 { return Schedule(PriceInvalid, []); }
    SpanWithin(r, p);
    var f := FrameOf(r, p, rule);
    s := BuildChildren(f, rule, allocation.value);
    if s.reason.ScheduleReady? {
      ChildrenConserve(r, p, rule, allocation.value);
      NoHaltCleared(r, p, rule);
      WindowChildren(r, p, rule, allocation.value);
    }
  }
}
