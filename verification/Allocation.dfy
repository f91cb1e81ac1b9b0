/** How a schedule divides lots among windows and the session among lots: greedy and equal allocation in whole lots, and
    window edges rounded half to even as `timedelta` division does. */
module Allocation {

  function Total(xs: seq<int>): int
    decreases |xs|
  {
    if xs == [] then 0 else Total(xs[..|xs| - 1]) + xs[|xs| - 1]
  }

  /** What the windows up to and including `i` hold. */
  function Through(xs: seq<int>, i: nat): int
    requires i < |xs|
  {
    Total(xs[..i + 1])
  }

  function Min(a: int, b: int): int { if a <= b then a else b }

  lemma TotalOne(xs: seq<int>, x: int)
    ensures Total(xs + [x]) == Total(xs) + x
  {
    assert (xs + [x])[..|xs|] == xs;
  }

  /** An allocation conserves the parent and keeps every window within its capacity. */
  ghost predicate Allocates(allocation: seq<int>, capacity: seq<int>, lots: int) {
    && |allocation| == |capacity| && Total(allocation) == lots
    && forall i :: 0 <= i < |allocation| ==> 0 <= allocation[i] <= capacity[i]
  }

  /** Windows are filled in order: each to its capacity, until the lots are spent. */
  ghost predicate Filled(allocation: seq<int>, capacity: seq<int>, lots: int, left: int) {
    && Allocates(allocation, capacity, lots - left) && left >= 0
    && (left > 0 ==> Total(allocation) == Total(capacity)) && Total(allocation) <= Total(capacity)
    && forall i :: 0 <= i < |allocation| ==> allocation[i] == capacity[i] || Through(allocation, i) == lots
  }

  lemma ThroughEarlier(xs: seq<int>, x: int, i: nat)
    requires i < |xs|
    ensures Through(xs + [x], i) == Through(xs, i)
  {
    assert (xs + [x])[..i + 1] == xs[..i + 1];
  }

  lemma FilledOne(allocation: seq<int>, capacity: seq<int>, lots: int, left: int, x: int)
    requires Filled(allocation, capacity, lots, left) && x >= 0
    ensures Filled(allocation + [Min(x, left)], capacity + [x], lots, left - Min(x, left))
  {
    var taken := Min(x, left);
    var longer, wider := allocation + [taken], capacity + [x];
    TotalOne(allocation, taken);
    TotalOne(capacity, x);
    forall i | 0 <= i < |longer| ensures longer[i] == wider[i] || Through(longer, i) == lots {
      if i < |allocation| {
        ThroughEarlier(allocation, taken, i);
        assert allocation[i] == capacity[i] || Through(allocation, i) == lots;
      } else {
        assert longer[..i + 1] == longer;
      }
    }
  }

  /** The greedy loop: it fails exactly when the whole capacity is below the lots, and it leaves no window short before
      the lots are spent. */
  method Greedy(capacity: seq<int>, lots: int) returns (allocation: seq<int>, left: int)
    requires lots >= 0 && forall i :: 0 <= i < |capacity| ==> capacity[i] >= 0
    ensures left >= 0 && (left > 0 <==> Total(capacity) < lots)
    ensures Allocates(allocation, capacity, lots - left)
    ensures forall i :: 0 <= i < |allocation| ==> allocation[i] == capacity[i] || Through(allocation, i) == lots
  {
    allocation, left := [], lots;
    for i := 0 to |capacity|
      invariant Filled(allocation, capacity[..i], lots, left)
    {
      var taken := Min(capacity[i], left);
      FilledOne(allocation, capacity[..i], lots, left, capacity[i]);
      assert capacity[..i + 1] == capacity[..i] + [capacity[i]];
      allocation := allocation + [taken];
      left := left - taken;
    }
    assert capacity[..|capacity|] == capacity;
  }

  function Share(lots: int, count: nat, i: nat): int
    requires count > 0
  {
    lots / count + if i < lots % count then 1 else 0
  }

  function Shares(lots: int, count: nat, n: nat): seq<int>
    requires count > 0
  {
    seq(n, i requires 0 <= i => Share(lots, count, i))
  }

  lemma {:induction false} SharesTotal(lots: int, count: nat, n: nat)
    requires count > 0 && lots >= 0
    ensures Total(Shares(lots, count, n)) == n * (lots / count) + Min(n, lots % count)
    decreases n
  {
    if n > 0 {
      SharesTotal(lots, count, n - 1);
      assert Shares(lots, count, n) == Shares(lots, count, n - 1) + [Share(lots, count, n - 1)];
      TotalOne(Shares(lots, count, n - 1), Share(lots, count, n - 1));
      assert n * (lots / count) == (n - 1) * (lots / count) + lots / count;
    }
  }

  /** The equal split conserves the parent, no two shares differ by more than one lot, and none is below a later one. */
  lemma SharesConserve(lots: int, count: nat)
    requires count > 0 && lots >= 0
    ensures Total(Shares(lots, count, count)) == lots
    ensures forall i :: 0 <= i < count ==> Shares(lots, count, count)[i] in {lots / count, lots / count + 1}
    ensures forall i :: 0 <= i < count ==> Shares(lots, count, count)[i] >= 0
    ensures forall i, j :: 0 <= i < j < count ==> Shares(lots, count, count)[j] <= Shares(lots, count, count)[i]
  {
    SharesTotal(lots, count, count);
  }

  // ------------------------------------------------------------------- window edges

  /** Nearest integer to a / b, ties to even. */
  function HalfEven(a: int, b: int): int
    requires b > 0
  {
    var q, r := a / b, a % b;
    if 2 * r < b || (2 * r == b && q % 2 == 0) then q else q + 1
  }

  /** `e` is the integer nearest to a / b, the even one of two that are equally near. */
  ghost predicate Nearest(e: int, a: int, b: int) {
    var off := 2 * (e * b - a);
    -b <= off <= b && (off == b || off == -b ==> e % 2 == 0)
  }

  lemma HalfEvenMeaning(a: int, b: int)
    requires b > 0
    ensures Nearest(HalfEven(a, b), a, b)
  {
    QuotientParts(a, b);
    var q := a / b;
    assert (q + 1) * b == q * b + b;
  }

  lemma QuotientParts(a: int, b: int)
    requires b > 0
    ensures a == (a / b) * b + a % b && 0 <= a % b < b
  {
  }

  lemma QuotientSteps(q: int, p: int, b: int)
    requires b > 0 && q < p
    ensures q * b + b <= p * b
  {
    var more := p - q - 1;
    assert p == q + 1 + more;
    assert p * b == q * b + b + more * b;
    ProductNonNegative(more, b);
  }

  lemma ProductNonNegative(x: int, b: int)
    requires x >= 0 && b >= 0
    ensures x * b >= 0
  {
  }

  lemma HalfEvenMonotone(a: int, c: int, b: int)
    requires b > 0 && a <= c
    ensures HalfEven(a, b) <= HalfEven(c, b)
  {
    QuotientParts(a, b);
    QuotientParts(c, b);
    var q, p := a / b, c / b;
    if p < q { QuotientSteps(p, q, b); assert false; }
  }

  lemma HalfEvenExact(d: int, b: int)
    requires b > 0
    ensures HalfEven(d * b, b) == d
  {
    QuotientParts(d * b, b);
    var q := (d * b) / b;
    if q < d { QuotientSteps(q, d, b); }
    if d < q { QuotientSteps(d, q, b); }
  }

  /** The edge before window `i` of `count` in a span. */
  function Edge(start: int, span: int, i: int, count: int): int
    requires count > 0
  {
    start + HalfEven(span * i, count)
  }

  /** The windows tile the span in order, each edge the instant nearest to its exact fraction of the span. */
  lemma EdgesTile(start: int, span: int, i: int, j: int, count: int)
    requires count > 0 && span >= 0 && 0 <= i <= j <= count
    ensures start <= Edge(start, span, i, count) <= Edge(start, span, j, count) <= start + span
    ensures Edge(start, span, 0, count) == start && Edge(start, span, count, count) == start + span
    ensures Nearest(Edge(start, span, i, count) - start, span * i, count)
  {
    HalfEvenMeaning(span * i, count);
    SpanOrder(span, i, j);
    SpanOrder(span, 0, i);
    SpanOrder(span, j, count);
    HalfEvenMonotone(span * i, span * j, count);
    HalfEvenMonotone(0, span * i, count);
    HalfEvenMonotone(span * j, span * count, count);
    HalfEvenExact(span, count);
    HalfEvenExact(0, count);
  }

  lemma SpanOrder(span: int, i: int, j: int)
    requires span >= 0 && i <= j
    ensures span * i <= span * j
  {
    assert span * j == span * i + span * (j - i);
    ProductNonNegative(span, j - i);
  }
}
