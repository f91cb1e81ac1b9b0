/** Broker rate limiting: the token bucket.  Clock readings are parameters. */
module RateLimit {
  import opened Common

  datatype Bucket = Bucket(capacity: real, rate: real, tokens: real, updatedAt: real)

  datatype Outcome = Granted | Wait(seconds: real) | Invalid

  /** What `__post_init__` admits; the initial token count is not checked there. */
  predicate Configured(b: Bucket) { b.capacity > 0.0 && b.rate > 0.0 }

  function Refilled(b: Bucket, now: real): real {
    MinReal(b.capacity, b.tokens + (now - b.updatedAt) * b.rate)
  }

  function TryAcquire(b: Bucket, n: real, now: real): (Bucket, Outcome)
    requires Configured(b)
  {
    if n <= 0.0 then (b, Invalid)
    else
      var tokens := Refilled(b, now);
      if tokens >= n then (b.(tokens := tokens - n, updatedAt := now), Granted)
      else (b.(tokens := tokens, updatedAt := now), Wait((n - tokens) / b.rate))
  }

  /** What one attempt does.  The time since the last one refills at the rate, up to the capacity; a positive ask is
      granted exactly when that holds it, and then taken from it; a refused one changes nothing else and is told
      after how many seconds of refilling what is missing would be there. */
  ghost predicate Attempted(b: Bucket, n: real, now: real, c: Bucket, o: Outcome) {
    var held := b.tokens + (now - b.updatedAt) * b.rate;
    && c.capacity == b.capacity && c.rate == b.rate
    && (o.Invalid? <==> n <= 0.0)
    && (o.Invalid? ==> c == b)
    && (!o.Invalid? ==> c.updatedAt == now)
    && (o.Granted? <==> 0.0 < n <= b.capacity && n <= held)
    && (o.Granted? ==> c.tokens + n == if held <= b.capacity then held else b.capacity)
    && (o.Wait? ==> c.tokens == (if held <= b.capacity then held else b.capacity) && o.seconds * b.rate == n - c.tokens)
  }

  lemma AttemptMeans(b: Bucket, n: real, now: real)
    requires Configured(b)
    ensures Attempted(b, n, now, TryAcquire(b, n, now).0, TryAcquire(b, n, now).1)
  {
    var held := b.tokens + (now - b.updatedAt) * b.rate;
    MissingRefills(n - MinReal(b.capacity, held), b.rate);
  }

  lemma MissingRefills(missing: real, rate: real)
    requires rate > 0.0
    ensures missing / rate * rate == missing
  {
  }

  class TokenBucket {
    const capacity: real
    const rate: real
    var tokens: real
    var updatedAt: real

    predicate Valid() { capacity > 0.0 && rate > 0.0 }

    function View(): Bucket
      reads this
    {
      Bucket(capacity, rate, tokens, updatedAt)
    }

    constructor (capacity: real, rate: real, tokens: Option<real>, now: real)
      requires capacity > 0.0 && rate > 0.0
      ensures Valid() && View() == Bucket(capacity, rate, if tokens.Some? then tokens.value else capacity, now)
    {
      this.capacity, this.rate := capacity, rate;
      this.tokens := if tokens.Some? then tokens.value else capacity;
      this.updatedAt := now;
    }

    method Acquire(n: real, now: real) returns (outcome: Outcome)
      requires Valid()
      modifies this
      ensures View() == TryAcquire(old(View()), n, now).0
      ensures outcome == TryAcquire(old(View()), n, now).1
      ensures Attempted(old(View()), n, now, View(), outcome)
    {
      AttemptMeans(View(), n, now);
      if n <= 0.0 { return Invalid; }
      var elapsed := now - updatedAt;
      tokens := MinReal(capacity, tokens + elapsed * rate);
      updatedAt := now;
      assert tokens == Refilled(old(View()), now);
      if tokens >= n {
        tokens := tokens - n;
        return Granted;
      }
      outcome := Wait((n - tokens) / rate);
    }
  }

  // ------------------------------------------------------------------- whole runs

  datatype Ask = Ask(n: real, now: real)

  function Run(b: Bucket, asks: seq<Ask>): (c: Bucket)
    requires Configured(b)
    ensures Configured(c) && c.capacity == b.capacity && c.rate == b.rate
    decreases |asks|
  {
    if asks == [] then b
    else
      var last := asks[|asks| - 1];
      TryAcquire(Run(b, asks[..|asks| - 1]), last.n, last.now).0
  }

  /** A monotone clock. */
  predicate Monotone(b: Bucket, asks: seq<Ask>) {
    && (forall i :: 0 <= i < |asks| ==> b.updatedAt <= asks[i].now)
    && (forall i, j :: 0 <= i < j < |asks| ==> asks[i].now <= asks[j].now)
  }

  /** The tokens granted to asks made at instants from `from` to `until`. */
  function GrantedBetween(b: Bucket, asks: seq<Ask>, from: real, until: real): real
    requires Configured(b)
    decreases |asks|
  {
    if asks == [] then 0.0
    else
      var init, last := asks[..|asks| - 1], asks[|asks| - 1];
      GrantedBetween(b, init, from, until) +
      Counted(TryAcquire(Run(b, init), last.n, last.now).1, last.n, last.now, from, until)
  }

  lemma RefillNonNegative(elapsed: real, rate: real)
    requires elapsed >= 0.0 && rate > 0.0
    ensures elapsed * rate >= 0.0
  {
  }

  lemma RefillSplits(a: real, b: real, c: real, rate: real)
    ensures (c - a) * rate == (b - a) * rate + (c - b) * rate
  {
  }

  /** The bucket's own clock never passes the last ask. */
  lemma {:induction false} ClockFollows(b: Bucket, asks: seq<Ask>, now: real)
    requires Configured(b) && b.updatedAt <= now && forall i :: 0 <= i < |asks| ==> asks[i].now <= now
    ensures Run(b, asks).updatedAt <= now
    decreases |asks|
  {
    if asks != [] { ClockFollows(b, asks[..|asks| - 1], now); }
  }

  lemma BeforeLast(b: Bucket, asks: seq<Ask>)
    requires Configured(b) && Monotone(b, asks) && asks != []
    ensures Monotone(b, asks[..|asks| - 1])
    ensures Run(b, asks[..|asks| - 1]).updatedAt <= asks[|asks| - 1].now
  {
    ClockFollows(b, asks[..|asks| - 1], asks[|asks| - 1].now);
  }

  lemma AskInRange(b: Bucket, n: real, now: real)
    requires Configured(b) && 0.0 <= b.tokens <= b.capacity && b.updatedAt <= now
    ensures 0.0 <= TryAcquire(b, n, now).0.tokens <= b.capacity
  {
    RefillNonNegative(now - b.updatedAt, b.rate);
  }

  /** Tokens stay between zero and the capacity. */
  lemma {:induction false} TokensInRange(b: Bucket, asks: seq<Ask>)
    requires Configured(b) && 0.0 <= b.tokens <= b.capacity && Monotone(b, asks)
    ensures 0.0 <= Run(b, asks).tokens <= b.capacity
    decreases |asks|
  {
    if asks != [] {
      var init, last := asks[..|asks| - 1], asks[|asks| - 1];
      BeforeLast(b, asks);
      TokensInRange(b, init);
      AskInRange(Run(b, init), last.n, last.now);
    }
  }

  /** What has been granted since `from` plus what the bucket holds is at most a full bucket plus the refill
      since `from`; until the first grant nothing is claimed about the holding. */
  ghost predicate Budgeted(b: Bucket, granted: real, from: real) {
    || granted == 0.0
    || (&& granted > 0.0 && 0.0 <= b.tokens && from <= b.updatedAt
        && granted + b.tokens <= b.capacity + (b.updatedAt - from) * b.rate)
  }

  /** Refilling keeps the budget, in numbers. */
  lemma RefillKeepsBudget(b: Bucket, now: real, granted: real, from: real)
    requires Configured(b) && b.updatedAt <= now && Budgeted(b, granted, from) && granted > 0.0
    ensures 0.0 <= Refilled(b, now) && from <= now
    ensures granted + Refilled(b, now) <= b.capacity + (now - from) * b.rate
  {
    var before, more, all := (b.updatedAt - from) * b.rate, (now - b.updatedAt) * b.rate, (now - from) * b.rate;
    RefillNonNegative(now - b.updatedAt, b.rate);
    assert all == before + more by { RefillSplits(from, b.updatedAt, now, b.rate); }
    CappedSum(granted, b.tokens, b.capacity, before, more);
  }

  lemma CappedSum(granted: real, tokens: real, capacity: real, before: real, more: real)
    requires 0.0 < granted && 0.0 <= tokens && 0.0 <= more && 0.0 < capacity && granted + tokens <= capacity + before
    ensures 0.0 <= MinReal(capacity, tokens + more)
    ensures granted + MinReal(capacity, tokens + more) <= capacity + (before + more)
  {
  }

  /** One ask keeps the budget: refused, with what was granted; granted inside the interval, with the new grant. */
  lemma AskKeepsBudget(b: Bucket, n: real, now: real, granted: real, from: real)
    requires Configured(b) && b.updatedAt <= now && Budgeted(b, granted, from)
    ensures var (c, o) := TryAcquire(b, n, now);
            !o.Granted? || granted == 0.0 ==> Budgeted(c, granted, from)
    ensures var (c, o) := TryAcquire(b, n, now);
            o.Granted? && from <= now ==> Budgeted(c, granted + n, from)
  {
    if granted > 0.0 { RefillKeepsBudget(b, now, granted, from); }
    if from <= now { RefillNonNegative(now - from, b.rate); }
  }

  lemma BudgetBounds(b: Bucket, granted: real, from: real, until: real)
    requires Configured(b) && Budgeted(b, granted, from) && b.updatedAt <= until && from <= until
    ensures granted <= b.capacity + (until - from) * b.rate
  {
    var before, more, all := (b.updatedAt - from) * b.rate, (until - b.updatedAt) * b.rate, (until - from) * b.rate;
    assert all >= 0.0 by { RefillNonNegative(until - from, b.rate); }
    assert more >= 0.0 by { RefillNonNegative(until - b.updatedAt, b.rate); }
    assert all == before + more by { RefillSplits(from, b.updatedAt, until, b.rate); }
    WithinAllowance(granted, b.tokens, b.capacity, before, more, all);
  }

  lemma WithinAllowance(granted: real, tokens: real, capacity: real, before: real, more: real, all: real)
    requires capacity > 0.0 && all >= 0.0 && more >= 0.0 && all == before + more
    requires granted == 0.0 || (tokens >= 0.0 && granted + tokens <= capacity + before)
    ensures granted <= capacity + all
  {
  }

  /** The bound itself, and while the clock is inside the interval the budget behind it. */
  ghost predicate Bounded(b: Bucket, granted: real, from: real, until: real) {
    && granted <= b.capacity + (until - from) * b.rate
    && (b.updatedAt <= until ==> Budgeted(b, granted, from))
  }

  function Counted(o: Outcome, n: real, now: real, from: real, until: real): real {
    if o.Granted? && from <= now <= until then n else 0.0
  }

  lemma AskKeepsBound(b: Bucket, n: real, now: real, granted: real, from: real, until: real)
    requires Configured(b) && b.updatedAt <= now && from <= until && Bounded(b, granted, from, until)
    ensures var (c, o) := TryAcquire(b, n, now);
            Bounded(c, granted + Counted(o, n, now, from, until), from, until)
  {
    var (c, o) := TryAcquire(b, n, now);
    if now <= until {
      AskKeepsBudget(b, n, now, granted, from);
      BudgetBounds(c, granted + Counted(o, n, now, from, until), from, until);
    }
  }

  lemma {:induction false} RunKeepsBound(b: Bucket, asks: seq<Ask>, from: real, until: real)
    requires Configured(b) && Monotone(b, asks) && from <= until
    ensures Bounded(Run(b, asks), GrantedBetween(b, asks, from, until), from, until)
    decreases |asks|
  {
    if asks == [] {
      RefillNonNegative(until - from, b.rate);
    } else {
      var init, last := asks[..|asks| - 1], asks[|asks| - 1];
      BeforeLast(b, asks);
      RunKeepsBound(b, init, from, until);
      AskKeepsBound(Run(b, init), last.n, last.now, GrantedBetween(b, init, from, until), from, until);
    }
  }

  /** Over every run on a monotone clock, whatever the bucket held at first, what is granted between any two
      instants is at most one full bucket plus the refill of the time between. */
  lemma {:induction false} RateBound(b: Bucket, asks: seq<Ask>, from: real, until: real)
    requires Configured(b) && Monotone(b, asks) && from <= until
    ensures GrantedBetween(b, asks, from, until) <= b.capacity + (until - from) * b.rate
  {
    var c, granted := Run(b, asks), GrantedBetween(b, asks, from, until);
    assert Bounded(c, granted, from, until) by { RunKeepsBound(b, asks, from, until); }
    SameAllowance(b, c, granted, from, until);
  }

  lemma SameAllowance(b: Bucket, c: Bucket, granted: real, from: real, until: real)
    requires Bounded(c, granted, from, until) && c.capacity == b.capacity && c.rate == b.rate
    ensures granted <= b.capacity + (until - from) * b.rate
  {
  }

  /** The instant from which the bucket, left alone, holds `n` tokens. */
  function ReadyAt(b: Bucket, n: real): real
    requires Configured(b)
  {
    b.updatedAt + (n - b.tokens) / b.rate
  }

  lemma QuotientOrder(a: real, b: real, t: real)
    requires b > 0.0
    ensures a / b <= t <==> a <= t * b
  {
    var q := a / b;
    assert a == q * b;
    if q <= t { RefillNonNegative(t - q, b); } else { RefillPositive(q - t, b); }
  }

  lemma RefillPositive(elapsed: real, rate: real)
    requires elapsed > 0.0 && rate > 0.0
    ensures elapsed * rate > 0.0
  {
  }

  /** One ask is granted exactly when it is positive, at most a full bucket, and not before its ready instant: the one
      at which the refill since the last attempt makes up what is missing. */
  lemma GrantedIff(b: Bucket, n: real, now: real)
    requires Configured(b)
    ensures (ReadyAt(b, n) - b.updatedAt) * b.rate == n - b.tokens
    ensures TryAcquire(b, n, now).1.Granted? <==> 0.0 < n <= b.capacity && ReadyAt(b, n) <= now
  {
    QuotientOrder(n - b.tokens, b.rate, now - b.updatedAt);
    MissingRefills(n - b.tokens, b.rate);
  }

  /** A refused caller left alone is served at the returned wait and not before it, exactly when it asks for
      at most a full bucket; a larger ask is never served. */
  lemma WaitIsExact(b: Bucket, n: real, now: real, later: real)
    requires Configured(b) && TryAcquire(b, n, now).1.Wait?
    ensures var (c, o) := TryAcquire(b, n, now);
            TryAcquire(c, n, later).1.Granted? <==> n <= b.capacity && now + o.seconds <= later
  {
    GrantedIff(TryAcquire(b, n, now).0, n, later);
  }
}
