/**
 What fair polling achieves in the priority bucket: unbounded runs in which every contender that keeps waiting is polled
 again and again on a clock that goes on without bound.
 */
module FairQueue {
  import opened Common
  import opened RateLimit
  import opened PriorityQueue

  /** An unbounded run: the move made at each step. */
  type Schedule = nat -> Move

  function First(moves: Schedule, t: nat): seq<Move> { seq(t, i requires 0 <= i => moves(i)) }

  /** The contest after `t` steps. */
  function At(c: Contest, moves: Schedule, t: nat): (d: Contest)
    requires Configured(c.bucket)
    ensures Configured(d.bucket)
  {
    Play(c, First(moves, t))
  }

  lemma AtNext(c: Contest, moves: Schedule, t: nat)
    requires Configured(c.bucket)
    ensures At(c, moves, t + 1) == Step(At(c, moves, t), moves(t))
  {
    assert First(moves, t + 1) == First(moves, t) + [moves(t)];
    PlayLast(c, First(moves, t), moves(t));
  }

  /** The contender is queued at every step from `t` on. */
  ghost predicate Waits(c: Contest, moves: Schedule, u: Ticket, t: nat)
    requires Configured(c.bucket)
  {
    forall s: nat :: t <= s ==> u in At(c, moves, s).queue
  }

  ghost predicate PolledAt(moves: Schedule, u: Ticket, from: real, s: nat) {
    moves(s).Poll? && moves(s).ticket == u && from <= moves(s).now
  }

  ghost predicate PolledLater(moves: Schedule, u: Ticket, t: nat, from: real) {
    exists s: nat :: t <= s && PolledAt(moves, u, from, s)
  }

  /** Whoever keeps waiting is polled after every step and every instant. */
  ghost predicate Fair(c: Contest, moves: Schedule)
    requires Configured(c.bucket)
  {
    forall u, t: nat, from: real :: Waits(c, moves, u, t) ==> PolledLater(moves, u, t, from)
  }

  /** Nobody enters the queue ahead of `x`, nor in its place. */
  ghost predicate NoneAhead(moves: Schedule, x: Ticket) {
    forall s: nat :: moves(s).Push? ==> Before(x, moves(s).ticket)
  }

  /** The queued contenders up to `x`. */
  function UpTo(queue: set<Ticket>, x: Ticket): set<Ticket> {
    set u | u in queue && (u == x || Before(u, x))
  }

  // ------------------------------------------------------------------- one step

  /** Nobody joins the contenders up to `x`. */
  lemma StepShrinks(c: Contest, m: Move, x: Ticket)
    requires Configured(c.bucket) && (m.Push? ==> Before(x, m.ticket))
    ensures UpTo(Step(c, m).queue, x) <= UpTo(c.queue, x)
  {
  }

  /** The head stays the head while it is queued and nobody enters ahead of it. */
  lemma StepKeepsHead(c: Contest, m: Move, h: Ticket)
    requires Configured(c.bucket) && Heads(c.queue, h) && (m.Push? ==> Before(h, m.ticket)) && h in Step(c, m).queue
    ensures Heads(Step(c, m).queue, h)
  {
  }

  /** A refused poll of the head moves neither the capacity nor the instant at which the head is ready; nobody else's poll
      touches the bucket. */
  lemma StepKeepsReady(c: Contest, m: Move, h: Ticket)
    requires Configured(c.bucket) && Heads(c.queue, h) && Servable(c.bucket.capacity, h) && h in Step(c, m).queue
    ensures Step(c, m).bucket.capacity == c.bucket.capacity
    ensures ReadyAt(Step(c, m).bucket, h.tokens) == ReadyAt(c.bucket, h.tokens)
  {
    if m.Poll? && Heads(c.queue, m.ticket) {
      assert m.ticket == h;
      RefusalKeepsReady(c.bucket, h.tokens, m.now);
    }
  }

  lemma RefusalKeepsReady(b: Bucket, n: real, now: real)
    requires Configured(b) && 0.0 < n <= b.capacity && !TryAcquire(b, n, now).1.Granted?
    ensures ReadyAt(TryAcquire(b, n, now).0, n) == ReadyAt(b, n)
  {
    var gained := (now - b.updatedAt) * b.rate;
    assert Refilled(b, now) == b.tokens + gained;
    SameReady(b.updatedAt, now, n - b.tokens, gained, b.rate);
  }

  lemma SameReady(u: real, now: real, missing: real, gained: real, rate: real)
    requires rate > 0.0 && gained == (now - u) * rate
    ensures now + (missing - gained) / rate == u + missing / rate
  {
    assert gained / rate == now - u;
    assert (missing - gained) / rate == missing / rate - gained / rate;
  }

  // ------------------------------------------------------------------- while the head waits

  /** From `t` on the head stays head and its ready instant stays put, for as long as it is queued. */
  lemma {:induction false} HeadWaits(c: Contest, moves: Schedule, h: Ticket, t: nat, s: nat)
    requires Configured(c.bucket) && t <= s && Waits(c, moves, h, t) && NoneAhead(moves, h)
    requires Heads(At(c, moves, t).queue, h) && Servable(At(c, moves, t).bucket.capacity, h)
    ensures Heads(At(c, moves, s).queue, h)
    ensures At(c, moves, s).bucket.capacity == At(c, moves, t).bucket.capacity
    ensures ReadyAt(At(c, moves, s).bucket, h.tokens) == ReadyAt(At(c, moves, t).bucket, h.tokens)
    decreases s - t
  {
    if t < s {
      HeadWaits(c, moves, h, t, s - 1);
      AtNext(c, moves, s - 1);
      assert h in At(c, moves, s).queue;
      StepKeepsHead(At(c, moves, s - 1), moves(s - 1), h);
      StepKeepsReady(At(c, moves, s - 1), moves(s - 1), h);
    }
  }

  /** Under fair polling a servable head does not wait for ever. */
  lemma HeadCannotWait(c: Contest, moves: Schedule, h: Ticket, t: nat)
    requires Configured(c.bucket) && Fair(c, moves) && NoneAhead(moves, h)
    requires Heads(At(c, moves, t).queue, h) && Servable(At(c, moves, t).bucket.capacity, h)
    ensures !Waits(c, moves, h, t)
  {
    if Waits(c, moves, h, t) {
      var ready := ReadyAt(At(c, moves, t).bucket, h.tokens);
      assert PolledLater(moves, h, t, ready);
      var p: nat :| t <= p && PolledAt(moves, h, ready, p);
      HeadWaits(c, moves, h, t, p);
      AtNext(c, moves, p);
      HeadServedIff(At(c, moves, p), h, moves(p).now);
    }
  }

  lemma HeadLeaves(c: Contest, moves: Schedule, h: Ticket, t: nat) returns (s: nat)
    requires Configured(c.bucket) && Fair(c, moves) && NoneAhead(moves, h)
    requires Heads(At(c, moves, t).queue, h) && Servable(At(c, moves, t).bucket.capacity, h)
    ensures t <= s && h !in At(c, moves, s).queue
  {
    HeadCannotWait(c, moves, h, t);
    s :| t <= s && h !in At(c, moves, s).queue;
  }

  lemma {:induction false} UpToShrinks(c: Contest, moves: Schedule, x: Ticket, t: nat, s: nat)
    requires Configured(c.bucket) && t <= s && NoneAhead(moves, x)
    ensures UpTo(At(c, moves, s).queue, x) <= UpTo(At(c, moves, t).queue, x)
    decreases s - t
  {
    if t < s {
      UpToShrinks(c, moves, x, t, s - 1);
      AtNext(c, moves, s - 1);
      StepShrinks(At(c, moves, s - 1), moves(s - 1), x);
    }
  }

  lemma {:induction false} AtKeepsNumbered(c: Contest, moves: Schedule, t: nat)
    requires Configured(c.bucket) && Numbered(c)
    ensures Numbered(At(c, moves, t)) && At(c, moves, t).bucket.capacity == c.bucket.capacity
    decreases t
  {
    CapacityFixed(c, First(moves, t));
    if t > 0 {
      AtKeepsNumbered(c, moves, t - 1);
      AtNext(c, moves, t - 1);
      StepKeepsNumbered(At(c, moves, t - 1), moves(t - 1));
    } else {
      assert First(moves, 0) == [];
    }
  }

  lemma HeadOf(d: Contest, x: Ticket) returns (h: Ticket)
    requires Configured(d.bucket) && Numbered(d) && x in d.queue
    ensures Heads(d.queue, h) && (h == x || Before(h, x))
  {
    assert forall t :: t in d.queue ==> Open(d, t);
    h := SomeoneHeads(d.queue);
  }

  lemma SmallerSubset(a: set<Ticket>, b: set<Ticket>, h: Ticket)
    requires a <= b && h in b && h !in a
    ensures |a| < |b|
  {
    assert a <= b - {h};
    Fewer(a, b - {h});
  }

  lemma {:induction false} Fewer(a: set<Ticket>, b: set<Ticket>)
    requires a <= b
    ensures |a| <= |b|
    decreases |a|
  {
    if a != {} {
      var x :| x in a;
      Fewer(a - {x}, b - {x});
    }
  }

  // ------------------------------------------------------------------- the theorems

  /** Under fair polling, with nobody entering ahead, a contender behind servable ones only is served. */
  lemma {:induction false} ServedInTime(c: Contest, moves: Schedule, x: Ticket, t: nat) returns (s: nat)
    requires Configured(c.bucket) && Numbered(c) && Fair(c, moves) && NoneAhead(moves, x)
    requires ClearUpTo(At(c, moves, t), x)
    ensures t <= s && x !in At(c, moves, s).queue
    decreases |UpTo(At(c, moves, t).queue, x)|
  {
    var d := At(c, moves, t);
    AtKeepsNumbered(c, moves, t);
    if x !in d.queue { return t; }
    var h := HeadOf(d, x);
    AheadOfHead(moves, x, h);
    var left := HeadLeaves(c, moves, h, t);
    if h == x { return left; }
    UpToShrinks(c, moves, x, t, left);
    AtKeepsNumbered(c, moves, left);
    SmallerSubset(UpTo(At(c, moves, left).queue, x), UpTo(d.queue, x), h);
    StillClear(d, At(c, moves, left), x);
    s := ServedInTime(c, moves, x, left);
  }

  lemma AheadOfHead(moves: Schedule, x: Ticket, h: Ticket)
    requires NoneAhead(moves, x) && (h == x || Before(h, x))
    ensures NoneAhead(moves, h)
  {
    forall s: nat | moves(s).Push? ensures Before(h, moves(s).ticket) { assert Before(x, moves(s).ticket); }
  }

  lemma StillClear(c: Contest, d: Contest, x: Ticket)
    requires ClearUpTo(c, x) && d.bucket.capacity == c.bucket.capacity && UpTo(d.queue, x) <= UpTo(c.queue, x)
    ensures ClearUpTo(d, x)
  {
    forall u | u in d.queue && (u == x || Before(u, x)) ensures Servable(d.bucket.capacity, u) { assert u in UpTo(d.queue, x); }
  }

  /** Every fair run in which nobody enters ahead of a queued contender serves it, if and only if neither it nor anyone
      ahead of it asks for nothing or for more than the bucket holds. */
  lemma {:induction false} FairlyServedIff(c: Contest, moves: Schedule, x: Ticket)
    requires Configured(c.bucket) && Numbered(c) && x in c.queue && Fair(c, moves) && NoneAhead(moves, x)
    ensures (exists s: nat :: x !in At(c, moves, s).queue) <==> ClearUpTo(c, x)
  {
    assert First(moves, 0) == [] && At(c, moves, 0) == c;
    if ClearUpTo(c, x) {
      var s := ServedInTime(c, moves, x, 0);
    } else {
      var u :| u in c.queue && (u == x || Before(u, x)) && !Servable(c.bucket.capacity, u);
      assert forall t :: t in c.queue ==> Open(c, t);
      forall s: nat ensures x in At(c, moves, s).queue {
        UnservableStays(c, First(moves, s), u);
        if u != x { NoOvertaking(c, First(moves, s), u, x); }
      }
    }
  }

  /** Without newcomers a queue only shrinks. */
  lemma {:induction false} QueueShrinks(c: Contest, moves: Schedule, t: nat, s: nat)
    requires Configured(c.bucket) && t <= s && forall i: nat :: !moves(i).Push?
    ensures At(c, moves, s).queue <= At(c, moves, t).queue
    decreases s - t
  {
    if t < s {
      QueueShrinks(c, moves, t, s - 1);
      AtNext(c, moves, s - 1);
    }
  }

  lemma {:induction false} DrainedInTime(c: Contest, moves: Schedule, t: nat) returns (s: nat)
    requires Configured(c.bucket) && Numbered(c) && Fair(c, moves) && forall i: nat :: !moves(i).Push?
    requires forall u :: u in At(c, moves, t).queue ==> Servable(c.bucket.capacity, u)
    ensures t <= s && At(c, moves, s).queue == {}
    decreases |At(c, moves, t).queue|
  {
    var d := At(c, moves, t);
    if d.queue == {} { return t; }
    AtKeepsNumbered(c, moves, t);
    var x :| x in d.queue;
    var left := ServedInTime(c, moves, x, t);
    QueueShrinks(c, moves, t, left);
    SmallerSubset(At(c, moves, left).queue, d.queue, x);
    s := DrainedInTime(c, moves, left);
  }

  /** Every fair run without newcomers empties the queue, if and only if every queued ask is positive and at most the
      capacity. */
  lemma {:induction false} FairlyDrainedIff(c: Contest, moves: Schedule)
    requires Configured(c.bucket) && Numbered(c) && Fair(c, moves) && forall i: nat :: !moves(i).Push?
    ensures (exists s: nat :: At(c, moves, s).queue == {}) <==> forall u :: u in c.queue ==> Servable(c.bucket.capacity, u)
  {
    assert First(moves, 0) == [] && At(c, moves, 0) == c;
    if forall u :: u in c.queue ==> Servable(c.bucket.capacity, u) {
      var s := DrainedInTime(c, moves, 0);
    } else {
      var u :| u in c.queue && !Servable(c.bucket.capacity, u);
      forall s: nat ensures At(c, moves, s).queue != {} { UnservableStays(c, First(moves, s), u); }
    }
  }

  // ------------------------------------------------------------------- such runs exist

  /** Everyone in turn, the clock advancing by one each time. */
  function InTurn(callers: seq<Ticket>): Schedule
    requires callers != []
  {
    (s: nat) => Poll(callers[s % |callers|], s as real)
  }

  lemma TurnComes(n: nat, k: nat, i: nat)
    requires i < n
    ensures (n * k + i) % n == i
  {
    var a := n * k + i;
    var q, r := a / n, a % n;
    assert a == n * q + r && 0 <= r < n;
    if q < k {
      Multiples(n, q, k);
    } else if k < q {
      Multiples(n, k, q);
    }
  }

  lemma Multiples(n: nat, a: nat, b: nat)
    requires a < b
    ensures n * a + n <= n * b
  {
    assert n * b == n * a + n * (b - a);
    AtLeastOnce(n, b - a);
  }

  lemma AtLeastOnce(n: nat, m: nat)
    requires m >= 1
    ensures n * m >= n
  {
    assert n * m == n + n * (m - 1);
  }

  /** A late enough turn of caller `i`. */
  lemma LateTurn(callers: seq<Ticket>, i: nat, t: nat, from: real) returns (s: nat)
    requires i < |callers|
    ensures t <= s && PolledAt(InTurn(callers), callers[i], from, s)
  {
    var n := |callers|;
    var late: nat := if from >= 0.0 then from.Floor + 1 else 0;
    var k := t + late;
    s := n * k + i;
    TurnComes(n, k, i);
    AtLeast(n, k);
    assert from <= late as real <= s as real;
  }

  lemma AtLeast(n: nat, k: nat)
    requires n >= 1
    ensures n * k >= k
  {
    if k >= 1 { assert n * k == k + (n - 1) * k; }
  }

  ghost predicate Enumerates(callers: seq<Ticket>, queue: set<Ticket>) {
    forall u :: u in queue <==> u in callers
  }

  lemma {:induction false} SomeEnumeration(queue: set<Ticket>) returns (callers: seq<Ticket>)
    ensures Enumerates(callers, queue)
    decreases |queue|
  {
    callers := [];
    if queue != {} {
      var u :| u in queue;
      var rest := SomeEnumeration(queue - {u});
      callers := rest + [u];
    }
  }

  /** For every contest with somebody queued there is a fair run without newcomers. */
  lemma FairRunExists(c: Contest) returns (moves: Schedule)
    requires Configured(c.bucket) && c.queue != {}
    ensures Fair(c, moves) && forall i: nat :: !moves(i).Push?
  {
    var callers := SomeEnumeration(c.queue);
    moves := InTurn(callers);
    assert First(moves, 0) == [] && At(c, moves, 0) == c;
    forall u, t: nat, from: real | Waits(c, moves, u, t) ensures PolledLater(moves, u, t, from) {
      QueueShrinks(c, moves, 0, t);
      assert u in At(c, moves, t).queue;
      var i: nat :| i < |callers| && callers[i] == u;
      var s := LateTurn(callers, i, t, from);
    }
  }
}
