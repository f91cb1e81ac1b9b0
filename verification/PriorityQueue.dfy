/**
 The priority bucket: contenders queue by priority and arrival, and only the head of the queue asks the shared bucket.
 Every turn of a caller is one atomic step, and callers interleave freely.
 */
module PriorityQueue {
  import opened Common
  import opened RateLimit

  /** The heap entry (priority, sequence, marker) and the tokens its caller asks for: the marker is identified by the
      sequence, which `itertools.count` never repeats. */
  datatype Ticket = Ticket(priority: int, sequence: nat, tokens: real)

  predicate Before(a: Ticket, b: Ticket) {
    a.priority < b.priority || (a.priority == b.priority && a.sequence < b.sequence)
  }

  /** The heap's first entry is its least. */
  predicate Heads(queue: set<Ticket>, t: Ticket) {
    t in queue && forall u :: u in queue ==> u == t || Before(t, u)
  }

  /** `held` are tickets drawn from the counter by callers that have not yet entered the lock. */
  datatype Contest = Contest(bucket: Bucket, counter: nat, held: set<Ticket>, queue: set<Ticket>)

  datatype Move =
    | Draw(priority: int, tokens: real)
    | Push(ticket: Ticket)
    | Poll(ticket: Ticket, now: real)

  function Step(c: Contest, m: Move): Contest
    requires Configured(c.bucket)
  {
    match m
    case Draw(priority, tokens) => c.(counter := c.counter + 1, held := c.held + {Ticket(priority, c.counter, tokens)})
    case Push(t) => if t in c.held then c.(held := c.held - {t}, queue := c.queue + {t}) else c
    case Poll(t, now) =>
      if Heads(c.queue, t) then
        var (bucket, outcome) := TryAcquire(c.bucket, t.tokens, now);
        c.(bucket := bucket, queue := if outcome.Granted? then c.queue - {t} else c.queue)
      else c
  }

  function Play(c: Contest, moves: seq<Move>): (d: Contest)
    requires Configured(c.bucket)
    ensures Configured(d.bucket)
    decreases |moves|
  {
    if moves == [] then c else Step(Play(c, moves[..|moves| - 1]), moves[|moves| - 1])
  }

  function Start(b: Bucket): Contest { Contest(b, 0, {}, {}) }

  // ------------------------------------------------------------------- order of service

  ghost predicate Open(c: Contest, t: Ticket) { t in c.queue || t in c.held }

  /** Every ticket came from the counter, and no two share a sequence. */
  ghost predicate Numbered(c: Contest) {
    && (forall t :: Open(c, t) ==> t.sequence < c.counter)
    && (forall t, u :: Open(c, t) && Open(c, u) && t.sequence == u.sequence ==> t == u)
    && c.held !! c.queue
  }

  lemma StepKeepsNumbered(c: Contest, m: Move)
    requires Configured(c.bucket) && Numbered(c)
    ensures Numbered(Step(c, m))
  {
    forall t | Open(Step(c, m), t) ensures Open(c, t) || (m.Draw? && t == Ticket(m.priority, c.counter, m.tokens)) {}
  }

  /** In every reachable contest tickets are numbered apart. */
  lemma {:induction false} PlayKeepsNumbered(b: Bucket, moves: seq<Move>)
    requires Configured(b)
    ensures Numbered(Play(Start(b), moves))
    decreases |moves|
  {
    if moves != [] {
      PlayKeepsNumbered(b, moves[..|moves| - 1]);
      StepKeepsNumbered(Play(Start(b), moves[..|moves| - 1]), moves[|moves| - 1]);
    }
  }

  /** `x` is queued ahead of `y`, or has already left. */
  ghost predicate Ahead(c: Contest, x: Ticket, y: Ticket) {
    && (y in c.queue || x !in c.queue)
    && x !in c.held && y !in c.held
    && x.sequence < c.counter && y.sequence < c.counter
  }

  lemma {:induction false} PlayKeepsAhead(c: Contest, moves: seq<Move>, x: Ticket, y: Ticket)
    requires Configured(c.bucket) && Ahead(c, x, y) && Before(x, y)
    ensures Ahead(Play(c, moves), x, y)
    decreases |moves|
  {
    if moves != [] {
      PlayKeepsAhead(c, moves[..|moves| - 1], x, y);
      StepKeepsAhead(Play(c, moves[..|moves| - 1]), moves[|moves| - 1], x, y);
    }
  }

  lemma StepKeepsAhead(c: Contest, m: Move, x: Ticket, y: Ticket)
    requires Configured(c.bucket) && Ahead(c, x, y) && Before(x, y)
    ensures Ahead(Step(c, m), x, y)
  {
  }

  /** A contender queued behind another by priority, or by arrival at equal priority, is never served while the
      other still waits, whatever the callers do in between. */
  lemma {:induction false} NoOvertaking(c: Contest, later: seq<Move>, x: Ticket, y: Ticket)
    requires Configured(c.bucket) && Numbered(c) && x in c.queue && y in c.queue
    requires x.priority < y.priority || (x.priority == y.priority && x.sequence < y.sequence)
    ensures y !in Play(c, later).queue ==> x !in Play(c, later).queue
  {
    assert Open(c, x) && Open(c, y);
    PlayKeepsAhead(c, later, x, y);
  }

  /** A non-empty queue has exactly one head. */
  lemma {:induction false} SomeoneHeads(queue: set<Ticket>) returns (head: Ticket)
    requires queue != {}
    requires forall t, u :: t in queue && u in queue && t.sequence == u.sequence ==> t == u
    ensures Heads(queue, head) && forall u :: Heads(queue, u) ==> u == head
    decreases |queue|
  {
    var t :| t in queue;
    if queue == {t} {
      head := t;
    } else {
      var rest := queue - {t};
      assert queue == {t} + rest;
      var h := SomeoneHeads(rest);
      head := if Before(t, h) then t else h;
      assert h in queue && h != t;
      forall u | u in queue ensures u == head || Before(head, u) {
        if u != t { assert u in rest; }
      }
    }
  }

  // ------------------------------------------------------------------- who is served at all

  /** The ask is one the bucket can ever grant. */
  predicate Servable(capacity: real, t: Ticket) { 0.0 < t.tokens <= capacity }

  /** Polls happen from `from` on and in the order of the clock. */
  ghost predicate Timed(from: real, moves: seq<Move>) {
    && (forall i :: 0 <= i < |moves| && moves[i].Poll? ==> from <= moves[i].now)
    && (forall i, j :: 0 <= i < j < |moves| && moves[i].Poll? && moves[j].Poll? ==> moves[i].now <= moves[j].now)
  }

  /** The head is served by a poll exactly when its ask is servable and the clock has reached its ready instant. */
  lemma HeadServedIff(c: Contest, t: Ticket, now: real)
    requires Configured(c.bucket) && Heads(c.queue, t)
    ensures t !in Step(c, Poll(t, now)).queue <==> Servable(c.bucket.capacity, t) && ReadyAt(c.bucket, t.tokens) <= now
  {
    GrantedIff(c.bucket, t.tokens, now);
  }

  /** So from any instant on some poll serves the head exactly when its ask is servable. */
  lemma HeadEventuallyServedIff(c: Contest, t: Ticket, from: real)
    requires Configured(c.bucket) && Heads(c.queue, t)
    ensures (exists now :: from <= now && t !in Step(c, Poll(t, now)).queue) <==> Servable(c.bucket.capacity, t)
  {
    var ready := MaxReal(from, ReadyAt(c.bucket, t.tokens));
    HeadServedIff(c, t, ready);
    forall now | t !in Step(c, Poll(t, now)).queue ensures Servable(c.bucket.capacity, t) { HeadServedIff(c, t, now); }
  }

  lemma {:induction false} CapacityFixed(c: Contest, moves: seq<Move>)
    requires Configured(c.bucket)
    ensures Play(c, moves).bucket.capacity == c.bucket.capacity
    decreases |moves|
  {
    if moves != [] { CapacityFixed(c, moves[..|moves| - 1]); }
  }

  /** An ask the bucket cannot grant is never served, whatever happens. */
  lemma {:induction false} UnservableStays(c: Contest, moves: seq<Move>, t: Ticket)
    requires Configured(c.bucket) && t in c.queue && !Servable(c.bucket.capacity, t)
    ensures t in Play(c, moves).queue
    decreases |moves|
  {
    if moves != [] {
      var d, m := Play(c, moves[..|moves| - 1]), moves[|moves| - 1];
      UnservableStays(c, moves[..|moves| - 1], t);
      CapacityFixed(c, moves[..|moves| - 1]);
      if m.Poll? && m.ticket == t && Heads(d.queue, t) { HeadServedIff(d, t, m.now); }
    }
  }

  lemma {:induction false} PlayFirst(c: Contest, m: Move, moves: seq<Move>)
    requires Configured(c.bucket)
    ensures Play(c, [m] + moves) == Play(Step(c, m), moves)
    decreases |moves|
  {
    var all := [m] + moves;
    if moves == [] {
      assert all[..0] == [];
    } else {
      PlayFirst(c, m, moves[..|moves| - 1]);
      assert all[..|all| - 1] == [m] + moves[..|moves| - 1];
    }
  }

  lemma PlayLast(c: Contest, moves: seq<Move>, m: Move)
    requires Configured(c.bucket)
    ensures Play(c, moves + [m]) == Step(Play(c, moves), m)
  {
    assert (moves + [m])[..|moves|] == moves;
  }

  /** A servable head leaves at its ready instant. */
  lemma ServeHead(c: Contest, head: Ticket, from: real) returns (m: Move)
    requires Configured(c.bucket) && Heads(c.queue, head) && Servable(c.bucket.capacity, head)
    ensures m.Poll? && from <= m.now
    ensures Step(c, m).queue == c.queue - {head} && Step(c, m).bucket.capacity == c.bucket.capacity
  {
    m := Poll(head, MaxReal(from, ReadyAt(c.bucket, head.tokens)));
    HeadServedIff(c, head, m.now);
  }

  ghost predicate Apart(queue: set<Ticket>) {
    forall t, u :: t in queue && u in queue && t.sequence == u.sequence ==> t == u
  }

  /** No one up to `x` asks for what the bucket cannot grant. */
  ghost predicate ClearUpTo(c: Contest, x: Ticket) {
    forall u :: u in c.queue && (u == x || Before(u, x)) ==> Servable(c.bucket.capacity, u)
  }

  /** Serving head after head reaches `x` when nobody up to it is unservable. */
  lemma {:induction false} ServeUpTo(c: Contest, x: Ticket, from: real) returns (moves: seq<Move>)
    requires Configured(c.bucket) && Apart(c.queue) && x in c.queue && ClearUpTo(c, x)
    ensures Timed(from, moves) && x !in Play(c, moves).queue
    decreases |c.queue|
  {
    var head := SomeoneHeads(c.queue);
    var m := ServeHead(c, head, from);
    moves := [m];
    PlayFirst(c, m, []);
    if head != x {
      var rest := ServeUpTo(Step(c, m), x, m.now);
      PlayFirst(c, m, rest);
      moves := [m] + rest;
    }
  }

  lemma {:induction false} ServeAll(c: Contest, from: real) returns (moves: seq<Move>)
    requires Configured(c.bucket) && Apart(c.queue) && forall u :: u in c.queue ==> Servable(c.bucket.capacity, u)
    ensures Timed(from, moves) && Play(c, moves).queue == {}
    decreases |c.queue|
  {
    moves := [];
    if c.queue != {} {
      var head := SomeoneHeads(c.queue);
      var m := ServeHead(c, head, from);
      var rest := ServeAll(Step(c, m), m.now);
      PlayFirst(c, m, rest);
      moves := [m] + rest;
    }
  }

  /** A queued contender can still be served, on a clock that goes on from any instant, exactly when neither it nor
      anyone ahead of it asks for nothing or for more than the bucket holds. */
  lemma {:induction false} ServedIff(c: Contest, x: Ticket, from: real)
    requires Configured(c.bucket) && Numbered(c) && x in c.queue
    ensures (exists moves :: Timed(from, moves) && x !in Play(c, moves).queue) <==> ClearUpTo(c, x)
  {
    assert forall t :: t in c.queue ==> Open(c, t);
    if ClearUpTo(c, x) {
      var moves := ServeUpTo(c, x, from);
    } else {
      var u :| u in c.queue && (u == x || Before(u, x)) && !Servable(c.bucket.capacity, u);
      forall moves ensures x in Play(c, moves).queue {
        UnservableStays(c, moves, u);
        if u != x { NoOvertaking(c, moves, u, x); }
      }
    }
  }

  /** The whole queue can be emptied exactly when every queued ask is positive and at most the capacity. */
  lemma {:induction false} DrainsIff(c: Contest, from: real)
    requires Configured(c.bucket) && Numbered(c)
    ensures (exists moves :: Timed(from, moves) && Play(c, moves).queue == {}) <==>
            forall u :: u in c.queue ==> Servable(c.bucket.capacity, u)
  {
    assert forall t :: t in c.queue ==> Open(c, t);
    if forall u :: u in c.queue ==> Servable(c.bucket.capacity, u) {
      var moves := ServeAll(c, from);
    } else {
      var u :| u in c.queue && !Servable(c.bucket.capacity, u);
      forall moves ensures Play(c, moves).queue != {} { UnservableStays(c, moves, u); }
    }
  }

  /** A reachable contest in which a modest ask waits for ever behind one larger than the bucket. */
  lemma {:induction false} BlockedContestReachable() returns (earlier: seq<Move>, x: Ticket, y: Ticket)
    ensures var c := Play(Start(Bucket(2.0, 1.0, 2.0, 0.0)), earlier);
            && x in c.queue && y in c.queue && Servable(c.bucket.capacity, y)
            && forall later :: y in Play(c, later).queue
  {
    var s := Start(Bucket(2.0, 1.0, 2.0, 0.0));
    x, y := Ticket(0, 0, 5.0), Ticket(1, 1, 1.0);
    var d1, d2, p1, p2 := Draw(0, 5.0), Draw(1, 1.0), Push(x), Push(y);
    PlayLast(s, [], d1);
    PlayLast(s, [d1], d2);
    PlayLast(s, [d1, d2], p1);
    PlayLast(s, [d1, d2, p1], p2);
    earlier := [d1, d2, p1] + [p2];
    var c := Play(s, earlier);
    assert Play(s, []) == s && [] + [d1] == [d1] && [d1] + [d2] == [d1, d2] && [d1, d2] + [p1] == [d1, d2, p1];
    assert Play(s, [d1, d2]).held == {x, y};
    assert c.queue == {x, y};
    PlayKeepsNumbered(s.bucket, earlier);
    CapacityFixed(s, earlier);
    forall later ensures y in Play(c, later).queue {
      UnservableStays(c, later, x);
      NoOvertaking(c, later, x, y);
    }
  }

  // ------------------------------------------------------------------- the object

  class PriorityTokenBucket {
    const bucket: TokenBucket
    var counter: nat
    var held: set<Ticket>
    var queue: set<Ticket>

    predicate Valid() { bucket.Valid() }

    function View(): Contest
      reads this, bucket
    {
      Contest(bucket.View(), counter, held, queue)
    }

    constructor (bucket: TokenBucket)
      requires bucket.Valid()
      ensures Valid() && this.bucket == bucket && View() == Start(bucket.View())
    {
      this.bucket, counter, held, queue := bucket, 0, {}, {};
    }

    /** The caller takes the next sequence number before it enters the lock. */
    method DrawTicket(priority: int, tokens: real) returns (ticket: Ticket)
      requires Valid()
      modifies this
      ensures View() == Step(old(View()), Draw(priority, tokens)) && ticket == Ticket(priority, old(counter), tokens)
    {
      ticket := Ticket(priority, counter, tokens);
      counter, held := counter + 1, held + {ticket};
    }

    method PushTicket(ticket: Ticket)
      requires Valid() && ticket in held
      modifies this
      ensures View() == Step(old(View()), Push(ticket))
    {
      held, queue := held - {ticket}, queue + {ticket};
    }

    /** One turn of the waiting loop: `None` for a caller that is not at the head. */
    method PollTicket(ticket: Ticket, now: real) returns (outcome: Option<Outcome>)
      requires Valid()
      modifies this, bucket
      ensures View() == Step(old(View()), Poll(ticket, now))
      ensures outcome.Some? <==> Heads(old(queue), ticket)
      ensures outcome.Some? ==> outcome.value == TryAcquire(old(bucket.View()), ticket.tokens, now).1
    {
      if !Heads(queue, ticket) { return None; }
      var got := bucket.Acquire(ticket.tokens, now);
      if got.Granted? { queue := queue - {ticket}; }
      outcome := Some(got);
    }
  }
}
