/**
 Every interleaving of the submission journal's steps.

 Any number of processes run `submit_once` and `recover` against one journal.  Each
 database transaction and each read is one action, the transport call is another,
 and `Crash` forgets a process between any two of its actions.  Nothing is assumed
 about the order of the actions, so a run is simply a sequence of them.
 */
module SubmissionRuns {
  import opened Common
  import opened Submission

  /** Where a process stands.  `recover` reads the row, the audit sequence and the
      cutoff separately, calls the lookup, and only then commits. */
  datatype Session =
    | Idle
    | Claimed(client: string, economic: EconomicKey, payload: Payload)
    | Sent(client: string)
    | ReadRow(client: string, seen: State, started: int)
    | ReadSequence(client: string, seen: State, started: int, sequence: nat)
    | ReadCutoff(client: string, seen: State, started: int, sequence: nat, cutoff: int)
    | LookedUp(client: string, seen: State, started: int, sequence: nat, cutoff: int,
               evidence: Option<BrokerEvidence>)

  /** One call of the transport callback. */
  datatype Send = Send(client: string, economic: EconomicKey, payload: Payload)

  datatype System = System(journal: Journal, sessions: map<nat, Session>, sent: seq<Send>)

  datatype Action =
    | Claim(p: nat, intent: Intent, account: string, at: int, expires: int)
    | Transport(p: nat)
    | Respond(p: nat, delivered: bool)
    | Mark(client: string, operation: Operation, at: int)
    | ReadRowOf(p: nat, client: string)
    | ReadSequenceOf(p: nat)
    | ReadCutoffOf(p: nat)
    | Lookup(p: nat, evidence: Option<BrokerEvidence>)
    | Commit(p: nat)
    | Crash(p: nat)

  const INITIAL := System(Journal(map[], []), map[], [])

  function SessionOf(s: System, p: nat): Session {
    if p in s.sessions then s.sessions[p] else Idle
  }

  /** What one action commits to the journal. */
  datatype Write =
    | Keep
    | Insert(intent: Intent, account: string, at: int, expires: int)
    | Update(client: string, state: State, note: Note)

  function Apply(j: Journal, w: Write): Journal {
    match w
    case Keep => j
    case Insert(intent, account, at, expires) => ClaimStep(j, intent, account, at, expires)
    case Update(client, state, note) => Record(j, client, state, note)
  }

  /** The journal write of an action; an action not possible where its process stands writes nothing. */
  function WriteOf(s: System, a: Action): Write {
    var j := s.journal;
    match a
    case Claim(p, intent, account, at, expires) =>
      if SessionOf(s, p).Idle? && CanClaim(j, intent, account, at, expires)
      then Insert(intent, account, at, expires) else Keep
    case Respond(p, delivered) =>
      if SessionOf(s, p).Sent? then Update(SessionOf(s, p).client, UnknownBrokerState, Response(delivered)) else Keep
    case Mark(client, operation, at) =>
      if CanMark(j, client, operation, at) then Update(client, UnknownBrokerState, AmbiguousAt(at, operation)) else Keep
    case Commit(p) =>
      var w := SessionOf(s, p);
      if w.LookedUp? && CanCommit(j, w.client, w.seen, w.sequence)
      then Update(w.client, RecoveredState(w.cutoff, w.evidence), Recovery(w.cutoff, w.evidence)) else Keep
    case _ => Keep
  }

  /** Where the acting process stands afterwards. */
  function SessionAfter(s: System, a: Action): Session
    requires !a.Mark?
  {
    var j, w := s.journal, SessionOf(s, a.p);
    match a
    case Claim(_, intent, account, at, expires) =>
      if w.Idle? && CanClaim(j, intent, account, at, expires)
      then Session.Claimed(intent.client, EconomicOf(intent, account), PayloadOf(intent, account)) else w
    case Transport(_) => if w.Claimed? then Sent(w.client) else w
    case Respond(_, _) => if w.Sent? then Idle else w
    case ReadRowOf(_, client) =>
      if w.Idle? && client in j.submission && Unresolved(j.submission[client].state)
      then ReadRow(client, j.submission[client].state, j.submission[client].started) else w
    case ReadSequenceOf(_) =>
      if w.ReadRow? then ReadSequence(w.client, w.seen, w.started, AuditSequence(j.audit, w.client)) else w
    case ReadCutoffOf(_) =>
      if w.ReadSequence?
      then ReadCutoff(w.client, w.seen, w.started, w.sequence, Cutoff(w.started, j.audit, w.client)) else w
    case Lookup(_, evidence) =>
      if w.ReadCutoff? then LookedUp(w.client, w.seen, w.started, w.sequence, w.cutoff, evidence) else w
    case Commit(_) => if w.LookedUp? then Idle else w
    case Crash(_) => Idle
  }

  /** The transport calls an action makes. */
  function SentBy(s: System, a: Action): seq<Send> {
    if a.Transport? && SessionOf(s, a.p).Claimed?
    then [Send(SessionOf(s, a.p).client, SessionOf(s, a.p).economic, SessionOf(s, a.p).payload)] else []
  }

  function Next(s: System, a: Action): System {
    System(Apply(s.journal, WriteOf(s, a)),
           if a.Mark? then s.sessions else s.sessions[a.p := SessionAfter(s, a)],
           s.sent + SentBy(s, a))
  }

  function Run(s: System, actions: seq<Action>): System
    decreases |actions|
  {
    if actions == [] then s else Next(Run(s, actions[..|actions| - 1]), actions[|actions| - 1])
  }

  // ---------------------------------------------------------------- invariant

  /** A row keeps the identity it was claimed with, and its claim is in the log. */
  ghost predicate RowSound(j: Journal, c: string)
    requires c in j.submission
  {
    && j.submission[c].client == c
    && j.submission[c].payloadHash == PayloadHash(j.submission[c].payload)
    && AuditRow(c, Submitting, ClaimedAt(j.submission[c].started)) in j.audit
  }

  ghost predicate KeysApart(j: Journal) {
    forall c, d :: c in j.submission && d in j.submission && c != d ==> j.submission[c].economic != j.submission[d].economic
  }

  ghost predicate LogNamed(j: Journal) {
    forall i :: 0 <= i < |j.audit| ==> j.audit[i].client in j.submission
  }

  /** Rows keep the identity they were claimed with, and no two share an economic key. */
  ghost predicate RowsSound(j: Journal) {
    (forall c :: c in j.submission ==> RowSound(j, c)) && KeysApart(j) && LogNamed(j)
  }

  /** A resolved row's last audit entry is the verified recovery that resolved it, and the
      evidence of that recovery is no older than the start or any marker in the log. */
  ghost predicate ResolvedSound(j: Journal, c: string)
    requires c in j.submission
  {
    var row, n := j.submission[c], AuditSequence(j.audit, c);
    !Unresolved(row.state) ==>
      && n > 0
      && j.audit[n - 1].state == row.state
      && j.audit[n - 1].note.Recovery?
      && j.audit[n - 1].note.evidence.Some?
      && j.audit[n - 1].note.evidence.value.status == row.state
      && j.audit[n - 1].note.cutoff == Cutoff(row.started, j.audit, c)
      && AuthorityVerified(j.audit[n - 1].note.evidence.value, j.audit[n - 1].note.cutoff)
  }

  ghost predicate SessionSound(j: Journal, sent: seq<Send>, w: Session) {
    match w
    case Idle => true
    case Claimed(c, economic, payload) =>
      && c in j.submission && j.submission[c].economic == economic && j.submission[c].payload == payload
      && (forall i :: 0 <= i < |sent| ==> sent[i].client != c)
    case Sent(c) => c in j.submission
    case ReadRow(c, seen, started) =>
      c in j.submission && j.submission[c].started == started && Unresolved(seen)
    case ReadSequence(c, seen, started, n) =>
      c in j.submission && j.submission[c].started == started && Unresolved(seen) && n <= |j.audit|
    case ReadCutoff(c, seen, started, n, cutoff) =>
      && c in j.submission && j.submission[c].started == started && Unresolved(seen) && n <= |j.audit|
      && (AuditSequence(j.audit, c) == n ==> cutoff == Cutoff(started, j.audit, c))
    case LookedUp(c, seen, started, n, cutoff, evidence) =>
      && c in j.submission && j.submission[c].started == started && Unresolved(seen) && n <= |j.audit|
      && (AuditSequence(j.audit, c) == n ==> cutoff == Cutoff(started, j.audit, c))
  }

  ghost predicate SentSound(j: Journal, sent: seq<Send>) {
    && (forall i :: 0 <= i < |sent| ==>
          && sent[i].client in j.submission
          && j.submission[sent[i].client].economic == sent[i].economic
          && j.submission[sent[i].client].payload == sent[i].payload)
    && (forall i, k :: 0 <= i < k < |sent| ==> sent[i].client != sent[k].client)
  }

  ghost predicate OneClaimEach(s: System) {
    forall p, q :: p in s.sessions && q in s.sessions && p != q && s.sessions[p].Claimed? && s.sessions[q].Claimed? ==>
      s.sessions[p].client != s.sessions[q].client
  }

  ghost predicate Inv(s: System) {
    && RowsSound(s.journal)
    && (forall c :: c in s.journal.submission ==> ResolvedSound(s.journal, c))
    && (forall p :: p in s.sessions ==> SessionSound(s.journal, s.sent, s.sessions[p]))
    && SentSound(s.journal, s.sent)
    && OneClaimEach(s)
  }

  /** One more audit row: another client's sequence and cutoff stay, this client's sequence moves. */
  lemma AppendAudit(audit: seq<AuditRow>, row: AuditRow, client: string, started: int)
    ensures row.client == client ==> AuditSequence(audit + [row], client) == |audit| + 1
    ensures row.client != client ==>
              && AuditSequence(audit + [row], client) == AuditSequence(audit, client)
              && Cutoff(started, audit + [row], client) == Cutoff(started, audit, client)
    ensures !row.note.AmbiguousAt? ==> Cutoff(started, audit + [row], client) == Cutoff(started, audit, client)
  {
    assert (audit + [row])[..|audit|] == audit;
  }

  /** A recovery note that proves `state` against the boundary now in force for `client`. */
  ghost predicate FreshRecovery(j: Journal, client: string, state: State, note: Note)
    requires client in j.submission
  {
    && note.Recovery? && note.evidence.Some? && note.evidence.value.status == state
    && note.cutoff == Cutoff(j.submission[client].started, j.audit, client)
    && AuthorityVerified(note.evidence.value, note.cutoff)
  }

  /** The writes any action may make: a claim into a quiet account under fresh keys, an
      unresolved state, or a resolved state that a fresh recovery proves. */
  ghost predicate Admissible(j: Journal, w: Write) {
    match w
    case Keep => true
    case Insert(intent, account, at, expires) =>
      CanClaim(j, intent, account, at, expires) && intent.client !in j.submission
    case Update(client, state, note) =>
      client in j.submission && (Unresolved(state) || FreshRecovery(j, client, state, note))
  }

  lemma {:induction false} WritesAdmissible(s: System, a: Action)
    requires Inv(s)
    ensures Admissible(s.journal, WriteOf(s, a))
  {
    var w := WriteOf(s, a);
    if w.Insert? && w.intent.client in s.journal.submission {
      assert Matches(s.journal.submission[w.intent.client], w.intent, w.account);
    } else if w.Update? && !a.Mark? {
      assert SessionSound(s.journal, s.sent, SessionOf(s, a.p));
    }
  }

  /** The audit row a write appends. */
  function EntryOf(w: Write): AuditRow
    requires !w.Keep?
  {
    if w.Insert? then AuditRow(w.intent.client, Submitting, ClaimedAt(w.at))
    else AuditRow(w.client, w.state, w.note)
  }

  /** What a write does to the tables, in the terms the proofs below use. */
  lemma ApplyShape(j: Journal, w: Write)
    requires Admissible(j, w)
    ensures Apply(j, w).audit == if w.Keep? then j.audit else j.audit + [EntryOf(w)]
    ensures forall c :: c in j.submission ==>
              c in Apply(j, w).submission &&
              Apply(j, w).submission[c].(state := j.submission[c].state) == j.submission[c]
    ensures forall c :: c in j.submission && (w.Keep? || EntryOf(w).client != c) ==>
              Apply(j, w).submission[c] == j.submission[c]
    ensures !w.Insert? ==> Apply(j, w).submission.Keys == j.submission.Keys
  {
  }

  lemma WriteKeepsRow(j: Journal, w: Write, c: string)
    requires Admissible(j, w) && c in Apply(j, w).submission && (c in j.submission ==> RowSound(j, c))
    ensures RowSound(Apply(j, w), c)
  {
    ApplyShape(j, w);
    if c !in j.submission { assert Apply(j, w).audit[|j.audit|] == EntryOf(w); }
  }

  lemma WriteKeepsKeys(j: Journal, w: Write)
    requires KeysApart(j) && Admissible(j, w)
    ensures KeysApart(Apply(j, w))
  {
    ApplyShape(j, w);
  }

  lemma WriteKeepsLog(j: Journal, w: Write)
    requires LogNamed(j) && Admissible(j, w)
    ensures LogNamed(Apply(j, w))
  {
    ApplyShape(j, w);
    var k := Apply(j, w);
    forall i | 0 <= i < |k.audit| ensures k.audit[i].client in k.submission {
      if i < |j.audit| { assert k.audit[i] == j.audit[i]; }
    }
  }

  lemma WriteKeepsRows(j: Journal, w: Write)
    requires RowsSound(j) && Admissible(j, w)
    ensures RowsSound(Apply(j, w))
  {
    forall c | c in Apply(j, w).submission ensures RowSound(Apply(j, w), c) { WriteKeepsRow(j, w, c); }
    WriteKeepsKeys(j, w);
    WriteKeepsLog(j, w);
  }

  lemma WriteKeepsResolved(j: Journal, w: Write, c: string)
    requires Admissible(j, w) && c in Apply(j, w).submission
    requires c in j.submission ==> ResolvedSound(j, c)
    ensures ResolvedSound(Apply(j, w), c)
  {
    if c in j.submission && w.Update? {
      AppendAudit(j.audit, EntryOf(w), c, j.submission[c].started);
      if w.client == c { UpdateKeepsResolved(j, w); } else { ElsewhereKeepsResolved(j, w, c); }
    } else if c in j.submission && w.Insert? {
      AppendAudit(j.audit, EntryOf(w), c, j.submission[c].started);
      ElsewhereKeepsResolved(j, w, c);
    }
  }

  lemma UpdateKeepsResolved(j: Journal, w: Write)
    requires Admissible(j, w) && w.Update?
    requires AuditSequence(j.audit + [EntryOf(w)], w.client) == |j.audit| + 1
    ensures ResolvedSound(Apply(j, w), w.client)
  {
    var k := Apply(j, w);
    assert k.audit == j.audit + [EntryOf(w)] && k.submission[w.client].state == w.state;
    if !Unresolved(w.state) { AppendAudit(j.audit, EntryOf(w), w.client, j.submission[w.client].started); }
  }

  /** Another client's row, sequence and cutoff are as they were. */
  lemma ElsewhereKeepsResolved(j: Journal, w: Write, c: string)
    requires Admissible(j, w) && !w.Keep? && EntryOf(w).client != c && c in j.submission && ResolvedSound(j, c)
    requires AuditSequence(j.audit + [EntryOf(w)], c) == AuditSequence(j.audit, c)
    requires Cutoff(j.submission[c].started, j.audit + [EntryOf(w)], c) == Cutoff(j.submission[c].started, j.audit, c)
    ensures c in Apply(j, w).submission && ResolvedSound(Apply(j, w), c)
  {
    ApplyShape(j, w);
    SameProof(j, Apply(j, w), EntryOf(w), c);
  }

  /** A longer log with the same row, sequence and cutoff proves the same. */
  lemma SameProof(j: Journal, k: Journal, entry: AuditRow, c: string)
    requires c in j.submission && c in k.submission && k.submission[c] == j.submission[c] && k.audit == j.audit + [entry]
    requires AuditSequence(k.audit, c) == AuditSequence(j.audit, c)
    requires Cutoff(j.submission[c].started, k.audit, c) == Cutoff(j.submission[c].started, j.audit, c)
    requires ResolvedSound(j, c)
    ensures ResolvedSound(k, c)
  {
    var n := AuditSequence(j.audit, c);
    if n > 0 { assert k.audit[n - 1] == j.audit[n - 1]; }
  }

  /** No write disturbs what another process holds: either its client's generation moves,
      and it will not commit, or its cutoff is still the boundary in force. */
  lemma WriteKeepsSession(s: System, w: Write, v: Session)
    requires Admissible(s.journal, w) && SessionSound(s.journal, s.sent, v)
    ensures SessionSound(Apply(s.journal, w), s.sent, v)
  {
    ApplyShape(s.journal, w);
    if (v.ReadCutoff? || v.LookedUp?) && !w.Keep? {
      AppendAudit(s.journal.audit, EntryOf(w), v.client, v.started);
    }
  }

  lemma WriteKeepsInv(s: System, w: Write)
    requires Inv(s) && Admissible(s.journal, w)
    ensures Inv(s.(journal := Apply(s.journal, w)))
  {
    var k := Apply(s.journal, w);
    WriteKeepsRows(s.journal, w);
    forall c | c in k.submission ensures ResolvedSound(k, c) { WriteKeepsResolved(s.journal, w, c); }
    forall p | p in s.sessions ensures SessionSound(k, s.sent, s.sessions[p]) {
      WriteKeepsSession(s, w, s.sessions[p]);
    }
    ApplyShape(s.journal, w);
    JournalMoves(s, k);
  }

  /** A journal that is sound itself and keeps every row's identity may take the old one's place. */
  lemma JournalMoves(s: System, k: Journal)
    requires Inv(s) && RowsSound(k) && forall c :: c in k.submission ==> ResolvedSound(k, c)
    requires forall p :: p in s.sessions ==> SessionSound(k, s.sent, s.sessions[p])
    requires forall c :: c in s.journal.submission ==>
               c in k.submission && k.submission[c].(state := s.journal.submission[c].state) == s.journal.submission[c]
    ensures Inv(s.(journal := k))
  {
    forall i | 0 <= i < |s.sent|
      ensures s.sent[i].client in k.submission
      ensures k.submission[s.sent[i].client].economic == s.sent[i].economic
      ensures k.submission[s.sent[i].client].payload == s.sent[i].payload
    {
      assert s.sent[i].client in s.journal.submission;
    }
  }

  /** A process that only reads, or forgets, ends where it may stand. */
  lemma ReaderStandsSound(s: System, a: Action)
    requires Inv(s) && !a.Mark? && !a.Claim?
    ensures SessionSound(s.journal, s.sent, SessionAfter(s, a))
    ensures !SessionAfter(s, a).Claimed? || SessionAfter(s, a) == SessionOf(s, a.p)
  {
    assert SessionSound(s.journal, s.sent, SessionOf(s, a.p));
  }

  /** Moving one process, without touching the journal, keeps everyone else sound. */
  lemma MoveKeepsInv(s: System, p: nat, w: Session)
    requires Inv(s) && SessionSound(s.journal, s.sent, w)
    requires w.Claimed? ==> forall q :: q in s.sessions && q != p && s.sessions[q].Claimed? ==> s.sessions[q].client != w.client
    ensures Inv(s.(sessions := s.sessions[p := w]))
  {
    var t := s.(sessions := s.sessions[p := w]);
    forall q | q in t.sessions ensures SessionSound(t.journal, t.sent, t.sessions[q]) {
      assert SessionSound(s.journal, s.sent, t.sessions[q]);
    }
  }

  lemma ClaimKeepsInv(s: System, a: Action)
    requires Inv(s) && a.Claim? && WriteOf(s, a).Insert?
    ensures Inv(Next(s, a))
  {
    WritesAdmissible(s, a);
    WriteKeepsInv(s, WriteOf(s, a));
    var t := s.(journal := Apply(s.journal, WriteOf(s, a)));
    forall q | q in s.sessions && s.sessions[q].Claimed? ensures s.sessions[q].client != a.intent.client {
      assert SessionSound(s.journal, s.sent, s.sessions[q]);
    }
    MoveKeepsInv(t, a.p, SessionAfter(s, a));
    assert s.sent + SentBy(s, a) == s.sent;
  }

  lemma TransportKeepsInv(s: System, a: Action)
    requires Inv(s) && a.Transport? && SessionOf(s, a.p).Claimed?
    ensures Inv(Next(s, a))
  {
    var w := SessionOf(s, a.p);
    assert SessionSound(s.journal, s.sent, w);
    SendKeepsInv(s, a.p, Send(w.client, w.economic, w.payload));
    assert Next(s, a) == s.(sessions := s.sessions[a.p := Sent(w.client)], sent := s.sent + [Send(w.client, w.economic, w.payload)]);
  }

  lemma SendKeepsSent(j: Journal, sent: seq<Send>, send: Send)
    requires SentSound(j, sent) && SessionSound(j, sent, Session.Claimed(send.client, send.economic, send.payload))
    ensures SentSound(j, sent + [send])
  {
  }

  /** A process other than the sender is not disturbed by the send. */
  lemma SendKeepsOthers(j: Journal, sent: seq<Send>, send: Send, w: Session)
    requires SessionSound(j, sent, w) && (w.Claimed? ==> w.client != send.client)
    ensures SessionSound(j, sent + [send], w)
  {
  }

  lemma SendKeepsInv(s: System, p: nat, send: Send)
    requires Inv(s) && p in s.sessions && s.sessions[p] == Session.Claimed(send.client, send.economic, send.payload)
    ensures Inv(s.(sessions := s.sessions[p := Sent(send.client)], sent := s.sent + [send]))
  {
    var sessions, sent := s.sessions[p := Sent(send.client)], s.sent + [send];
    assert SessionSound(s.journal, s.sent, s.sessions[p]);
    SendKeepsSent(s.journal, s.sent, send);
    forall q | q in sessions ensures SessionSound(s.journal, sent, sessions[q]) {
      if q != p { SendKeepsOthers(s.journal, s.sent, send, s.sessions[q]); }
    }
  }

  lemma NextKeepsInv(s: System, a: Action)
    requires Inv(s)
    ensures Inv(Next(s, a))
  {
    if a.Claim? && WriteOf(s, a).Insert? {
      ClaimKeepsInv(s, a);
    } else if a.Transport? && SessionOf(s, a.p).Claimed? {
      TransportKeepsInv(s, a);
    } else {
      QuietNextKeepsInv(s, a);
    }
  }

  /** An action that neither claims nor sends is its write and then its process's move. */
  lemma NextQuiet(s: System, a: Action)
    requires !(a.Transport? && SessionOf(s, a.p).Claimed?)
    ensures var t := s.(journal := Apply(s.journal, WriteOf(s, a)));
            Next(s, a) == if a.Mark? then t else t.(sessions := t.sessions[a.p := SessionAfter(s, a)])
  {
    assert s.sent + SentBy(s, a) == s.sent;
  }

  lemma QuietNextKeepsInv(s: System, a: Action)
    requires Inv(s) && !WriteOf(s, a).Insert? && !(a.Transport? && SessionOf(s, a.p).Claimed?)
    ensures Inv(Next(s, a))
  {
    var t := s.(journal := Apply(s.journal, WriteOf(s, a)));
    WritesAdmissible(s, a);
    WriteKeepsInv(s, WriteOf(s, a));
    NextQuiet(s, a);
    if !a.Mark? {
      StandingSurvives(s, a);
      MoverKeepsInv(t, a.p, SessionAfter(s, a), SessionOf(s, a.p));
    }
  }

  /** A process that does not newly hold a claim moves alone. */
  lemma MoverKeepsInv(t: System, p: nat, w: Session, was: Session)
    requires Inv(t) && SessionSound(t.journal, t.sent, w) && was == SessionOf(t, p) && (w.Claimed? ==> w == was)
    ensures Inv(t.(sessions := t.sessions[p := w]))
  {
    MoveKeepsInv(t, p, w);
  }

  /** The acting process's new standing is sound against the journal it has just written. */
  lemma StandingSurvives(s: System, a: Action)
    requires Inv(s) && !a.Mark? && !WriteOf(s, a).Insert?
    ensures SessionSound(Apply(s.journal, WriteOf(s, a)), s.sent, SessionAfter(s, a))
    ensures !SessionAfter(s, a).Claimed? || SessionAfter(s, a) == SessionOf(s, a.p)
  {
    WritesAdmissible(s, a);
    if a.Claim? { assert SessionSound(s.journal, s.sent, SessionOf(s, a.p)); } else { ReaderStandsSound(s, a); }
    WriteKeepsSession(s, WriteOf(s, a), SessionAfter(s, a));
  }

  lemma {:induction false} RunKeepsInv(s: System, actions: seq<Action>)
    requires Inv(s)
    ensures Inv(Run(s, actions))
    decreases |actions|
  {
    if actions != [] {
      RunKeepsInv(s, actions[..|actions| - 1]);
      NextKeepsInv(Run(s, actions[..|actions| - 1]), actions[|actions| - 1]);
    }
  }

  // ----------------------------------------------------------------- theorems

  /** The transport callback runs at most once per client id and at most once per economic key. */
  lemma TransportAtMostOnce(actions: seq<Action>)
    ensures var sent := Run(INITIAL, actions).sent;
            forall i, k :: 0 <= i < k < |sent| ==>
              sent[i].client != sent[k].client && sent[i].economic != sent[k].economic
  {
    RunKeepsInv(INITIAL, actions);
    var s := Run(INITIAL, actions);
    assert SentSound(s.journal, s.sent) && RowsSound(s.journal);
  }

  /** The row records what this claim asked for. */
  ghost predicate ClaimedBy(row: Row, a: Action) {
    a.Claim? && Records(row, a.intent, a.account, a.at, a.expires)
  }

  lemma InsertedRow(j: Journal, w: Write)
    requires w.Insert?
    ensures w.intent.client in Apply(j, w).submission
    ensures Records(Apply(j, w).submission[w.intent.client], w.intent, w.account, w.at, w.expires)
    ensures Apply(j, w).submission.Keys == j.submission.Keys + {w.intent.client}
  {
  }

  /** A row after a write is an earlier one, up to its state, or the one inserted. */
  lemma WrittenRow(j: Journal, w: Write, client: string)
    requires Admissible(j, w) && client in Apply(j, w).submission
    ensures if client in j.submission
            then Apply(j, w).submission[client].(state := j.submission[client].state) == j.submission[client]
            else w.Insert? && Records(Apply(j, w).submission[client], w.intent, w.account, w.at, w.expires)
  {
    ApplyShape(j, w);
    if w.Insert? { InsertedRow(j, w); }
  }

  lemma InsertOfClaim(s: System, a: Action)
    requires WriteOf(s, a).Insert?
    ensures a.Claim? && WriteOf(s, a) == Insert(a.intent, a.account, a.at, a.expires)
  {
  }

  lemma RowOfNext(s: System, a: Action, client: string)
    requires Inv(s) && client in Next(s, a).journal.submission
    ensures if client in s.journal.submission
            then Next(s, a).journal.submission[client].(state := s.journal.submission[client].state) == s.journal.submission[client]
            else WriteOf(s, a).Insert? && ClaimedBy(Next(s, a).journal.submission[client], a)
  {
    WritesAdmissible(s, a);
    NextJournal(s, a);
    WrittenRow(s.journal, WriteOf(s, a), client);
    if client !in s.journal.submission { InsertOfClaim(s, a); }
  }

  /** Action `k` inserted the row. */
  ghost predicate CameFrom(actions: seq<Action>, k: nat, row: Row) {
    k < |actions| && WriteOf(Run(INITIAL, actions[..k]), actions[k]).Insert? && ClaimedBy(row, actions[k])
  }

  lemma StillCameFrom(actions: seq<Action>, a: Action, k: nat, row: Row, later: Row)
    requires CameFrom(actions, k, row) && later.(state := row.state) == row
    ensures CameFrom(actions + [a], k, later)
  {
    assert (actions + [a])[..k] == actions[..k];
  }

  lemma ComesLast(actions: seq<Action>, a: Action, row: Row)
    requires WriteOf(Run(INITIAL, actions), a).Insert? && ClaimedBy(row, a)
    ensures CameFrom(actions + [a], |actions|, row)
  {
    assert (actions + [a])[..|actions|] == actions;
  }

  function RowIn(actions: seq<Action>, client: string): Option<Row> {
    var rows := Run(INITIAL, actions).journal.submission;
    if client in rows then Some(rows[client]) else None
  }

  /** One more action keeps an earlier row up to its state, or inserts the row itself. */
  lemma RowOfRun(actions: seq<Action>, a: Action, client: string)
    requires RowIn(actions + [a], client).Some?
    ensures var row, was := RowIn(actions + [a], client).value, RowIn(actions, client);
            if was.Some? then row.(state := was.value.state) == was.value
            else WriteOf(Run(INITIAL, actions), a).Insert? && ClaimedBy(row, a)
  {
    RunKeepsInv(INITIAL, actions);
    RunOne(INITIAL, actions, a);
    RowOfNext(Run(INITIAL, actions), a, client);
  }

  lemma {:induction false} RowHasClaim(actions: seq<Action>, client: string) returns (k: nat)
    requires RowIn(actions, client).Some?
    ensures CameFrom(actions, k, RowIn(actions, client).value)
    decreases |actions|
  {
    assert actions != [];
    var before, a := actions[..|actions| - 1], actions[|actions| - 1];
    assert actions == before + [a];
    RowOfRun(before, a, client);
    if RowIn(before, client).Some? {
      k := RowHasClaim(before, client);
      StillCameFrom(before, a, k, RowIn(before, client).value, RowIn(actions, client).value);
    } else {
      k := |before|;
      ComesLast(before, a, RowIn(actions, client).value);
    }
  }

  /** Every row was made by one claim of the run, and still says what that claim asked for. */
  lemma RowsComeFromClaims(actions: seq<Action>, client: string) returns (k: nat)
    requires client in Run(INITIAL, actions).journal.submission
    ensures CameFrom(actions, k, Run(INITIAL, actions).journal.submission[client])
  {
    k := RowHasClaim(actions, client);
  }

  /** Every transport call sends what one claim of the run intended: its client id, its own fields
      for its own account, and its economic key. */
  lemma {:induction false} SendsComeFromClaims(actions: seq<Action>, i: nat) returns (k: nat)
    requires i < |Run(INITIAL, actions).sent|
    ensures k < |actions| && actions[k].Claim? && WriteOf(Run(INITIAL, actions[..k]), actions[k]).Insert?
    ensures var send := Run(INITIAL, actions).sent[i];
            && send.client == actions[k].intent.client
            && Carries(send.payload, actions[k].intent, actions[k].account)
            && KeyedBy(send.economic, actions[k].intent, actions[k].account)
  {
    RunKeepsInv(INITIAL, actions);
    var s := Run(INITIAL, actions);
    assert SentSound(s.journal, s.sent);
    k := RowsComeFromClaims(actions, s.sent[i].client);
  }

  /** When the callback is called, its claim is already committed: the row carries exactly
      the payload being sent and the audit log holds the claim. */
  lemma TransportOnlyAfterDurableClaim(actions: seq<Action>, a: Action)
    requires var s := Run(INITIAL, actions); Next(s, a).sent != s.sent
    ensures var s := Run(INITIAL, actions);
            && |Next(s, a).sent| == |s.sent| + 1
            && var send := Next(s, a).sent[|s.sent|];
               && send.client in s.journal.submission
               && s.journal.submission[send.client].payload == send.payload
               && s.journal.submission[send.client].economic == send.economic
               && AuditRow(send.client, Submitting, ClaimedAt(s.journal.submission[send.client].started)) in s.journal.audit
  {
    RunKeepsInv(INITIAL, actions);
    var s := Run(INITIAL, actions);
    assert SessionSound(s.journal, s.sent, SessionOf(s, a.p));
  }

  /** A claim is only ever made while no submission of its account is in doubt, and it never
      overwrites a row; no other action adds a row, and none removes one or changes its identity. */
  lemma ClaimNeedsQuietAccount(actions: seq<Action>, a: Action)
    ensures var s, t := Run(INITIAL, actions), Next(Run(INITIAL, actions), a);
            && (forall c :: c in s.journal.submission ==>
                  c in t.journal.submission &&
                  t.journal.submission[c].(state := s.journal.submission[c].state) == s.journal.submission[c])
            && s.journal.audit <= t.journal.audit
            && (forall c :: c in t.journal.submission && c !in s.journal.submission ==>
                  a.Claim? && a.intent.client == c && AccountQuiet(s.journal, t.journal.submission[c].account))
  {
    RunKeepsInv(INITIAL, actions);
    WritesAdmissible(Run(INITIAL, actions), a);
    ApplyShape(Run(INITIAL, actions).journal, WriteOf(Run(INITIAL, actions), a));
  }

  /** Audit row `k` is a recovery of `client` that proves its present state by evidence no
      older than its start and every marker in the log, all of which precede row `k`. */
  ghost predicate ProvedBy(j: Journal, client: string, k: nat)
    requires client in j.submission
  {
    && k < |j.audit|
    && j.audit[k].client == client
    && j.audit[k].state == j.submission[client].state
    && j.audit[k].note.Recovery?
    && j.audit[k].note.evidence.Some?
    && var ev := j.audit[k].note.evidence.value;
       && ev.consistent
       && ev.status == j.submission[client].state
       && j.submission[client].started <= ev.requestedAt <= ev.receivedAt <= ev.reconciledAt
       && j.submission[client].started <= ev.stateObservedAt <= ev.reconciledAt
       && j.submission[client].started <= ev.snapshotObservedAt <= ev.reconciledAt
       && (forall i | 0 <= i < |j.audit| && j.audit[i].client == client && j.audit[i].note.AmbiguousAt? ::
             i < k && j.audit[i].note.at <= ev.requestedAt && j.audit[i].note.at <= ev.stateObservedAt &&
             j.audit[i].note.at <= ev.snapshotObservedAt && j.audit[i].note.at <= ev.reconciledAt)
  }

  /** In every reachable state a resolved submission rests on verified evidence requested,
      observed and reconciled no earlier than its start and every ambiguity marker in the log. */
  lemma ResolvedOnlyByFreshEvidence(actions: seq<Action>, client: string)
    requires var j := Run(INITIAL, actions).journal;
             client in j.submission && !Unresolved(j.submission[client].state)
    ensures exists k :: ProvedBy(Run(INITIAL, actions).journal, client, k)
  {
    RunKeepsInv(INITIAL, actions);
    SoundIsProved(Run(INITIAL, actions).journal, client);
  }

  lemma SoundIsProved(j: Journal, client: string)
    requires client in j.submission && !Unresolved(j.submission[client].state) && ResolvedSound(j, client)
    ensures ProvedBy(j, client, AuditSequence(j.audit, client) - 1)
  {
  }

  /** An unresolved row becomes resolved only when a recovery commits a verified lookup whose
      cutoff is the boundary in force at that very commit. */
  lemma OnlyCommitResolves(actions: seq<Action>, a: Action, client: string)
    requires var s := Run(INITIAL, actions);
             && client in s.journal.submission && Unresolved(s.journal.submission[client].state)
             && client in Next(s, a).journal.submission && !Unresolved(Next(s, a).journal.submission[client].state)
    ensures a.Commit? && ProvedLookup(Run(INITIAL, actions), SessionOf(Run(INITIAL, actions), a.p), client)
  {
    RunKeepsInv(INITIAL, actions);
    NextResolves(Run(INITIAL, actions), a, client);
  }

  lemma NextResolves(s: System, a: Action, client: string)
    requires Inv(s) && client in s.journal.submission && Unresolved(s.journal.submission[client].state)
    requires client in Next(s, a).journal.submission && !Unresolved(Next(s, a).journal.submission[client].state)
    ensures a.Commit? && SessionOf(s, a.p).LookedUp?
    ensures ProvedLookup(s, SessionOf(s, a.p), client)
  {
    NextJournal(s, a);
    CommitResolves(s, a, client);
  }

  /** The lookup is of this client, verified, and judged at the boundary now in force. */
  ghost predicate ProvedLookup(s: System, w: Session, client: string)
    requires client in s.journal.submission
  {
    && w.LookedUp? && w.client == client && w.evidence.Some?
    && w.cutoff == Cutoff(s.journal.submission[client].started, s.journal.audit, client)
    && AuthorityVerified(w.evidence.value, w.cutoff)
  }

  lemma NextJournal(s: System, a: Action)
    ensures Next(s, a).journal == Apply(s.journal, WriteOf(s, a))
  {
  }

  lemma CommitResolves(s: System, a: Action, client: string)
    requires Inv(s) && client in s.journal.submission && Unresolved(s.journal.submission[client].state)
    requires var k := Apply(s.journal, WriteOf(s, a));
             client in k.submission && !Unresolved(k.submission[client].state)
    ensures a.Commit? && SessionOf(s, a.p).LookedUp? && ProvedLookup(s, SessionOf(s, a.p), client)
  {
    ResolvingWrite(s.journal, WriteOf(s, a), client);
    WritesAdmissible(s, a);
    CommitWrites(s, a);
  }

  /** A write that leaves an unresolved row resolved is an update of that row to a resolved state. */
  lemma ResolvingWrite(j: Journal, w: Write, client: string)
    requires client in j.submission && Unresolved(j.submission[client].state)
    requires client in Apply(j, w).submission && !Unresolved(Apply(j, w).submission[client].state)
    ensures w.Update? && w.client == client && !Unresolved(w.state)
  {
  }

  /** Only a commit of a lookup writes a resolved state. */
  lemma CommitWrites(s: System, a: Action)
    requires WriteOf(s, a).Update? && !Unresolved(WriteOf(s, a).state)
    ensures a.Commit? && SessionOf(s, a.p).LookedUp?
    ensures var w := SessionOf(s, a.p);
            && WriteOf(s, a) == Update(w.client, RecoveredState(w.cutoff, w.evidence), Recovery(w.cutoff, w.evidence))
            && w.evidence.Some?
  {
  }

  ghost predicate Recovering(w: Session) {
    w.ReadSequence? || w.ReadCutoff? || w.LookedUp?
  }

  /** The audit log only grows, so a client's sequence never falls. */
  lemma {:induction false} SequenceMonotone(s: System, actions: seq<Action>, client: string)
    requires Inv(s)
    ensures AuditSequence(s.journal.audit, client) <= AuditSequence(Run(s, actions).journal.audit, client)
    decreases |actions|
  {
    if actions != [] {
      var before, a := Run(s, actions[..|actions| - 1]), actions[|actions| - 1];
      SequenceMonotone(s, actions[..|actions| - 1], client);
      RunKeepsInv(s, actions[..|actions| - 1]);
      WritesAdmissible(before, a);
      var w := WriteOf(before, a);
      ApplyShape(before.journal, w);
      if !w.Keep? { AppendAudit(before.journal.audit, EntryOf(w), client, 0); }
    }
  }

  /** A recovery that read its generation before a CANCEL/REPLACE marker was committed can
      never write, whatever happens between the marker and its commit. */
  lemma StaleLookupNeverClears(actions: seq<Action>, p: nat, operation: Operation, at: int, later: seq<Action>)
    requires Recovering(SessionOf(Run(INITIAL, actions), p))
    requires CanMark(Run(INITIAL, actions).journal, SessionOf(Run(INITIAL, actions), p).client, operation, at)
    ensures var s := Run(INITIAL, actions);
            var w := SessionOf(s, p);
            var t := Run(Next(s, Mark(w.client, operation, at)), later);
            var v := SessionOf(t, p);
            v.LookedUp? && v.client == w.client && v.sequence == w.sequence ==>
              Next(t, Commit(p)).journal == t.journal
  {
    RunKeepsInv(INITIAL, actions);
    StaleWritesNothing(Run(INITIAL, actions), p, operation, at, later);
  }

  lemma StaleWritesNothing(s: System, p: nat, operation: Operation, at: int, later: seq<Action>)
    requires Inv(s) && Recovering(SessionOf(s, p)) && CanMark(s.journal, SessionOf(s, p).client, operation, at)
    ensures var w := SessionOf(s, p);
            var t := Run(Next(s, Mark(w.client, operation, at)), later);
            var v := SessionOf(t, p);
            v.LookedUp? && v.client == w.client && v.sequence == w.sequence ==> Next(t, Commit(p)).journal == t.journal
  {
    MarkOutdates(s, p, operation, at, later);
    var w := SessionOf(s, p);
    var t := Run(Next(s, Mark(w.client, operation, at)), later);
    var v := SessionOf(t, p);
    if v.LookedUp? && v.client == w.client && v.sequence == w.sequence { StaleCommit(t, p); }
  }

  lemma SequenceWithinLog(s: System, p: nat)
    requires Inv(s) && (SessionOf(s, p).ReadSequence? || SessionOf(s, p).ReadCutoff? || SessionOf(s, p).LookedUp?)
    ensures SessionOf(s, p).sequence <= |s.journal.audit|
  {
    assert SessionSound(s.journal, s.sent, SessionOf(s, p));
  }

  lemma MarkOutdates(s: System, p: nat, operation: Operation, at: int, later: seq<Action>)
    requires Inv(s) && Recovering(SessionOf(s, p)) && CanMark(s.journal, SessionOf(s, p).client, operation, at)
    ensures var w := SessionOf(s, p);
            w.sequence < AuditSequence(Run(Next(s, Mark(w.client, operation, at)), later).journal.audit, w.client)
  {
    var w := SessionOf(s, p);
    SequenceWithinLog(s, p);
    var marked := Next(s, Mark(w.client, operation, at));
    assert Inv(marked) by { NextKeepsInv(s, Mark(w.client, operation, at)); }
    MarkMovesOn(s, w.client, operation, at);
    SequenceMonotone(marked, later, w.client);
  }

  /** A marker takes the client's sequence to the end of the log. */
  lemma MarkMovesOn(s: System, client: string, operation: Operation, at: int)
    requires CanMark(s.journal, client, operation, at)
    ensures AuditSequence(Next(s, Mark(client, operation, at)).journal.audit, client) == |s.journal.audit| + 1
  {
    NextJournal(s, Mark(client, operation, at));
    AppendAudit(s.journal.audit, AuditRow(client, UnknownBrokerState, AmbiguousAt(at, operation)), client, 0);
  }

  /** A commit whose sequence has been overtaken writes nothing. */
  lemma StaleCommit(t: System, p: nat)
    requires SessionOf(t, p).LookedUp? && SessionOf(t, p).sequence < AuditSequence(t.journal.audit, SessionOf(t, p).client)
    ensures Next(t, Commit(p)).journal == t.journal
  {
    NextJournal(t, Commit(p));
  }

  // ------------------------------------------------- at most one doubt at a time?

  ghost predicate InDoubt(j: Journal, account: string, c: string) {
    c in j.submission && j.submission[c].account == account && Unresolved(j.submission[c].state)
  }

  /** Stronger than what a claim checks: no account ever has two submissions in doubt. */
  ghost predicate AtMostOneDoubt(j: Journal, account: string) {
    forall c, d :: InDoubt(j, account, c) && InDoubt(j, account, d) ==> c == d
  }

  /** The write puts a submission that was already resolved back in doubt while another of the
      same account is in doubt: a late response record, or a marker on a resolved row. */
  ghost predicate Reopens(j: Journal, w: Write, account: string) {
    && w.Update? && Unresolved(w.state)
    && w.client in j.submission && j.submission[w.client].account == account
    && !Unresolved(j.submission[w.client].state)
    && exists d :: InDoubt(j, account, d)
  }

  /** One doubt per account survives an action exactly when the action does not reopen. */
  lemma DoubtStaysSingleIff(actions: seq<Action>, a: Action, account: string)
    requires AtMostOneDoubt(Run(INITIAL, actions).journal, account)
    ensures AtMostOneDoubt(Next(Run(INITIAL, actions), a).journal, account) <==>
            !Reopens(Run(INITIAL, actions).journal, WriteOf(Run(INITIAL, actions), a), account)
  {
    RunKeepsInv(INITIAL, actions);
    var s := Run(INITIAL, actions);
    WritesAdmissible(s, a);
    if Reopens(s.journal, WriteOf(s, a), account) {
      ReopeningDoubles(s.journal, WriteOf(s, a), account);
    } else {
      OtherWritesKeepSingle(s.journal, WriteOf(s, a), account);
    }
  }

  lemma ReopeningDoubles(j: Journal, w: Write, account: string)
    requires Admissible(j, w) && Reopens(j, w, account)
    ensures !AtMostOneDoubt(Apply(j, w), account)
  {
    var d :| InDoubt(j, account, d);
    assert InDoubt(Apply(j, w), account, d) && InDoubt(Apply(j, w), account, w.client);
  }

  lemma OtherWritesKeepSingle(j: Journal, w: Write, account: string)
    requires Admissible(j, w) && AtMostOneDoubt(j, account) && !Reopens(j, w, account)
    ensures AtMostOneDoubt(Apply(j, w), account)
  {
    forall c, d | InDoubt(Apply(j, w), account, c) && InDoubt(Apply(j, w), account, d) ensures c == d {
      NewDoubt(j, w, account, c);
      NewDoubt(j, w, account, d);
    }
  }

  /** Only the client that is written can newly be in doubt, and then no other is. */
  lemma NewDoubt(j: Journal, w: Write, account: string, c: string)
    requires Admissible(j, w) && !Reopens(j, w, account) && InDoubt(Apply(j, w), account, c)
    ensures InDoubt(j, account, c) ||
            (!w.Keep? && EntryOf(w).client == c && forall d :: !InDoubt(j, account, d))
  {
    ApplyShape(j, w);
  }

  ghost predicate Reachable(s: System) {
    exists actions :: Run(INITIAL, actions) == s
  }

  lemma ReachableNext(s: System, a: Action)
    requires Reachable(s)
    ensures Reachable(Next(s, a))
  {
    var actions :| Run(INITIAL, actions) == s;
    RunOne(INITIAL, actions, a);
  }

  lemma RunOne(s: System, actions: seq<Action>, a: Action)
    ensures Run(s, actions + [a]) == Next(Run(s, actions), a)
  {
    assert (actions + [a])[..|actions|] == actions;
  }

  /** Two doubts of one account, for any two economic orders of it under different client ids. */
  lemma TwoDoubts(first: Intent, second: Intent, account: string)
    requires !Blank(account) && first.client != second.client && EconomicOf(first, account) != EconomicOf(second, account)
    ensures exists s :: Reachable(s) && !AtMostOneDoubt(s.journal, account)
  {
    var s := FirstSubmission(first, account);
    var ev := BrokerEvidence(Filled, 1, 1, 1, 1, 1, true);
    assert AuthorityVerified(ev, 0);
    var t := RecoverAlone(s, first.client, ev);
    assert SessionOf(t, 0) == SessionOf(s, 0) && SessionOf(t, 2) == SessionOf(s, 2);
    LateResponse(t, first, second, account);
  }

  /** It can fail: a first submission is recovered while its sender is still waiting, a second one is
      claimed into the now quiet account, and then the first sender records its late response. */
  lemma TwoDoubtsReachable()
    ensures exists s :: Reachable(s) && !AtMostOneDoubt(s.journal, "acct")
  {
    assert !Blank("acct") by { assert "acct"[0] == 'a'; }
    var first, second := Intent("a", "", "", "", "a", "", "", ""), Intent("b", "", "", "", "b", "", "", "");
    assert first.client[0] != second.client[0] && first.instrument[0] != second.instrument[0];
    TwoDoubts(first, second, "acct");
  }

  /** The journal holds one submission, just claimed. */
  ghost predicate JustClaimed(j: Journal, first: Intent, account: string) {
    && j.submission.Keys == {first.client}
    && j.audit == [AuditRow(first.client, Submitting, ClaimedAt(0))]
    && var row := j.submission[first.client];
       && row.account == account && row.state == Submitting && row.client == first.client && row.started == 0
       && row.economic == EconomicOf(first, account)
  }

  lemma FirstClaim(first: Intent, account: string) returns (s: System)
    requires !Blank(account)
    ensures Reachable(s) && JustClaimed(s.journal, first, account)
    ensures SessionOf(s, 0).Claimed? && SessionOf(s, 0).client == first.client && SessionOf(s, 1).Idle? && SessionOf(s, 2).Idle?
  {
    assert Run(INITIAL, []) == INITIAL;
    s := Next(INITIAL, Claim(0, first, account, 0, 9));
    ReachableNext(INITIAL, Claim(0, first, account, 0, 9));
  }

  lemma FirstSubmission(first: Intent, account: string) returns (s: System)
    requires !Blank(account)
    ensures Reachable(s) && SessionOf(s, 0) == Sent(first.client) && SessionOf(s, 1).Idle? && SessionOf(s, 2).Idle?
    ensures JustClaimed(s.journal, first, account) && Cutoff(0, s.journal.audit, first.client) == 0
  {
    var claimed := FirstClaim(first, account);
    ReachableNext(claimed, Transport(0));
    NextJournal(claimed, Transport(0));
    s := Next(claimed, Transport(0));
    assert s.journal.audit[..0] == [];
  }

  lemma LateResponse(s: System, first: Intent, second: Intent, account: string)
    requires Reachable(s) && SessionOf(s, 0) == Sent(first.client) && SessionOf(s, 2).Idle? && !Blank(account)
    requires first.client != second.client && s.journal.submission.Keys == {first.client}
    requires var row := s.journal.submission[first.client];
             && row.account == account && row.state == Filled && row.client == first.client
             && row.economic != EconomicOf(second, account)
    ensures exists s :: Reachable(s) && !AtMostOneDoubt(s.journal, account)
  {
    var t := Next(s, Claim(2, second, account, 2, 9));
    ReachableNext(s, Claim(2, second, account, 2, 9));
    assert CanClaim(s.journal, second, account, 2, 9);
    var u := Next(t, Respond(0, true));
    ReachableNext(t, Respond(0, true));
    assert InDoubt(u.journal, account, first.client) && InDoubt(u.journal, account, second.client);
  }

  /** Process 1 runs `recover` start to end without interference and the evidence is verified:
      exactly the one row is resolved and no other process moves. */
  lemma RecoverAlone(s: System, client: string, ev: BrokerEvidence) returns (t: System)
    requires Reachable(s) && SessionOf(s, 1).Idle?
    requires client in s.journal.submission && Unresolved(s.journal.submission[client].state)
    requires AuthorityVerified(ev, Cutoff(s.journal.submission[client].started, s.journal.audit, client))
    ensures Reachable(t)
    ensures t.journal.submission == s.journal.submission[client := s.journal.submission[client].(state := ev.status)]
    ensures forall p :: p != 1 ==> SessionOf(t, p) == SessionOf(s, p)
  {
    t := LookAlone(s, client, ev);
    ReachableNext(t, Commit(1));
    t := Next(t, Commit(1));
  }

  lemma LookAlone(s: System, client: string, ev: BrokerEvidence) returns (t: System)
    requires Reachable(s) && SessionOf(s, 1).Idle?
    requires client in s.journal.submission && Unresolved(s.journal.submission[client].state)
    ensures Reachable(t) && t.journal == s.journal
    ensures var row := s.journal.submission[client];
            SessionOf(t, 1) == LookedUp(client, row.state, row.started, AuditSequence(s.journal.audit, client),
                                        Cutoff(row.started, s.journal.audit, client), Some(ev))
    ensures forall p :: p != 1 ==> SessionOf(t, p) == SessionOf(s, p)
  {
    t := s;
    ReachableNext(t, ReadRowOf(1, client));
    t := Next(t, ReadRowOf(1, client));
    ReachableNext(t, ReadSequenceOf(1));
    t := Next(t, ReadSequenceOf(1));
    ReachableNext(t, ReadCutoffOf(1));
    t := Next(t, ReadCutoffOf(1));
    ReachableNext(t, Lookup(1, Some(ev)));
    t := Next(t, Lookup(1, Some(ev)));
  }
}
