/**
 The durable submission journal: a submission row is claimed and committed before
 the one permitted transport call, and only a verified recovery resolves it.

 Part one is the journal itself (`SubmissionJournal` and the value-level steps it
 is specified by).  Part two, module `SubmissionRuns`, lets those database steps,
 the transport calls and crashes of any number of processes interleave freely.
 */
module Submission {
  import opened Common

  datatype State =
    | Submitting | UnknownBrokerState
    | Acknowledged | Open | PartiallyFilled | Filled | Canceled | Rejected

  /** Why a call raises; one name for each of the source's messages. */
  datatype Refusal =
    | EconomicOrderConflict | AccountSubmissionUnresolved | SubmissionPayloadCorrupt | SubmissionInputInvalid
    | RecoveryOperationTimeInvalid | RecoveryOperationInvalid | SubmissionNotFound

  predicate Unresolved(s: State) { s.Submitting? || s.UnknownBrokerState? }

  /** The order intent, reduced to the fields the journal reads. */
  datatype Intent = Intent(client: string, orderIntentId: string, runId: string, targetId: string,
                           instrument: string, side: string, quantity: string, rest: string)

  /** The canonical JSON of the payload; `rest` stands for the fields the journal never reads. */
  datatype Payload = Payload(account: string, client: string, orderIntentId: string,
                             instrument: string, side: string, quantity: string, rest: string)

  /** SHA-256 digests are taken to be injective, so they are constructors here. */
  datatype EconomicKey = EconomicKey(account: string, runId: string, targetId: string,
                                     instrument: string, side: string)
  datatype PayloadHash = PayloadHash(of: Payload)

  datatype Row = Row(client: string, economic: EconomicKey, account: string, payload: Payload,
                     payloadHash: PayloadHash, started: int, expires: int, state: State)

  datatype Operation = Cancel | Replace | BootRecovery | OtherOperation

  /** What a lookup brings back.  `consistent` stands for the identity and ledger
      queries against the append-only authority; the freshness rules are spelled out. */
  datatype BrokerEvidence = BrokerEvidence(status: State, requestedAt: int, receivedAt: int,
                                           stateObservedAt: int, snapshotObservedAt: int,
                                           reconciledAt: int, consistent: bool)

  datatype Note =
    | ClaimedAt(at: int)
    | Response(delivered: bool)
    | AmbiguousAt(at: int, operation: Operation)
    | Recovery(cutoff: int, evidence: Option<BrokerEvidence>)

  datatype AuditRow = AuditRow(client: string, state: State, note: Note)

  /** The two tables.  An audit row's AUTOINCREMENT sequence number is its index plus one. */
  datatype Journal = Journal(submission: map<string, Row>, audit: seq<AuditRow>)

  function PayloadOf(intent: Intent, account: string): Payload {
    Payload(account, intent.client, intent.orderIntentId, intent.instrument, intent.side,
            intent.quantity, intent.rest)
  }

  function EconomicOf(intent: Intent, account: string): EconomicKey {
    EconomicKey(account, intent.runId, intent.targetId, intent.instrument, intent.side)
  }

  /** The payload says what the intent says, field by field, for this account. */
  ghost predicate Carries(payload: Payload, intent: Intent, account: string) {
    && payload.account == account && payload.client == intent.client
    && payload.orderIntentId == intent.orderIntentId && payload.instrument == intent.instrument
    && payload.side == intent.side && payload.quantity == intent.quantity && payload.rest == intent.rest
  }

  ghost predicate KeyedBy(key: EconomicKey, intent: Intent, account: string) {
    && key.account == account && key.runId == intent.runId && key.targetId == intent.targetId
    && key.instrument == intent.instrument && key.side == intent.side
  }

  /** The row is the one a claim of this intent makes, whatever state it has reached since. */
  ghost predicate Records(row: Row, intent: Intent, account: string, at: int, expires: int) {
    && row.client == intent.client && row.account == account && row.started == at && row.expires == expires
    && Carries(row.payload, intent, account) && row.payloadHash == PayloadHash(row.payload)
    && KeyedBy(row.economic, intent, account)
  }

  /** Two intents are one economic order exactly when account, run, target, instrument and side agree. */
  lemma SameOrderIff(i: Intent, a: string, k: Intent, b: string)
    ensures EconomicOf(i, a) == EconomicOf(k, b) <==>
            a == b && i.runId == k.runId && i.targetId == k.targetId && i.instrument == k.instrument && i.side == k.side
  {
  }

  /** The sequence number of the client's latest audit row, zero without one. */
  function AuditSequence(audit: seq<AuditRow>, client: string): (n: nat)
    ensures n <= |audit|
    ensures n > 0 ==> audit[n - 1].client == client
    ensures forall i :: n <= i < |audit| ==> audit[i].client != client
  {
    if audit == [] then 0
    else if audit[|audit| - 1].client == client then |audit|
    else AuditSequence(audit[..|audit| - 1], client)
  }

  /** Newest durable ambiguity boundary: the latest of the start time and every marker. */
  function Cutoff(started: int, audit: seq<AuditRow>, client: string): (c: int)
    ensures c >= started
    ensures forall i | 0 <= i < |audit| && audit[i].client == client && audit[i].note.AmbiguousAt? ::
              audit[i].note.at <= c
    ensures c == started ||
            exists i :: 0 <= i < |audit| && audit[i].client == client && audit[i].note.AmbiguousAt? &&
                        audit[i].note.at == c
  {
    if audit == [] then started
    else
      var last := audit[|audit| - 1];
      var c := Cutoff(started, audit[..|audit| - 1], client);
      if last.client == client && last.note.AmbiguousAt? && last.note.at > c then last.note.at else c
  }

  /** The row is a marker of the client later than the boundary. */
  predicate MarksAfter(row: AuditRow, client: string, boundary: int) {
    row.client == client && row.note.AmbiguousAt? && row.note.at > boundary
  }

  lemma CutoffOne(started: int, audit: seq<AuditRow>, i: nat, client: string)
    requires i < |audit|
    ensures var before := Cutoff(started, audit[..i], client);
            Cutoff(started, audit[..i + 1], client) == if MarksAfter(audit[i], client, before) then audit[i].note.at else before
  {
    assert audit[..i + 1][..i] == audit[..i];
  }

  predicate AuthorityVerified(ev: BrokerEvidence, cutoff: int) {
    && ev.consistent
    && !Unresolved(ev.status)
    && cutoff <= ev.requestedAt <= ev.receivedAt
    && cutoff <= ev.stateObservedAt
    && cutoff <= ev.snapshotObservedAt
    && Max(Max(cutoff, ev.receivedAt), Max(ev.stateObservedAt, ev.snapshotObservedAt)) <= ev.reconciledAt
  }

  /** Evidence proves a resolved state when the ledger agrees, the lookup was asked and everything observed at or after the
      boundary, and the reconciliation came after all of it. */
  ghost predicate Proves(ev: BrokerEvidence, cutoff: int) {
    && ev.consistent && ev.status != Submitting && ev.status != UnknownBrokerState
    && cutoff <= ev.requestedAt <= ev.receivedAt <= ev.reconciledAt
    && cutoff <= ev.stateObservedAt <= ev.reconciledAt
    && cutoff <= ev.snapshotObservedAt <= ev.reconciledAt
  }

  lemma VerifiedProves(ev: BrokerEvidence, cutoff: int)
    ensures AuthorityVerified(ev, cutoff) <==> Proves(ev, cutoff)
  {
  }

  /** `_record`: update the state column and append one audit row. */
  function Record(j: Journal, client: string, state: State, note: Note): Journal {
    Journal(if client in j.submission
            then j.submission[client := j.submission[client].(state := state)] else j.submission,
            j.audit + [AuditRow(client, state, note)])
  }

  predicate Matches(row: Row, intent: Intent, account: string) {
    row.client == intent.client || row.economic == EconomicOf(intent, account)
  }

  /** No submission of this account is in doubt. */
  predicate AccountQuiet(j: Journal, account: string) {
    forall c | c in j.submission && j.submission[c].account == account ::
      !Unresolved(j.submission[c].state)
  }

  /** The intent's own row holds exactly this payload. */
  predicate Repeats(j: Journal, intent: Intent, account: string) {
    intent.client in j.submission && j.submission[intent.client].payload == PayloadOf(intent, account)
  }

  /** Some row already has the client id or the economic key. */
  predicate Taken(j: Journal, intent: Intent, account: string) {
    exists c :: c in j.submission && Matches(j.submission[c], intent, account)
  }

  /** No row but the client's own has its economic key. */
  predicate OwnKey(j: Journal, intent: Intent, account: string) {
    forall c :: c in j.submission && Matches(j.submission[c], intent, account) ==> c == intent.client
  }

  predicate InputValid(account: string, at: int, expires: int) {
    !Blank(account) && at < expires
  }

  predicate CanClaim(j: Journal, intent: Intent, account: string, at: int, expires: int) {
    && InputValid(account, at, expires)
    && (forall c :: c in j.submission ==> !Matches(j.submission[c], intent, account))
    && AccountQuiet(j, account)
  }

  /** What a claim needs, row by row: a named account, time left, no row with its client id or its account, run, target,
      instrument and side, and no row of its account still submitting or unknown. */
  ghost predicate FreeToClaim(j: Journal, intent: Intent, account: string, at: int, expires: int) {
    && !Blank(account) && at < expires
    && forall c :: c in j.submission ==>
         && j.submission[c].client != intent.client && !KeyedBy(j.submission[c].economic, intent, account)
         && (j.submission[c].account == account ==> j.submission[c].state !in {Submitting, UnknownBrokerState})
  }

  lemma ClaimsWhenFree(j: Journal, intent: Intent, account: string, at: int, expires: int)
    ensures CanClaim(j, intent, account, at, expires) <==> FreeToClaim(j, intent, account, at, expires)
  {
    forall c | c in j.submission
      ensures Matches(j.submission[c], intent, account) <==>
              j.submission[c].client == intent.client || KeyedBy(j.submission[c].economic, intent, account)
    {
    }
  }

  function ClaimStep(j: Journal, intent: Intent, account: string, at: int, expires: int): Journal {
    var payload := PayloadOf(intent, account);
    var row := Row(intent.client, EconomicOf(intent, account), account, payload, PayloadHash(payload),
                   at, expires, Submitting);
    Record(j.(submission := j.submission[intent.client := row]), intent.client, Submitting, ClaimedAt(at))
  }

  predicate CanMark(j: Journal, client: string, operation: Operation, at: int) {
    && !operation.OtherOperation?
    && client in j.submission
    && Cutoff(j.submission[client].started, j.audit, client) <= at
  }

  function MarkStep(j: Journal, client: string, operation: Operation, at: int): Journal {
    Record(j, client, UnknownBrokerState, AmbiguousAt(at, operation))
  }

  /** What one lookup, judged at `cutoff`, will ask the commit to write. */
  function RecoveredState(cutoff: int, evidence: Option<BrokerEvidence>): State {
    if evidence.Some? && AuthorityVerified(evidence.value, cutoff) then evidence.value.status
    else UnknownBrokerState
  }

  /** Recovery's final transaction: nothing is written unless neither the state
      nor the audit generation has moved since they were read. */
  predicate CanCommit(j: Journal, client: string, seen: State, sequence: nat) {
    && client in j.submission
    && j.submission[client].state == seen
    && AuditSequence(j.audit, client) == sequence
  }

  function CommitStep(j: Journal, client: string, seen: State, sequence: nat, cutoff: int,
                      evidence: Option<BrokerEvidence>): Journal
  {
    if CanCommit(j, client, seen, sequence)
    then Record(j, client, RecoveredState(cutoff, evidence), Recovery(cutoff, evidence))
    else j
  }

  datatype ClaimResult =
    | Claimed(payload: Payload)
    | AlreadyRecorded(state: State)
    | Refused(reason: Refusal)

  /** The journal as the source writes it: two tables changed inside transactions. */
  class SubmissionJournal {
    var submission: map<string, Row>
    var audit: seq<AuditRow>

    ghost function View(): Journal
      reads this
    {
      Journal(submission, audit)
    }

    /** Every stored payload still matches its hash; rows sit under their own client id. */
    ghost predicate Valid()
      reads this
    {
      forall c :: c in submission ==>
        submission[c].client == c && submission[c].payloadHash == PayloadHash(submission[c].payload)
    }

    constructor ()
      ensures Valid() && View() == Journal(map[], [])
    {
      submission, audit := map[], [];
    }

    method RecordState(client: string, state: State, note: Note)
      requires Valid()
      modifies this
      ensures Valid() && View() == Record(old(View()), client, state, note)
    {
      if client in submission {
        submission := submission[client := submission[client].(state := state)];
      }
      audit := audit + [AuditRow(client, state, note)];
    }

    /** The first transaction of `submit_once`. */
    method Claim(intent: Intent, account: string, at: int, expires: int) returns (r: ClaimResult)
      requires Valid()
      modifies this
      ensures Valid()
      ensures r.Claimed? <==> CanClaim(old(View()), intent, account, at, expires)
      ensures r.Claimed? <==> FreeToClaim(old(View()), intent, account, at, expires)
      ensures r.Claimed? ==> r.payload == PayloadOf(intent, account) &&
                             View() == ClaimStep(old(View()), intent, account, at, expires)
      ensures r.Claimed? ==>
                && Carries(r.payload, intent, account)
                && intent.client in submission && Records(submission[intent.client], intent, account, at, expires)
                && submission[intent.client].state == Submitting
                && submission == old(submission)[intent.client := submission[intent.client]]
                && audit == old(audit) + [AuditRow(intent.client, Submitting, ClaimedAt(at))]
      ensures !r.Claimed? ==> View() == old(View())
      ensures r.AlreadyRecorded? ==>
                Repeats(View(), intent, account) && submission[intent.client].state == r.state
      ensures InputValid(account, at, expires) && Repeats(old(View()), intent, account) && OwnKey(old(View()), intent, account) ==>
                r == AlreadyRecorded(submission[intent.client].state)
      ensures InputValid(account, at, expires) && Taken(old(View()), intent, account) && !Repeats(old(View()), intent, account) ==>
                r == Refused(EconomicOrderConflict)
      ensures InputValid(account, at, expires) && !Taken(old(View()), intent, account) && !AccountQuiet(old(View()), account) ==>
                r == Refused(AccountSubmissionUnresolved)
      ensures r == Refused(AccountSubmissionUnresolved) ==> !AccountQuiet(View(), account)
      ensures r != Refused(SubmissionPayloadCorrupt)
    {
      ClaimsWhenFree(View(), intent, account, at, expires);
      if Blank(account) || at >= expires {
        return Refused(SubmissionInputInvalid);
      }
      var payload := PayloadOf(intent, account);
      if exists c :: c in submission && Matches(submission[c], intent, account) {
        var c :| c in submission && Matches(submission[c], intent, account);
        var row := submission[c];
        if row.payloadHash != PayloadHash(row.payload) {
          return Refused(SubmissionPayloadCorrupt);
        }
        if row.client != intent.client || row.payload != payload {
          return Refused(EconomicOrderConflict);
        }
        return AlreadyRecorded(row.state);
      }
      if exists c :: c in submission && submission[c].account == account && Unresolved(submission[c].state) {
        return Refused(AccountSubmissionUnresolved);
      }
      submission := submission[intent.client :=
        Row(intent.client, EconomicOf(intent, account), account, payload, PayloadHash(payload),
            at, expires, Submitting)];
      RecordState(intent.client, Submitting, ClaimedAt(at));
      r := Claimed(payload);
    }

    /** `submit_once` run without interference: `delivered` is what the transport did, and
        `sent` is the payload handed to it, if it was called at all. */
    method SubmitOnce(intent: Intent, account: string, at: int, expires: int, delivered: bool)
      returns (r: ClaimResult, sent: Option<Payload>)
      requires Valid()
      modifies this
      ensures Valid()
      ensures sent.Some? <==> CanClaim(old(View()), intent, account, at, expires)
      ensures sent.Some? ==>
                && Carries(sent.value, intent, account)
                && r == AlreadyRecorded(UnknownBrokerState)
                && intent.client in submission && Records(submission[intent.client], intent, account, at, expires)
                && submission[intent.client].state == UnknownBrokerState
                && submission == old(submission)[intent.client := submission[intent.client]]
                && audit == old(audit) + [AuditRow(intent.client, Submitting, ClaimedAt(at)),
                                          AuditRow(intent.client, UnknownBrokerState, Response(delivered))]
                && View() == Record(ClaimStep(old(View()), intent, account, at, expires), intent.client,
                                    UnknownBrokerState, Response(delivered))
      ensures sent.None? ==> View() == old(View()) && !r.Claimed?
    {
      r := Claim(intent, account, at, expires);
      sent := None;
      if r.Claimed? {
        sent := Some(r.payload);
        RecordState(intent.client, UnknownBrokerState, Response(delivered));
        r := AlreadyRecorded(UnknownBrokerState);
      }
    }

    /** The loop of `_recovery_cutoff`, newest audit row first. */
    method RecoveryCutoff(client: string, started: int) returns (cutoff: int)
      ensures cutoff == Cutoff(started, audit, client)
    {
      cutoff := started;
      var i := |audit|;
      assert audit[..i] == audit;
      while i > 0
        invariant 0 <= i <= |audit| && cutoff >= started
        invariant Max(cutoff, Cutoff(started, audit[..i], client)) == Cutoff(started, audit, client)
      {
        i := i - 1;
        CutoffOne(started, audit, i, client);
        if MarksAfter(audit[i], client, cutoff) { cutoff := audit[i].note.at; }
      }
    }

    method MarkAmbiguous(client: string, operation: Operation, at: int) returns (r: Result<State, Refusal>)
      requires Valid()
      modifies this
      ensures Valid()
      ensures r.Ok? <==> CanMark(old(View()), client, operation, at)
      ensures View() == if r.Ok? then MarkStep(old(View()), client, operation, at) else old(View())
      ensures r.Ok? ==>
                && operation in {Cancel, Replace, BootRecovery} && client in submission && submission[client].started <= at
                && (forall i | 0 <= i < |old(audit)| && old(audit)[i].client == client && old(audit)[i].note.AmbiguousAt? ::
                      old(audit)[i].note.at <= at)
                && submission[client].state == UnknownBrokerState
                && audit == old(audit) + [AuditRow(client, UnknownBrokerState, AmbiguousAt(at, operation))]
      ensures r == Err(RecoveryOperationTimeInvalid) ==>
                client in submission && at < Cutoff(submission[client].started, audit, client)
    {
      if operation.OtherOperation? { return Err(RecoveryOperationInvalid); }
      if client !in submission { return Err(SubmissionNotFound); }
      var cutoff := RecoveryCutoff(client, submission[client].started);
      if at < cutoff { return Err(RecoveryOperationTimeInvalid); }
      RecordState(client, UnknownBrokerState, AmbiguousAt(at, operation));
      r := Ok(UnknownBrokerState);
    }

    /** The transaction that ends `recover`. */
    method RecoverCommit(client: string, seen: State, sequence: nat, cutoff: int,
                         evidence: Option<BrokerEvidence>) returns (r: Result<State, Refusal>)
      requires Valid()
      modifies this
      ensures Valid()
      ensures View() == CommitStep(old(View()), client, seen, sequence, cutoff, evidence)
      ensures r.Ok? <==> client in submission
      ensures r.Ok? ==> r.value == submission[client].state
      ensures CanCommit(old(View()), client, seen, sequence) ==>
                && client in submission && audit == old(audit) + [AuditRow(client, submission[client].state, Recovery(cutoff, evidence))]
                && submission[client].state ==
                   (if evidence.Some? && Proves(evidence.value, cutoff) then evidence.value.status else UnknownBrokerState)
    {
      if client !in submission { return Err(SubmissionNotFound); }
      if evidence.Some? { VerifiedProves(evidence.value, cutoff); }
      if submission[client].state != seen || AuditSequence(audit, client) != sequence {
        return Ok(submission[client].state);
      }
      var state := UnknownBrokerState;
      if evidence.Some? && AuthorityVerified(evidence.value, cutoff) {
        state := evidence.value.status;
      }
      RecordState(client, state, Recovery(cutoff, evidence));
      r := Ok(state);
    }
  }
}
