# Verification of a fail-closed trading core

This project models the state machines, append-only ledgers and expression language of an asset-management
repository in Dafny, and proves what they keep over whole runs. Code that changes state is a class or a method
with loops, proved against a specification function on values; code made of expressions is functions. The main
results are lemmas over every run, every reachable state, every expression or every response.

| component | files | main results |
|---|---|---|
| Durable submission | `Submission`, `SubmissionRuns` | every interleaving of claims, transports, responses, markers, recoveries and crashes sends at most once; a submission is resolved only by evidence fresher than every marker; what is sent and stored is what one claim intended, field by field; when one doubt per account survives |
| Paper broker | `PaperBroker`, `PaperRuns` | solvency, acceptance exactly within it, balances as opening plus bought and sold, limits, idempotence over every run |
| Execution ledger | `Tables`, `OrderStates`, `Executions`, `LedgerStore`, `LedgerRuns`, `LedgerReplay`, `Reservations` | exactly-once posting, with its signs, over every observation sequence; the replay validators accept everything the writers store, and what acceptance means for any stored tables; exactly which steps leave an ended order holding cash or shares |
| Expression language | `Operators`, `TimeLoops`, `RankMeaning`, `ColumnMeaning`, `OperatorMeaning`, `Dsl`, `DslTyping`, `DslWindows` | no expression looks ahead; every evaluated call is what its operator promises of its arguments' values; exactly when an expression fails on a history of given length; type soundness and where it fails; additive warm-up |
| Capping and simulation | `Sums`, `Truncation`, `History`, `HistoryBounds`, `HistoryMeaning` | the capping loop is one water level over the caller's values; every simulated point in terms of its own session's data; gross and weight bounds after delay and decay; prefix stability |
| Governed history and lineage | `ModelRegistry`, `ModelSnapshot`, `Vintages`, `ReceiptAudit` | snapshot round trip and its converse; lifecycle as of an instant; vintage intervals; closure of invalidity |
| Targets, orders, schedules | `Governor`, `Authority`, `Rounding`, `Planner`, `Allocation`, `Scheduling` | monotone risk decisions carried through to holdings; orders move toward the target without passing it; schedules conserve the parent |
| Rate limiting | `RateLimit`, `PriorityQueue`, `FairQueue` | the rate bound over every run; exact waits; no overtaking; exactly who can be served, and who is served by every fair run |

Exceptions are values (`Result`, `Option` or a refusal constructor). Decimal and floating-point numbers are exact
reals, so context precision, rounding, overflow and NaN are abstracted. Dates and instants are integers (days and
microseconds). A digest is the value it digests, so it is injective; generated identifiers are fresh. Each SQL table
is a sequence or a map and each transaction or savepoint one atomic step. Clock readings, broker lookups, resolver
data and settlement evidence are parameters. The square root is an arbitrary function; only the results about deviations and scores assume that it is one.

## Where the code and a plausible reading of it differ

- One doubt per account is checked at each claim but is not an invariant: `TwoDoubtsReachable` gives a run in which a
  late response puts an already recovered submission back in doubt while another is in doubt, and
  `DoubtStaysSingleIff` says exactly which writes break it.
- Validation alone does not make an expression sound: a hand-built group-field node that carries a data field's name
  is accepted as a panel (`ValidatedButUnsound`). Leaves that agree with the declared fields are enough, and needed
  where no name is both a data and a group field (`SoundIffLeavesAgree`); compiled expressions always meet it
  (`CompiledEvaluates`).
- Values never depend on later periods, but failure can: a fractional window, which validation refuses, is noticed
  only once the history is long enough to use it (`ShortHistoryHidesFailure`). `EvaluatesIffWindowsAnswer` says exactly
  when an expression, typed in all but its window values, evaluates on a history of given length, and
  `FailureHiddenIff` exactly when it evaluates on the first periods and fails on all: every window answers at the
  shorter length and some window does not at the longer. Accepted expressions evaluate on every history
  (`AcceptedNeverLooksAhead`).
- A contender of the priority bucket whose request is larger than the bucket, or not positive, is never served and
  holds back everyone behind it. `ServedIff` and `DrainsIff` say exactly who can still be served and when the queue can
  empty, `FairlyServedIff` and `FairlyDrainedIff` who is served and when it empties in every fair run, and
  `BlockedContestReachable` gives a run that blocks for ever.
- Without a minimum quantity or notional that drops the order, a difference below one lot or a price below one tick
  refuses the whole plan, first or repeated. `PlanUnconstructibleIff` is the exact condition and
  `SubLotRemainderRefused` a plan in which it happens.
- Reservations are released by observations only: an order ended by an internal event keeps what it holds, and one may
  still be reserved for after it has ended. `StepStrandsIff` says exactly which steps do so, `StuckReachable` gives a
  run, and `ReservationsAcceptedIff` says when the replay check accepts.
- The not-yet-validated refusal of model authorization cannot be given in a reachable registry, nor can the
  invalid-history error (`NeverHistoryInvalid`).

## Model

| member | source | states |
|---|---|---|
| Submission.SubmissionJournal.Claim | src/asset_management/execution/submission.py:64-90 | a claim succeeds exactly when input, economic key and a quiet account allow it, stores the payload and its audit row, and otherwise changes nothing; the client's own row with the same payload is answered with its recorded state, a taken id or key with anything else is the economic conflict, and a doubtful account is refused; the corrupt-payload refusal never occurs |
| Submission.SubmissionJournal.SubmitOnce | src/asset_management/execution/submission.py:64-106 | exactly when the claim was made, the transport is handed the client, intent id, instrument, side, quantity and other fields of the intent itself for its account; the row stored says the same, and every outcome leaves the submission in doubt |
| Submission.SameOrderIff | src/asset_management/execution/submission.py:75-80 | two intents have one economic key if and only if account, run, target, instrument and side agree |
| Submission.SubmissionJournal.RecoveryCutoff | src/asset_management/execution/submission.py:133-150 | the loop over audit rows yields the latest of the start and this client's ambiguity markers |
| Submission.SubmissionJournal.MarkAmbiguous | src/asset_management/execution/submission.py:108-126 | a marker is recorded exactly for a known operation on a known submission not earlier than its cutoff, and otherwise nothing changes |
| Submission.SubmissionJournal.RecoverCommit | src/asset_management/execution/submission.py:257-296 | the commit writes only if state and audit sequence are still those read; then the state is that of evidence asked, observed and reconciled at or after the cutoff, in that order, and otherwise unknown |
| SubmissionRuns.AppendAudit | src/asset_management/execution/submission.py:128-150 | one more audit row moves its own client's sequence and leaves every other client's sequence and cutoff alone |
| SubmissionRuns.WritesAdmissible | src/asset_management/execution/submission.py:64-126 | in a sound state every action's write is a claim under fresh keys into a quiet account, an unresolved state, or a state proved by a fresh recovery |
| SubmissionRuns.RunKeepsInv | src/asset_management/execution/submission.py:36-44 | row identity, economic-key uniqueness, evidence behind resolved rows, and every process's standing survive any interleaving with crashes |
| SubmissionRuns.TransportAtMostOnce | src/asset_management/execution/submission.py:64-106 | over every run no two transport calls share a client id or an economic key |
| SubmissionRuns.TransportOnlyAfterDurableClaim | src/asset_management/execution/submission.py:64-106 | whenever the transport is called, the row with exactly that payload and its claim in the audit log are already committed |
| SubmissionRuns.RowsComeFromClaims | src/asset_management/execution/submission.py:64-90 | every row of every run was inserted by one claim and still says, field by field, what that claim asked for |
| SubmissionRuns.SendsComeFromClaims | src/asset_management/execution/submission.py:64-106 | every transport call of every run has the client id, the fields and the economic key of one claim of the run that was made |
| SubmissionRuns.ClaimNeedsQuietAccount | src/asset_management/execution/submission.py:36-90 | rows are added only by a claim made while no submission of the account is in doubt; no row is removed or changes identity and the audit log only grows |
| SubmissionRuns.ResolvedOnlyByFreshEvidence | src/asset_management/execution/submission.py:133-296 | every resolved row rests on a logged recovery whose evidence is not older than its start and every marker, all of which precede that recovery |
| SubmissionRuns.OnlyCommitResolves | src/asset_management/execution/submission.py:257-296 | an unresolved row becomes resolved only at a commit of a verified lookup whose cutoff is the one in force at that commit |
| SubmissionRuns.SequenceMonotone | src/asset_management/execution/submission.py:128-131 | a client's audit sequence never falls |
| SubmissionRuns.StaleLookupNeverClears | src/asset_management/execution/submission.py:108-131 | a recovery that read its sequence before a CANCEL or REPLACE marker never writes, whatever happens in between |
| SubmissionRuns.DoubtStaysSingleIff | src/asset_management/execution/submission.py:50-126 | at most one submission in doubt per account survives an action if and only if the action does not reopen a resolved row beside another in doubt |
| SubmissionRuns.TwoDoubtsReachable | src/asset_management/execution/submission.py:92-106 | a reachable state with two submissions of one account in doubt |
| PaperBroker.PersistentPaperBroker.Init | src/asset_management/execution/paper.py:66-80 | initialization succeeds once, or again with equal figures, and never alters an existing account |
| PaperBroker.PersistentPaperBroker.Reserved | src/asset_management/execution/paper.py:82-97 | the loop computes the cash and per-instrument shares that open orders hold back |
| PaperBroker.PersistentPaperBroker.SubmitOrder | src/asset_management/execution/paper.py:99-135 | an order is accepted exactly when its reserves are free, a recorded one is returned unchanged, and anything else leaves the document alone |
| PaperBroker.PersistentPaperBroker.CancelOrder | src/asset_management/execution/paper.py:148-157 | a cancel closes an open order and returns a closed one as it is |
| PaperBroker.PersistentPaperBroker.FillOrder | src/asset_management/execution/paper.py:166-196 | a fill is applied exactly when it fits an open order: a buy pays quantity times price and the fee and adds the shares, a sell receives that less the fee and gives them up, and no other position moves; a recorded one is returned unchanged |
| PaperRuns.UpdateOrder | src/asset_management/execution/paper.py:82-97 | replacing one order changes the reserves by exactly the difference of what it holds |
| PaperRuns.FillFreesEnough | src/asset_management/execution/paper.py:172-196 | a fill, price improvement and sell fees included, never uses more cash or shares than its order stops holding |
| PaperRuns.HoldIsWorstFill | src/asset_management/execution/paper.py:82-97 | an open order holds back exactly what filling the rest at its limit for its whole fee would use, and after that fill nothing |
| PaperRuns.FillKeepsConserved | src/asset_management/execution/paper.py:172-196 | a fill keeps cash at the opening less what buys cost plus what sells brought less fees, positions at the opening plus bought less sold shares, and each order's progress at the sum of its fills |
| PaperRuns.RunKeepsInv | src/asset_management/execution/paper.py:66-196 | solvency, conservation, uniqueness of ids and FILLED exactly when filled equals ordered hold after every run |
| PaperRuns.BalancesAreFills | src/asset_management/execution/paper.py:172-196 | after every run cash is the opening less quantity times price of all buy fills plus that of all sell fills less all fees, and a position is the opening plus bought less sold quantity |
| PaperRuns.AcceptedIffSolvent | src/asset_management/execution/paper.py:99-135 | in every reachable document a valid request under a new identity becomes an order exactly when the account stays solvent with it |
| PaperRuns.FillsWithinLimits | src/asset_management/execution/paper.py:166-196 | every fill of every run buys no higher and sells no lower than its order's limit |
| PaperRuns.NeverNegative | src/asset_management/execution/paper.py:99-196 | cash and every position are never negative |
| PaperRuns.RepeatChangesNothing | src/asset_management/execution/paper.py:66-196 | an accepted request repeated at any later time, after any other actions, changes nothing |
| PaperRuns.RepeatIsAnswered | src/asset_management/execution/paper.py:66-196 | an answered request repeated at any later time, after any other actions, is answered again, with the recorded order, the closed order or the recorded fill |
| OrderStates.TerminalAbsorbs | src/asset_management/account/orders.py:42-99 | in a valid stream nothing follows a terminal state but that state |
| OrderStates.UnknownNeedsReview | src/asset_management/account/orders.py:42-99 | UNKNOWN is left only through REVIEW_REQUIRED |
| OrderStates.PartialFillNeverForgotten | src/asset_management/account/orders.py:42-99 | after PARTIALLY_FILLED none of ACKNOWLEDGED, OPEN, REJECTED recurs without REVIEW_REQUIRED in between |
| OrderStates.AllowedAfter | src/asset_management/account/orders.py:42-99 | the states each state may follow |
| OrderStates.NormalizedFrom | src/asset_management/account/orders.py:23-40 | the broker words behind each state |
| LedgerRuns.DecideStateMeaning | src/asset_management/account/orders.py:136-188 | on a sound stream an event is inserted exactly when its response is new, an internal stream starts as it may and the longer stream is sound again; it is a repeat exactly when the latest event is the first with that response and says the same |
| LedgerStore.LedgerConnection.AppendStateEvent | src/asset_management/account/orders.py:136-188 | the next event row is appended, the latest one is returned for a repeat, or the table stays and the stated refusal is given |
| LedgerStore.LedgerConnection.AppendExecution | src/asset_management/account/executions.py:104-207 | snapshot and delta rows inserted together or not at all |
| LedgerStore.LedgerConnection.PostDelta | src/asset_management/ledger/posting.py:67-232 | posting happens completely or leaves the tables untouched, and answers with the stored row ids and the movements: a buy adds its quantity and costs amount, commission and tax, a sell gives the quantity up for the amount less both |
| LedgerStore.LedgerConnection.WriteComponent | src/asset_management/ledger/posting.py:153-184 | one cash component with its link, or nothing for a zero amount |
| LedgerStore.LedgerConnection.ObserveOrder | src/asset_management/execution/fills.py:49-124 | an observation's state, snapshot and posting writes with rollback, and the state or the refusal it answers with |
| LedgerRuns.DeltasTelescope | src/asset_management/account/executions.py:132-207 | deltas of a chain are non-negative and sum to the latest cumulative snapshot |
| LedgerRuns.RunKeeps | src/asset_management/execution/fills.py:49-124 | chains, books and postings stay sound and every effectful delta is posted after each observation |
| LedgerRuns.ExactlyOnce | src/asset_management/ledger/posting.py:67-232 | for every observation sequence, a buy order's posted position is its latest cumulative quantity and its posted cash minus amount, commission and tax; a sell order's are minus the quantity and the amount less both; nothing is ever posted for an order of neither side |
| LedgerRuns.AcceptedReportIsBooked | src/asset_management/execution/fills.py:49-124 | after an accepted observation with a report, whatever came before and repeats included, the order's books say exactly that report |
| LedgerRuns.AcceptedFillFits | src/asset_management/execution/fills.py:49-124 | an accepted observation's report is consistent and never more than was ordered; filled means all of it and partly filled less |
| LedgerRuns.PostedRows | src/asset_management/ledger/posting.py:119-194 | over every run a posted delta's cash rows are its signed principal as cost or proceeds, its commission and its tax, and its position row the signed quantity, on the order's own account, currency and instrument and the proven settlement date |
| LedgerReplay.ValidateOrderStates | src/asset_management/ledger/replay.py:110-135 | the validator accepts exactly the tables whose every order stream, read by sequence number, is contiguous, chronological and lawful |
| Tables.OfOrdered | src/asset_management/ledger/replay.py:111-117 | reading the whole table by sequence number reads each order's rows by sequence number, however they were inserted |
| LedgerReplay.ValidateExecutionChain | src/asset_management/ledger/replay.py:137-179 | it accepts exactly the tables in which each snapshot, read by sequence number, is next in sequence and its delta is the difference |
| LedgerReplay.ComponentsMatch | src/asset_management/ledger/replay.py:305-333 | the gathered components equal the expected ones exactly when each component's row is valid |
| LedgerReplay.ValidatePostings | src/asset_management/ledger/replay.py:223-339 | it accepts exactly when every delta of the account is validly posted or needs no posting |
| LedgerReplay.AcceptedDeltasTelescope | src/asset_management/ledger/replay.py:137-179 | in any accepted tables the joined deltas are non-negative and sum to the latest snapshot |
| LedgerReplay.AcceptedPostingBalances | src/asset_management/ledger/replay.py:223-339 | in any accepted tables an effectful buy's linked cash rows add up to minus amount, commission and tax and its position row is the quantity; a sell's to the amount less both and minus the quantity |
| LedgerReplay.AcceptedPostingAgrees | src/asset_management/ledger/replay.py:223-339 | the linked rows of an accepted posting are on its order's account, instrument and currency, settle on the proven date, and do not predate the delta |
| LedgerReplay.WritersPassReplay | src/asset_management/ledger/replay.py:110-339 | whatever the writers store over any run passes the state, execution and posting validators |
| Reservations.ReservationConnection.ReserveHold | src/asset_management/ledger/cash.py:192-234 | a reservation event with the account, item, amount, evidence and time asked for is appended, or a repeat says just that, or it is refused for its stated reason; the order's state is not consulted |
| Reservations.ReservationConnection.ReleaseReservations | src/asset_management/execution/fills.py:126-173 | both tables are released, or a response that already speaks about a held reservation refuses |
| Reservations.ReservationConnection.ObserveAndRelease | src/asset_management/execution/fills.py:49-173 | the ledger writes and then the release on one connection; a conflicting release undoes all of it |
| Reservations.ObservationConcludes | src/asset_management/execution/fills.py:49-124 | an observation that returns a terminal state frees everything its order held and no other order's; any other leaves the reservations alone |
| Reservations.StepStrandsIff | src/asset_management/execution/fills.py:117-173 | an order comes to end with a reservation held exactly by a new reservation after its end or an internal terminal event while it holds something |
| Reservations.NeverStranded | src/asset_management/execution/fills.py:49-173 | over every run without such a step no ended order holds anything |
| Reservations.StuckReachable | src/asset_management/account/orders.py:136-188 | a run that ends with a filled order still holding cash |
| Reservations.ValidateReservations | src/asset_management/ledger/replay.py:181-221 | the check accepts exactly the tables whose events carry their order's identity, hold nothing negative and nothing once released, and leave no ended order holding |
| Reservations.ReservationsAcceptedIff | src/asset_management/ledger/replay.py:181-221 | after every run it accepts an order exactly when its reservations carry its own identity and it is not ended and holding |
| TimeLoops.TsRank | src/alpha_management/operators.py:214-229 | the counting loops give the window rank at every index, and raise exactly where the source does |
| TimeLoops.TsStdDev | src/alpha_management/operators.py:185-196 | the accumulating loops give the deviation of every full window |
| TimeLoops.TsZScore | src/alpha_management/operators.py:199-211 | means, deviations and the combining pass give the standard score |
| TimeLoops.TsDecayLinear | src/alpha_management/operators.py:232-241 | the weighted loop over its weight total gives the linear decay |
| TimeLoops.WindowRankMeaning | src/alpha_management/operators.py:214-229 | a window rank is a fraction, zero exactly for a unique least value and one exactly for a unique greatest |
| Operators.AnswerIsCausal | src/alpha_management/operators.py:154-249 | for every numeric window, fractional or not positive included, an operator that answers on a series answers on its beginning with the beginning of the answer |
| Operators.TimeSeriesIsCausal | src/alpha_management/operators.py:154-249 | a time operator on a truncated series is the truncated result |
| Operators.WarmUpAdds | src/alpha_management/operators.py:154-249 | missing values at the front of the input and the operator's own lag add up |
| RankMeaning.RankMeans | src/alpha_management/operators.py:32-55 | smaller values get smaller ranks and equal values equal ones; ranks are fractions, a unique least has zero, a unique greatest one, and a lone name a half; each is placed by how many names lie below and above it |
| RankMeaning.GroupRankMeans | src/alpha_management/operators.py:110-118 | every group is ranked within itself, names without a label being one group |
| RankMeaning.WindowRankMeans | src/alpha_management/operators.py:214-229 | the last value's rank lies above the middle of its window by as many half steps as there are more values below it than above, and a lone value has a half |
| ColumnMeaning.ZScoreMeans | src/alpha_management/operators.py:58-67 | a score times the population deviation is the distance from the mean; without deviation scores are zero |
| ColumnMeaning.WinsorizeMeans | src/alpha_management/operators.py:84-94 | values beyond four population deviations from the mean come in to that distance, the others stay |
| ColumnMeaning.NeutralizeMeans | src/alpha_management/operators.py:97-107 | after group neutralization each group sums to zero and keeps the differences between its names |
| OperatorMeaning.OfWindowMeans | src/alpha_management/operators.py:166-249 | maximum and minimum bound the window and are in it, decay weighs the values 1 to d, deviations and scores are about the mean, over n - 1 |
| OperatorMeaning.TimeCellMeans | src/alpha_management/operators.py:154-249 | a cell is the value d periods ago, the change since then, or its operator on exactly the last d values, present exactly when they all are |
| OperatorMeaning.EvaluatedCallMeans | src/alpha_management/dsl.py:380-440 | every evaluated call of every expression is what its operator promises of its arguments' values: ranks by value within the period's members or within groups, standard scores, rescaled and winsorized values, group-neutral values, signs, and per cell the delayed value, the change, or the sum, mean, deviation, score, rank, linear decay, maximum or minimum of the last d values |
| Dsl.ApplyIsCausal | src/alpha_management/dsl.py:361-440 | every operator of the registry that answers on full data answers on truncated data with the truncated answer, groups and membership included |
| Dsl.CallAcceptedIff | src/alpha_management/dsl.py:140-184 | a call is accepted exactly with a panel, a panel and a written whole window of 1 to 10000 (2 for deviations and scores), or a panel and a group field |
| Dsl.EvaluateKeepsLength | src/alpha_management/dsl.py:380-440 | on rectangular data every result has the data's length |
| Dsl.NoLookAhead | src/alpha_management/dsl.py:380-440 | every expression of any depth, accepted or not, that evaluates on the full history evaluates on every shorter one, to the truncated result |
| Dsl.PastDecidesPast | src/alpha_management/dsl.py:380-440 | two histories that agree on their first n periods, and both evaluate, give results that agree on them |
| DslTyping.SoundIffLeavesAgree | src/alpha_management/dsl.py:140-184 | a validated expression whose leaf nodes agree with the declared fields evaluates to its type without an operator error, and only then where no name is both a data and a group field |
| DslTyping.ResolveAgrees | src/alpha_management/dsl.py:468-480 | resolving a parsed tree makes its leaves agree and keeps its type |
| DslTyping.CompiledEvaluates | src/alpha_management/dsl.py:444-480 | every compiled expression yields a panel of full length on every rectangular resolver |
| DslTyping.AcceptedNeverLooksAhead | src/alpha_management/dsl.py:380-440 | every accepted expression evaluates on the full history and on every shorter one, and the shorter result is the longer one cut |
| DslTyping.CompiledPastDecidesPast | src/alpha_management/dsl.py:444-480 | compiled expressions evaluate on any two histories, and agree wherever the histories do |
| DslTyping.ShortHistoryHidesFailure | src/alpha_management/operators.py:154-163 | an unaccepted expression that fails on three periods and evaluates on the first |
| DslWindows.EvaluatesIffWindowsAnswer | src/alpha_management/dsl.py:380-440 | an expression typed in all but its window values, with agreeing leaves, evaluates on rectangular data exactly when every nested time call over some instrument answers its window at the history's length |
| DslWindows.FailureHiddenIff | src/alpha_management/operators.py:154-249 | such an expression evaluates on the first n periods and fails on all of them exactly when every window answers at n and some window does not at the full length |
| DslWindows.ValidatedIsTyped | src/alpha_management/dsl.py:140-184 | everything validation accepts is typed so |
| DslTyping.ValidatedButUnsound | src/alpha_management/dsl.py:140-184 | a validated, hand-built expression that does not evaluate to a panel |
| DslTyping.WarmUpHolds | src/alpha_management/dsl.py:380-440 | every cell below the additive bound of the nested windows is missing |
| DslTyping.CrossSection | src/alpha_management/dsl.py:361-427 | the column-by-column loop gives the column function at every period |
| DslTyping.ColumnwiseIsGroup | src/alpha_management/dsl.py:401-427 | with a group operator on each period's labels the filled panel is the one the evaluator gives |
| DslTyping.ColumnwiseIsCross | src/alpha_management/dsl.py:361-377 | with a cross-section operator the filled panel is the one the evaluator gives |
| DslTyping.RankPanel | src/alpha_management/dsl.py:361-377 | the loop run with `rank` fills the panel the evaluator gives, in which every period's members are ranked by value |
| DslTyping.GroupRankPanel | src/alpha_management/dsl.py:401-427 | the loop run with `group_rank` on each period's labels fills the panel the evaluator gives, in which every group is ranked by value within itself |
| Truncation.ScaleValues | src/alpha_management/operators.py:70-76 | every ratio between names is kept, signs follow the target's, and the gross is the target's magnitude, or zero for zero gross |
| Truncation.Truncate | src/alpha_management/operators.py:121-151 | the loop terminates for every input and computes the specified weights; a cap outside (0, 1] is refused |
| Truncation.FreezeRound | src/alpha_management/operators.py:130-147 | one round of the loop takes the specification one step |
| Truncation.NextLevel | src/alpha_management/operators.py:130-147 | after a capped round some of the book is left, so the `remaining <= 0` break is unreachable, and the next level is no lower |
| Truncation.FrozenSettles | src/alpha_management/operators.py:130-147 | the loop settles every name at one level |
| Truncation.WaterLevel | src/alpha_management/operators.py:121-151 | over the caller's own values some c > 0 gives every name its sign and magnitude min(cap, c times its magnitude), up to the slack, and the book is filled when it can be |
| Truncation.GrossAtMostOne | src/alpha_management/operators.py:121-151 | gross is at most one |
| Truncation.GrossExactlyOne | src/alpha_management/operators.py:121-151 | gross is exactly one whenever the number of non-zero names times the cap is at least one |
| Truncation.TruncatedWithinCap | src/alpha_management/operators.py:121-151 | every weight is within the cap plus the slack |
| History.SimulateHistory | src/alpha_management/history.py:160-226 | the appending pass yields the specified points, exactly for ordered sessions whose signals exist |
| History.PrefixStable | src/alpha_management/history.py:180-226 | extending the session list leaves earlier points unchanged |
| History.DelayHides | src/alpha_management/history.py:180-226 | the point at session i depends on no data later than session i minus the delay |
| HistoryMeaning.CrossSectionMeans | src/alpha_management/expression.py:72-105 | the weights are the book times the water level of the winsorized, market- or group-neutral signal, without negative names when long only |
| HistoryMeaning.PointsMean | src/alpha_management/history.py:160-226 | every point's signal is the expression on the session delay before it, its base weights are made of that signal and that session's groups, and its weights are the newest base weights or their average over the last decay sessions, weighted 1 to decay |
| HistoryBounds.CrossSectionWithin | src/alpha_management/expression.py:72-105 | one cross-section's gross and weights are within book and limit |
| HistoryBounds.DecayWithin | src/alpha_management/history.py:136-157 | linear decay keeps both bounds |
| HistoryBounds.WeightsWithinBook | src/alpha_management/history.py:180-226 | at every session of every history gross is at most the book and each weight at most (truncation + slack) times it |
| ModelRegistry.StatusOfReachable | src/asset_management/governance/model_registry.py:235-251 | in every reachable registry a status exists at every instant and is the recorded one at late instants |
| ModelRegistry.AllowedFrom | src/asset_management/governance/model_registry.py:39-47 | the statuses each status may follow |
| ModelRegistry.MoveSucceedsIff | src/asset_management/governance/model_registry.py:170-189 | in every reachable registry a move succeeds exactly when the model, an allowed status, evidence, the validation date and every earlier transition's time permit it, and then changes that status, records itself and nothing else |
| ModelRegistry.MoveDecidesFromThen | src/asset_management/governance/model_registry.py:170-189 | a transition decides the status from its effective time on and changes no earlier instant and no other model |
| ModelRegistry.PastIsSettled | src/asset_management/governance/model_registry.py:170-251 | nothing done later rewrites instants before a model's latest transition |
| ModelRegistry.AuthorizedIsGrounded | src/asset_management/governance/model_registry.py:191-210 | every authorization rests on an evidenced validation and later approval in effect, with no withdrawal since, within the review date and scope |
| ModelRegistry.NeverHistoryInvalid | src/asset_management/governance/model_registry.py:191-251 | the invalid-history and not-yet-validated errors cannot occur |
| ModelSnapshot.RoundTrip | src/asset_management/governance/model_registry.py:257-315 | every snapshot of a reachable registry rebuilds exactly it, however registrations and transitions were interleaved |
| ModelSnapshot.AcceptedIsReachable | src/asset_management/governance/model_registry.py:265-315 | only snapshots of reachable registries are accepted |
| ModelSnapshot.RegistryObject.RegisterModel | src/asset_management/governance/model_registry.py:162-168 | a definition in development is stored under its identity and version unless a different one is, and each refusal leaves the registry unchanged |
| ModelSnapshot.RegistryObject.MoveModel | src/asset_management/governance/model_registry.py:170-189 | a transition sets that model's status and is recorded as asked, and each refusal leaves the registry unchanged |
| ModelSnapshot.RegistryObject.StatusAsOf | src/asset_management/governance/model_registry.py:235-251 | the replay loop gives the specified status or its errors |
| ModelSnapshot.RegistryObject.ToPayload | src/asset_management/governance/model_registry.py:257-262 | the payload lists each model once by ascending key, and the transitions |
| ModelSnapshot.RegistryObject.FromPayload | src/asset_management/governance/model_registry.py:265-315 | the reconstruction loops return a fresh registry exactly when the specification accepts |
| Vintages.NormalizeVintages | src/asset_management/data/alfred.py:113-170 | a response is accepted exactly when it is a complete page of readable versions, one for each date and start, whose intervals do not overlap; the rows are one for each version stated, by date and start, a vintage column ending the day before the next of its date or on the last day there is; every refusal has its reason |
| Vintages.AcceptedIff | src/asset_management/data/alfred.py:113-170 | when a response is accepted, in terms of the observations themselves |
| Vintages.AcceptedRows | src/asset_management/data/alfred.py:161-170 | the accepted rows, in terms of the observations themselves |
| Vintages.CollectVersions | src/asset_management/data/alfred.py:123-160 | the nested loops fill the dictionary or stop at the first refusal |
| Vintages.CollectMeaning | src/asset_management/data/alfred.py:141-160 | a response is collected exactly when its versions are readable and agree, and the dictionary then holds just them |
| Vintages.CloseRows | src/asset_management/data/alfred.py:161-170 | each row is closed the day before the next of its date, or an overlap is refused |
| Vintages.OrderIrrelevant | src/asset_management/data/alfred.py:113-170 | permuting the observations changes neither acceptance nor the rows |
| Vintages.AtMostOneInForce | src/asset_management/data/alfred.py:161-170 | on any day at most one row of an observation date is in force |
| Vintages.LatestVintageInForce | src/asset_management/data/alfred.py:161-167 | for output type 3, from the first vintage on, the row in force is the version started last |
| Vintages.MacroNeverConflicts | src/asset_management/features/macro_state.py:96-99 | the rows selected are those in force at the cutoff and observed by the local day, and the conflicting-snapshot branch cannot be taken |
| Vintages.TreasuryNeverConflicts | src/asset_management/data/treasury_snapshot.py:35-38 | the quote is the row in force of its observation date, never ambiguous, and for output type 3 it exists exactly when some vintage had started |
| ReceiptAudit.ScanCatalog | src/asset_management/data/receipt_audit.py:23-64 | the scan collects the readable manifests, the invalid ids, and one finding for each that is reported, with the fault its reading shows |
| ReceiptAudit.Propagate | src/asset_management/data/receipt_audit.py:65-77 | the loop terminates on any graph with exactly the ids joined by a parent path to an invalid one |
| ReceiptAudit.AuditReceipts | src/asset_management/data/receipt_audit.py:13-85 | the catalogue splits into verified and blocked; verified manifests read, have a complete agreeing request receipt if bronze, and no blocked parent; under a classification every blocked one is reported; the notices say when the catalogue is empty or unclassified, and the counts by layer add up |
| Governor.DecideMeaning | src/asset_management/decisions/governor.py:292-320 | an approval is the absence of every refusing flag, and a reduction is the least multiplier of a raised condition |
| Governor.DecideExplains | src/asset_management/decisions/governor.py:292-320 | a block comes before an abstention, that before a deferral, that before a reduction, and the reasons given are exactly the raised conditions of that kind |
| Governor.ReductionIsLeast | src/asset_management/decisions/governor.py:292-320 | a reduction's multiplier is at most that of every raised condition and is one of theirs |
| Governor.MoreFlagsNeverLoosen | src/asset_management/decisions/governor.py:292-320 | more flags never raise the multiplier or turn a refusal into an approval |
| Governor.SourceApprovesIff | src/asset_management/decisions/governor.py:29-56 | at the source's own tables an approval means exactly a current policy version and raised flags that are all in the table of soft reductions |
| Governor.SourcePolicyExists | src/asset_management/decisions/governor.py:81-93 | a policy for those tables is admitted for every version |
| Authority.RiskGovernor.DecideRisk | src/asset_management/decisions/governor.py:292-342 | every decision carries its inputs' run, target and policy version and the verdict on them, is recorded as issued, and the collision error is never given |
| Authority.RiskGovernor.Authorize | src/asset_management/decisions/governor.py:344-361 | authority is given exactly for approving decisions issued here under the current policy, and is what that policy decides |
| Authority.CheckTarget | src/asset_management/decisions/governor.py:59-73 | a target is accepted exactly when named, non-negative and summing to one |
| Authority.BoundIsTarget | src/asset_management/decisions/governor.py:227-250 | a bound target is a target again; no risky weight is raised and cash is not lowered |
| Authority.MoreFlagsMoreCash | src/asset_management/decisions/governor.py:227-320 | more flags move an approved target only towards cash |
| Authority.BindTarget | src/asset_management/decisions/governor.py:227-250 | binding succeeds exactly for the approved target with its cash instrument; every risky weight becomes the approved multiplier times its own and cash what they leave of one; the final check never refuses |
| Planner.NetOpenQuantities | src/asset_management/execution/planner.py:53-70 | exposure is refused exactly for repeated ids or opposite sides, and otherwise netted per instrument |
| Planner.NetSign | src/asset_management/execution/planner.py:53-70 | uncrossed exposure nets to its own side and is zero only where nothing works |
| Planner.DesiredMeaning | src/asset_management/execution/planner.py:192 | the desired holding is the most whole lots that the target's share of the net asset value buys |
| Planner.NetIsUnfilled | src/asset_management/execution/planner.py:53-70 | the net of an instrument is what its orders asked for less what is filled, counted down for sells |
| Planner.OrderMovesTowardDesired | src/asset_management/execution/planner.py:178-205 | an order moves current plus open quantity to within a lot of the desired holding, never past it and never against working orders |
| Planner.OrderedMeaning | src/asset_management/execution/planner.py:200-207 | quantity, limit, minima and fee of a planned order |
| Planner.ReplanSettles | src/asset_management/execution/planner.py:178-214 | once the order works, replanning gives nothing, or refuses a remainder exactly when there is no minimum |
| Planner.PlanUnconstructibleIff | src/asset_management/execution/planner.py:192-214 | any plan is refused as unconstructible exactly when the guards pass, something is missing, no minimum drops it, and the difference is below a lot or the price below a tick |
| Planner.SubLotRemainderRefused | src/asset_management/execution/planner.py:198-214 | concrete first and repeated plans that are refused for half a share |
| Planner.DesiredWithinNav | src/asset_management/execution/planner.py:192 | desired holdings of an authorized target cost at most the net asset value |
| Planner.MoreFlagsSmallerHoldings | src/asset_management/execution/planner.py:192 | more flags never raise the desired holding of a risky instrument |
| Planner.PlanOrders | src/asset_management/execution/planner.py:169-215 | each order of the plan leads from what is held and working to within a lot of the target's desired holding and never past it, at the quote's price on the tick, and a target without one needs none or less than its minima; one refusal refuses all |
| Allocation.Greedy | src/asset_management/execution/scheduling.py:169-177 | the greedy loop fails exactly when total capacity is below the lots, stays within each capacity and fills earlier windows first |
| Allocation.SharesConserve | src/asset_management/execution/scheduling.py:178-179 | the equal split sums to the parent and differs by at most one lot, earlier windows taking the odd ones |
| Allocation.EdgesTile | src/asset_management/execution/scheduling.py:192-201 | window edges are the instants nearest to their fraction of the span, even on a tie, and tile it in order |
| Scheduling.PriceNoWorse | src/asset_management/execution/scheduling.py:182-190 | a child's price is on the tick and no worse than the parent's limit |
| Scheduling.SpanMeaning | src/asset_management/execution/scheduling.py:149-151 | the span is the whole instants urgency leaves of the time between the latest start and the earliest end |
| Scheduling.CapacityMeaning | src/asset_management/execution/scheduling.py:166-168 | a window's capacity is the most whole lots within the participation share of its volume as reduced by urgency |
| Scheduling.PriceMeaning | src/asset_management/execution/scheduling.py:182-190 | the price is the tick nearest to the better of limit and market, the market being the passive side of the quote or the assessed price |
| Scheduling.BuildChildren | src/asset_management/execution/scheduling.py:191-202 | the loop places every window with lots, or stops at the first child it may not place |
| Scheduling.ChildrenConserve | src/asset_management/execution/scheduling.py:160-202 | children of a conserving allocation sum to the parent, each within its cap, bounds and price |
| Scheduling.PlanSchedule | src/asset_management/execution/scheduling.py:130-202 | every planned schedule conserves the parent inside every bound, divides it in participation order or evenly, places each child between its window's edges at the schedule's price, and is clear of events and limits; every refusal has its stated cause |
| RateLimit.TokenBucket.Acquire | src/asset_management/broker/rate_limit.py:53-67 | one attempt adds rate times elapsed up to the capacity, is granted exactly when that holds a positive ask, takes it, and otherwise names the seconds that refill what is missing |
| RateLimit.TokensInRange | src/asset_management/broker/rate_limit.py:53-67 | tokens stay between zero and the capacity |
| RateLimit.RateBound | src/asset_management/broker/rate_limit.py:53-67 | over every run on a monotone clock, grants between any two instants total at most capacity plus rate times elapsed |
| RateLimit.GrantedIff | src/asset_management/broker/rate_limit.py:53-67 | an ask is granted exactly when it is positive, at most the capacity and not before the instant at which refilling makes up what is missing |
| RateLimit.WaitIsExact | src/asset_management/broker/rate_limit.py:42-67 | a lone refused caller succeeds from the returned wait on and not before, if and only if it asks for at most the capacity |
| PriorityQueue.PlayKeepsNumbered | src/asset_management/broker/rate_limit.py:104-114 | in every reachable contest no two tickets share a sequence |
| PriorityQueue.NoOvertaking | src/asset_management/broker/rate_limit.py:101-128 | a contender queued behind another by priority, or arrival, is never served while the other waits |
| PriorityQueue.HeadServedIff | src/asset_management/broker/rate_limit.py:115-124 | a poll serves the head exactly when its ask is positive, at most the capacity and its ready instant has come |
| PriorityQueue.HeadEventuallyServedIff | src/asset_management/broker/rate_limit.py:115-128 | from any instant on, some poll serves the head exactly when its ask is positive and at most the capacity |
| PriorityQueue.ServedIff | src/asset_management/broker/rate_limit.py:110-128 | a queued contender can still be served exactly when neither it nor anyone ahead asks for nothing or for more than the bucket |
| PriorityQueue.DrainsIff | src/asset_management/broker/rate_limit.py:110-128 | on a monotone clock some continuation empties the queue exactly when every queued ask is positive and at most the capacity |
| PriorityQueue.BlockedContestReachable | src/asset_management/broker/rate_limit.py:110-128 | a reachable contest in which a modest ask waits for ever behind one larger than the bucket |
| FairQueue.FairlyServedIff | src/asset_management/broker/rate_limit.py:110-128 | every run that polls whoever keeps waiting again and again on a clock that goes on, with nobody entering ahead, serves a queued contender exactly when neither it nor anyone ahead asks for nothing or for more than the bucket |
| FairQueue.FairlyDrainedIff | src/asset_management/broker/rate_limit.py:110-128 | every such run without newcomers empties the queue exactly when every queued ask is positive and at most the capacity |
| FairQueue.FairRunExists | src/asset_management/broker/rate_limit.py:110-128 | such a run exists for every contest with somebody queued |
| PriorityQueue.SomeoneHeads | src/asset_management/broker/rate_limit.py:118-124 | a non-empty queue has exactly one head |
| PriorityQueue.PriorityTokenBucket.PollTicket | src/asset_management/broker/rate_limit.py:115-128 | one turn of the waiting loop: only the head asks, for its own tokens, and only a grant removes it |

## Left out

- The SQL that checks authority (src/asset_management/execution/submission.py:152-255) is one predicate: the evidence's own times are not before the cutoff and a flag says the stored records agree.
- Recovery of a timed-out submission through the order observation service (src/asset_management/execution/fills.py:175-195).
- PaperBroker.PersistentPaperBroker.SubmitOrder: repeated requests are compared by value, not by the text of their numbers, because numbers are exact reals.
- LedgerStore.LedgerConnection.PostDelta: whether the tax-lot ledger accepts a movement is a parameter; `ledger/tax_lots.py` is not part of this model.
- LedgerStore.LedgerConnection.ObserveOrder: takes the tax-lot answer and the outcome of the reservation release as parameters; `ObserveAndRelease` works the release out.
- LedgerReplay.ValidatePostings: a stored context is its own hash, and a posting refers to its order through its delta, so a wrong hash and a wrong order cannot be stored; a delta's settlement evidence is found by its place in the snapshots as inserted.
- Reservations.ReservationConnection.ReleaseReservations: an order's events have one identity, which the writers enforce, so grouping by identity is the order itself.
- Settlement extraction from raw responses and raw-response hashing are parameters.
- The Lark grammar, number parsing, canonical text and hash of expressions; the model starts from the tree.
- `RepositoryPanelResolver` data access and reference-period parsing; a resolver is a panel per field, groups and membership.
- DslTyping.SoundIffLeavesAgree: does not say that agreement is needed where one name is both a data and a group field, because the source then reads labels as a panel and answers if they happen to be numerals.
- Dsl.NoLookAhead: says nothing about expressions that only the source evaluates, such as an operator whose argument is of the wrong kind and happens to work; the model takes those as failures.
- The cross-section ranks count smaller and equal values instead of sorting as `_average_ranks` does, and exact reals have no overflow, NaN or tolerance.
- Input validation of dataclasses whose instances are parameters here is stated as a precondition where the constructor enforces it.
- ModelSnapshot.RegistryObject.FromPayload: whether every entry has its fields and each definition passes its own checks is one flag of the snapshot; identifier tuples are sets and descriptive fields one text.
- `require_authorization` and the publishing of registries.
- The priority bucket's condition variable: waking and waiting are any interleaving of the callers' polls; `heapq` is a set with its least element.
- `TokenBucket.update_from_headers` and `retry_after_seconds`; the rate bound is for runs without header updates.
- Authority.BindTarget: targets are compared by value, whereas the source digests the text of each weight.
- The order of the tuples the planner returns, and the identifiers and digests in planned orders and schedules.
- Scheduling.PlanSchedule: the fresh microstructure assessment is a parameter, and the reason codes inside its refusal are not listed.
- ReceiptAudit.ScanCatalog: holds findings about single manifests; those about the whole audit are notices of `AuditReceipts`.
- ReceiptAudit.AuditReceipts: inherited findings are a set, not a sorted list, and layers without manifests count zero instead of being absent.
- The strategy registry, performance statistics, orchestration, command line, provider parsing and storage: they would add members of the same shape or no logic.
