/** The order-state machine, its append-only repository, and what its streams can do. */
module OrderStates {
  import opened Common

  datatype OrderState =
    | Planned | Submitting | Submitted | Acknowledged | Open | PartiallyFilled | Filled
    | CancelPending | Canceled | ReplacePending | Replaced | Rejected | Unknown | ReviewRequired

  /** `TERMINAL_ORDER_STATES` */
  predicate Terminal(s: OrderState) { s.Filled? || s.Canceled? || s.Replaced? || s.Rejected? }

  /** `_BROKER_STATE_MAP`, applied to the stripped upper-case text. */
  function Normalize(raw: string): OrderState {
    if raw == "PENDING" || raw == "ACKNOWLEDGED" then Acknowledged
    else if raw == "OPEN" then Open
    else if raw == "PARTIAL_FILLED" || raw == "PARTIALLY_FILLED" then PartiallyFilled
    else if raw == "FILLED" then Filled
    else if raw == "PENDING_CANCEL" || raw == "CANCEL_PENDING" then CancelPending
    else if raw == "CANCELED" || raw == "CANCELLED" then Canceled
    else if raw == "PENDING_REPLACE" || raw == "REPLACE_PENDING" then ReplacePending
    else if raw == "REPLACED" then Replaced
    else if raw == "REJECTED" then Rejected
    else if raw == "CANCEL_REJECTED" || raw == "REPLACE_REJECTED" then ReviewRequired
    else Unknown
  }

  /** The transitions each state allows. */
  predicate Follows(previous: OrderState, c: OrderState) {
    match previous
    case Planned => c.Submitting?
    case Submitting =>
      c.Submitted? || c.Acknowledged? || c.Open? || c.PartiallyFilled? ||
      c.Filled? || c.Rejected? || c.ReviewRequired? || c.Unknown?
    case Submitted =>
      c.Acknowledged? || c.Open? || c.PartiallyFilled? || c.Filled? ||
      c.CancelPending? || c.Rejected? || c.ReviewRequired? || c.Unknown?
    case Acknowledged =>
      c.Open? || c.PartiallyFilled? || c.Filled? || c.CancelPending? ||
      c.Canceled? || c.Rejected? || c.ReviewRequired? || c.Unknown?
    case Open =>
      c.PartiallyFilled? || c.Filled? || c.CancelPending? || c.Canceled? ||
      c.ReplacePending? || c.Rejected? || c.ReviewRequired? || c.Unknown?
    case PartiallyFilled =>
      c.Filled? || c.CancelPending? || c.Canceled? ||
      c.ReplacePending? || c.ReviewRequired? || c.Unknown?
    case CancelPending => c.Canceled? || c.PartiallyFilled? || c.Filled? || c.ReviewRequired? || c.Unknown?
    case ReplacePending => c.Replaced? || c.PartiallyFilled? || c.Filled? || c.ReviewRequired? || c.Unknown?
    case ReviewRequired =>
      c.Acknowledged? || c.Open? || c.PartiallyFilled? || c.Filled? || c.CancelPending? ||
      c.Canceled? || c.ReplacePending? || c.Replaced? || c.Rejected? || c.Unknown?
    case Unknown => c.ReviewRequired?
    case _ => false
  }

  /** `assert_order_transition` does not raise. */
  predicate Allowed(previous: Option<OrderState>, current: OrderState) {
    previous.None? || previous.value == current ||
    (!Terminal(previous.value) && Follows(previous.value, current))
  }

  /** What each state may follow, itself aside: nothing follows an ended order, a fill may still follow a pending cancel or
      replacement, an acknowledgement follows only a submission or a review, and an order may turn unknown or need review
      at any time between submission and its end. */
  lemma AllowedAfter(previous: OrderState, current: OrderState)
    requires previous != current
    ensures Allowed(Some(previous), current) <==>
            match current
            case Planned => false
            case Submitting => previous == Planned
            case Submitted => previous == Submitting
            case Acknowledged => previous in {Submitting, Submitted, ReviewRequired}
            case Open => previous in {Submitting, Submitted, Acknowledged, ReviewRequired}
            case PartiallyFilled => previous in {Submitting, Submitted, Acknowledged, Open, CancelPending, ReplacePending, ReviewRequired}
            case Filled =>
              previous in {Submitting, Submitted, Acknowledged, Open, PartiallyFilled, CancelPending, ReplacePending, ReviewRequired}
            case CancelPending => previous in {Submitted, Acknowledged, Open, PartiallyFilled, ReviewRequired}
            case Canceled => previous in {Acknowledged, Open, PartiallyFilled, CancelPending, ReviewRequired}
            case ReplacePending => previous in {Open, PartiallyFilled, ReviewRequired}
            case Replaced => previous in {ReplacePending, ReviewRequired}
            case Rejected => previous in {Submitting, Submitted, Acknowledged, Open, ReviewRequired}
            case Unknown =>
              previous in {Submitting, Submitted, Acknowledged, Open, PartiallyFilled, CancelPending, ReplacePending, ReviewRequired}
            case ReviewRequired =>
              previous in {Submitting, Submitted, Acknowledged, Open, PartiallyFilled, CancelPending, ReplacePending, Unknown}
  {
  }

  /** The broker words behind each state; no word is read as planned, submitting or submitted. */
  lemma NormalizedFrom(raw: string, s: OrderState)
    ensures Normalize(raw) == s <==>
            match s
            case Acknowledged => raw == "PENDING" || raw == "ACKNOWLEDGED"
            case Open => raw == "OPEN"
            case PartiallyFilled => raw == "PARTIAL_FILLED" || raw == "PARTIALLY_FILLED"
            case Filled => raw == "FILLED"
            case CancelPending => raw == "PENDING_CANCEL" || raw == "CANCEL_PENDING"
            case Canceled => raw == "CANCELED" || raw == "CANCELLED"
            case ReplacePending => raw == "PENDING_REPLACE" || raw == "REPLACE_PENDING"
            case Replaced => raw == "REPLACED"
            case Rejected => raw == "REJECTED"
            case ReviewRequired => raw == "CANCEL_REJECTED" || raw == "REPLACE_REJECTED"
            case Unknown =>
              raw !in {"PENDING", "ACKNOWLEDGED", "OPEN", "PARTIAL_FILLED", "PARTIALLY_FILLED", "FILLED", "PENDING_CANCEL",
                       "CANCEL_PENDING", "CANCELED", "CANCELLED", "PENDING_REPLACE", "REPLACE_PENDING", "REPLACED", "REJECTED",
                       "CANCEL_REJECTED", "REPLACE_REJECTED"}
            case _ => false
  {
  }

  datatype StateEvent = StateEvent(sequence: int, previous: Option<OrderState>, state: OrderState, at: int,
                                   source: Option<string>, reason: Option<string>)

  /** Row `i` of one order's stream continues the stream before it. */
  predicate Continues(s: seq<StateEvent>, i: nat)
    requires i < |s|
  {
    var prior := if i == 0 then None else Some(s[i - 1].state);
    && s[i].sequence == i + 1
    && s[i].previous == prior
    && (i > 0 ==> s[i - 1].at <= s[i].at)
    && Allowed(prior, s[i].state)
  }

  ghost predicate StateChain(s: seq<StateEvent>) {
    forall i :: 0 <= i < |s| ==> Continues(s, i)
  }

  // -------------------------------------------- what an accepted stream cannot do

  /** No row strictly between `i` and `j`, nor `j` itself, is REVIEW_REQUIRED. */
  ghost predicate NoReview(s: seq<StateEvent>, i: nat, j: nat)
    requires i <= j < |s|
  {
    forall k :: i < k <= j ==> s[k].state != ReviewRequired
  }

  /** Terminal states are absorbing. */
  lemma {:induction false} TerminalAbsorbs(s: seq<StateEvent>, i: nat, j: nat)
    requires StateChain(s) && i <= j < |s| && Terminal(s[i].state)
    ensures s[j].state == s[i].state
    decreases j
  {
    if i < j {
      TerminalAbsorbs(s, i, j - 1);
      assert Continues(s, j);
    }
  }

  /** UNKNOWN is left only through REVIEW_REQUIRED. */
  lemma {:induction false} UnknownNeedsReview(s: seq<StateEvent>, i: nat, j: nat)
    requires StateChain(s) && i <= j < |s| && s[i].state == Unknown && NoReview(s, i, j)
    ensures s[j].state == Unknown
    decreases j
  {
    if i < j {
      UnknownNeedsReview(s, i, j - 1);
      assert Continues(s, j);
    }
  }

  /** The states a partly filled order can be in until someone reviews it. */
  predicate KeepsPartialFill(s: OrderState) {
    s.PartiallyFilled? || s.Filled? || s.CancelPending? || s.Canceled? || s.ReplacePending? || s.Replaced? || s.Unknown?
  }

  /** After PARTIALLY_FILLED, none of ACKNOWLEDGED, OPEN, REJECTED (nor any pre-submission state)
      is reachable without REVIEW_REQUIRED in between. */
  lemma {:induction false} PartialFillNeverForgotten(s: seq<StateEvent>, i: nat, j: nat)
    requires StateChain(s) && i <= j < |s| && s[i].state == PartiallyFilled && NoReview(s, i, j)
    ensures KeepsPartialFill(s[j].state)
    ensures s[j].state != Acknowledged && s[j].state != Open && s[j].state != Rejected
    decreases j
  {
    if i < j {
      PartialFillNeverForgotten(s, i, j - 1);
      assert Continues(s, j);
    }
  }
}
