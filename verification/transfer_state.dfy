/** The transfer status table of apps/api/src/transfers/state.ts. */
module TransferState {

  datatype TransferStatus =
    | Requested | NeedsInfo | Quoting | Quoted
    | QuoteAccepted
    | FundingPending | FundingSubmitted
    | FundsConfirmed
    | PayoutInProgress | OnHold
    | PayoutReported | ConfirmationPending
    | Disputed
    | RefundPending
    | Completed | QuoteExpired | Cancelled | Declined | Refunded | Failed

  /** transferTransitions: the statuses each status may be followed by. */
  function Transitions(from: TransferStatus): set<TransferStatus> {
    match from
    case Requested => {NeedsInfo, Quoting, Declined, Cancelled}
    case NeedsInfo => {Requested, Quoting, Cancelled, Declined}
    case Quoting => {Quoted, NeedsInfo, Declined, Cancelled}
    case Quoted => {QuoteAccepted, QuoteExpired, Quoting, Cancelled}
    case QuoteAccepted => {FundingPending, OnHold, Cancelled}
    case FundingPending => {FundingSubmitted, OnHold, Cancelled}
    case FundingSubmitted => {FundingPending, FundsConfirmed, OnHold}
    case FundsConfirmed => {PayoutInProgress, OnHold, RefundPending}
    case PayoutInProgress => {PayoutReported, OnHold, Disputed, Failed}
    case PayoutReported => {ConfirmationPending, Completed, Disputed}
    case ConfirmationPending => {Completed, Disputed}
    case OnHold => {Cancelled, RefundPending, Disputed}
    case Disputed => {PayoutInProgress, ConfirmationPending, RefundPending, Completed, Failed}
    case RefundPending => {Refunded, Failed}
    case QuoteExpired => {}
    case Cancelled => {}
    case Declined => {}
    case Completed => {}
    case Refunded => {}
    case Failed => {}
  }

  /** The check made by assertTransferTransition. */
  predicate Allowed(from: TransferStatus, to: TransferStatus) {
    to in Transitions(from)
  }

  datatype ReviewAction = RequestInfo | StartQuoting | Decline

  function ReviewActionTarget(action: ReviewAction): TransferStatus {
    match action
    case RequestInfo => NeedsInfo
    case StartQuoting => Quoting
    case Decline => Declined
  }

  /** The only statuses that `transition` is ever asked for: the review targets and cancellation. */
  const TRANSITION_TARGETS: set<TransferStatus> := {NeedsInfo, Quoting, Declined, Cancelled}

  /** No other target is asked for: each is one review action's, or the cancellation. Each action has a status of its own. */
  lemma TargetsAreReviewsAndCancellation(status: TransferStatus)
    ensures status in TRANSITION_TARGETS <==> status == Cancelled || exists action :: ReviewActionTarget(action) == status
    // Asking for information can lead back to the request, quoting to a quote, and declining nowhere.
    ensures forall action ::
              && (Allowed(ReviewActionTarget(action), Requested) <==> action == RequestInfo)
              && (Allowed(ReviewActionTarget(action), Quoted) <==> action == StartQuoting)
              && (Transitions(ReviewActionTarget(action)) == {} <==> action == Decline)
  {
    forall action ensures Transitions(ReviewActionTarget(action)) == {} <==> action == Decline {
      assert Requested in Transitions(NeedsInfo) && Quoted in Transitions(Quoting);
    }
    assert ReviewActionTarget(RequestInfo) == NeedsInfo && ReviewActionTarget(StartQuoting) == Quoting;
    assert ReviewActionTarget(Decline) == Declined;
  }

  /** TERMINAL_TRANSFER_STATUSES of transfers/service.ts, the list the active-transfer quota excludes. */
  const TERMINAL_STATUSES: set<TransferStatus> := {Completed, Declined, QuoteExpired, Cancelled, Refunded, Failed}

  predicate Terminal(status: TransferStatus) {
    status in TERMINAL_STATUSES
  }

  /** The quota's hand-written list of terminal statuses is exactly the set of rows with no way out. */
  lemma TerminalIffAbsorbing(status: TransferStatus)
    ensures Terminal(status) <==> Transitions(status) == {}
  {
    match status
    case Requested => assert NeedsInfo in Transitions(status);
    case NeedsInfo => assert Requested in Transitions(status);
    case Quoting => assert Quoted in Transitions(status);
    case Quoted => assert Quoting in Transitions(status);
    case QuoteAccepted => assert OnHold in Transitions(status);
    case FundingPending => assert OnHold in Transitions(status);
    case FundingSubmitted => assert OnHold in Transitions(status);
    case FundsConfirmed => assert OnHold in Transitions(status);
    case PayoutInProgress => assert OnHold in Transitions(status);
    case PayoutReported => assert Completed in Transitions(status);
    case ConfirmationPending => assert Completed in Transitions(status);
    case OnHold => assert Disputed in Transitions(status);
    case Disputed => assert Completed in Transitions(status);
    case RefundPending => assert Refunded in Transitions(status);
    case _ =>
  }
}
