/**
 The rows one transfer owns: its quotes, funding instructions and proofs, payout case,
 disputes, confirmations and refund. A `Record` is one consistent reading of all of them.

 Quotes and disputes are never deleted, so a row's identifier is its position; proofs and
 payout evidence carry the identifiers the services generate.
 */
module TransferRecords {
  import opened Common
  import opened TransferState

  datatype Money = Money(minor: int, currency: string)

  datatype QuoteStatus = Draft | Sent | Accepted | Rejected | Expired | Superseded

  datatype Quote = Quote(
    version: nat,
    send: Money,
    fee: int,
    receive: Money,
    expectedDeliveryAt: Instant,
    expiresAt: Instant,
    status: QuoteStatus,
    createdAt: Instant,
    sentAt: Option<Instant>,
    acceptedAt: Option<Instant>,
    rejectedAt: Option<Instant>)

  datatype Instruction = Instruction(quote: nat, amount: Money, validUntil: Option<Instant>, createdAt: Instant)

  datatype ProofStatus = PendingUpload | Submitted | NeedsResubmission | Verified | ProofRejected

  datatype Attachment = Attachment(sizeBytes: nat, uploadExpiresAt: Instant)

  datatype Proof = Proof(
    status: ProofStatus,
    file: Option<Attachment>,
    claimed: Option<Money>,
    uploadedAt: Option<Instant>,
    reviewedAt: Option<Instant>,
    createdAt: Instant)

  datatype CaseStatus = CasePending | CaseInProgress | CaseReported | CaseCompleted | CaseOnHold | CaseFailed

  datatype Evidence = Evidence(reference: Option<string>, file: Option<Attachment>, uploadedAt: Option<Instant>)

  datatype Completion = Completion(amount: Money, at: Instant)

  datatype PayoutCase = PayoutCase(
    status: CaseStatus,
    amount: Money,
    associate: Option<nat>,
    expectedBy: Instant,
    reference: Option<string>,
    completed: Option<Completion>,
    evidence: map<nat, Evidence>,
    createdAt: Instant)

  datatype DisputeStatus = DisputeOpen | InReview | Resolved | DisputeRejected

  datatype Resolution = Resume | RefundSender | Complete | Fail | Reject

  datatype Dispute = Dispute(
    previous: TransferStatus,
    previousVerified: bool,
    status: DisputeStatus,
    assignee: Option<nat>,
    action: Option<Resolution>,
    openedAt: Instant,
    resolvedAt: Option<Instant>)

  datatype ConfirmationSource = StaffConfirmation | SenderConfirmation

  datatype Confirmation = Confirmation(source: ConfirmationSource, at: Instant)

  datatype RefundStatus = RefundUnderway | RefundPaid

  datatype Refund = Refund(status: RefundStatus, amount: Money, initiatedAt: Instant, refundedAt: Option<Instant>)

  datatype Record = Record(
    requested: Money,
    status: TransferStatus,
    acceptedQuote: Option<nat>,
    quotes: seq<Quote>,
    instructions: seq<Instruction>,
    proofs: map<nat, Proof>,
    payoutCase: Option<PayoutCase>,
    disputes: seq<Dispute>,
    confirmations: seq<Confirmation>,
    refund: Option<Refund>)

  /** A transfer as createTransfer inserts it. */
  function NewRecord(requested: Money): Record {
    Record(requested, Requested, None, [], [], map[], None, [], [], None)
  }

  /** The error codes the services answer with. */
  datatype Refusal =
    | TransferChanged
    | InvalidQuoteAmount | InvalidDeliveryTime | UnsupportedReceiveCurrency | TransferNotQuotable
    | QuoteRequestMismatch | QuoteDraftExists
    | QuoteNotFound | QuoteNotDraft | QuoteAlreadyExpired | QuoteNotActionable | QuoteIsExpired
    | InvalidFundingExpiry | FundingNotReady | FundingInstructionExists | FundingTemplateUnavailable
    | InvalidFundingAmount | FundingProofNotAllowed | FundingProofActive | FundingCurrencyMismatch
    | EvidenceUploadNotFound | EvidenceUploadClosed | EvidenceUrlExpired
    | FundingProofNotFound | FundingProofNotReviewable
    | VerifiedFundingProofNotFound | FundsConfirmationNotAllowed
    | InvalidPayoutDeadline | PayoutNotReady | PayoutOwnerUnavailable | AssociateUnavailable
    | PayoutCaseNotFound | PayoutCaseNotEditable | PayoutEvidenceNotAllowed
    | InvalidPayoutCompletion | PayoutReportNotAllowed | PayoutAssociateRequired
    | PayoutCompletionMismatch | PayoutEvidenceRequired | PayoutHoldNotAllowed
    | ConfirmationNotReady | SenderConfirmationNotAllowed | AdminCompletionNotAllowed
    | DisputeNotAllowed | DisputeNotFound | DisputeResumeUnsafe
    | RefundSnapshotUnavailable | RefundNotAllowed | InvalidRefundTime | RefundConfirmationNotAllowed
    | InvalidTransferTransition | DuplicateIdentifier

  /** What one database transaction does: commit the next record, or refuse and change nothing. */
  datatype Outcome = Done(next: Record) | Refused(code: Refusal)

  // ----- Row queries -----

  predicate HasQuote(quotes: seq<Quote>, status: QuoteStatus) {
    exists i | 0 <= i < |quotes| :: quotes[i].status == status
  }

  /** _max.version, 0 when there is no quote. */
  function MaxVersion(quotes: seq<Quote>): (max: nat)
    ensures forall i | 0 <= i < |quotes| :: quotes[i].version <= max
    ensures if quotes == [] then max == 0 else exists i | 0 <= i < |quotes| :: quotes[i].version == max
  {
    if quotes == [] then 0
    else
      var last := quotes[|quotes| - 1].version;
      var rest := MaxVersion(quotes[..|quotes| - 1]);
      if rest <= last then last else rest
  }

  /** findFirst over the quotes in one status. */
  function FirstQuote(quotes: seq<Quote>, status: QuoteStatus): (found: Option<nat>)
    ensures found.Some? ==> found.value < |quotes| && quotes[found.value].status == status
    ensures found.None? ==> forall i | 0 <= i < |quotes| :: quotes[i].status != status
  {
    if quotes == [] then None
    else
      var earlier := FirstQuote(quotes[..|quotes| - 1], status);
      if earlier.Some? then earlier
      else if quotes[|quotes| - 1].status == status then Some(|quotes| - 1)
      else None
  }

  /** updateMany from SENT to SUPERSEDED. */
  function SupersedeSent(quotes: seq<Quote>): (changed: seq<Quote>)
    ensures |changed| == |quotes|
    ensures forall i | 0 <= i < |quotes| ::
      changed[i] == if quotes[i].status == Sent then quotes[i].(status := Superseded) else quotes[i]
  {
    seq(|quotes|, i requires 0 <= i < |quotes| =>
      if quotes[i].status == Sent then quotes[i].(status := Superseded) else quotes[i])
  }

  /** Proofs whose upload link ran out before a file arrived; submitProof deletes them. */
  predicate Stale(proof: Proof, now: Instant) {
    proof.status == PendingUpload && proof.file.Some? && proof.file.value.uploadExpiresAt <= now
  }

  function WithoutStale(proofs: map<nat, Proof>, now: Instant): map<nat, Proof> {
    map id | id in proofs && !Stale(proofs[id], now) :: proofs[id]
  }

  /** Awaiting upload or review. */
  predicate ActiveProof(proof: Proof) {
    proof.status == PendingUpload || proof.status == Submitted
  }

  predicate HasConfirmation(confirmations: seq<Confirmation>, source: ConfirmationSource) {
    exists i | 0 <= i < |confirmations| :: confirmations[i].source == source
  }

  predicate ActiveDispute(dispute: Dispute) {
    dispute.status == DisputeOpen || dispute.status == InReview
  }

  /** The row acceptedQuoteId points at. */
  function AcceptedQuote(s: Record): Option<Quote> {
    if s.acceptedQuote.Some? && s.acceptedQuote.value < |s.quotes|
    then Some(s.quotes[s.acceptedQuote.value]) else None
  }

  /** Something a payout report can point at: a reference on the case or on a piece of evidence, or an uploaded file. */
  predicate HasPayoutEvidence(payoutCase: PayoutCase) {
    payoutCase.reference.Some? ||
    exists id | id in payoutCase.evidence ::
      payoutCase.evidence[id].reference.Some? || payoutCase.evidence[id].uploadedAt.Some?
  }
}
