/**
 What each service transaction does to a transfer's record, as a function of the record it
 locks. Everything a transaction reads from elsewhere (the clock, a template, an associate
 contact, the runtime configuration) is an argument.
 */
module TransferSteps {
  import opened Common
  import opened TransferState
  import opened TransferRecords

  // ----- transfers/service.ts -----

  /** The compare-and-set half of `transition`; `from` is the status that was read earlier. */
  function Transition(s: Record, from: TransferStatus, target: TransferStatus): Outcome {
    if s.status != from then Refused(TransferChanged)
    else Done(s.(status := target, quotes := if target == Cancelled then SupersedeSent(s.quotes) else s.quotes))
  }

  // ----- quotes/service.ts -----

  datatype DraftInput = DraftInput(
    send: Money, fee: int, receive: Money, expectedDeliveryAt: Instant, validForMinutes: nat)

  predicate Quotable(status: TransferStatus) {
    status == Quoting || status == Quoted
  }

  function NewDraft(input: DraftInput, version: nat, now: Instant): Quote {
    Quote(version, input.send, input.fee, input.receive, input.expectedDeliveryAt,
          now + input.validForMinutes * MINUTE, Draft, now, None, None, None)
  }

  function CreateDraft(s: Record, input: DraftInput, receiveSupported: bool, now: Instant): Outcome {
    if input.send.minor > MAX_BIGINT || input.fee > MAX_BIGINT || input.receive.minor > MAX_BIGINT
      then Refused(InvalidQuoteAmount)
    else if input.expectedDeliveryAt <= now then Refused(InvalidDeliveryTime)
    else if !receiveSupported then Refused(UnsupportedReceiveCurrency)
    else if !Quotable(s.status) then Refused(TransferNotQuotable)
    else if s.requested != input.send then Refused(QuoteRequestMismatch)
    else if HasQuote(s.quotes, Draft) then Refused(QuoteDraftExists)
    else Done(s.(quotes := s.quotes + [NewDraft(input, MaxVersion(s.quotes) + 1, now)]))
  }

  function SendDraft(s: Record, quoteId: nat, now: Instant): Outcome {
    if quoteId >= |s.quotes| then Refused(QuoteNotFound)
    else if s.quotes[quoteId].status != Draft then Refused(QuoteNotDraft)
    else if s.quotes[quoteId].expiresAt <= now then Refused(QuoteAlreadyExpired)
    else if !Quotable(s.status) then Refused(TransferNotQuotable)
    else
      var sent := s.quotes[quoteId].(status := Sent, sentAt := Some(now));
      Done(s.(quotes := SupersedeSent(s.quotes)[quoteId := sent], status := Quoted))
  }

  function ExpireIfNeeded(s: Record, now: Instant): Outcome {
    var active := FirstQuote(s.quotes, Sent);
    if active.None? || s.quotes[active.value].expiresAt > now then Done(s)
    else
      Done(s.(quotes := s.quotes[active.value := s.quotes[active.value].(status := Expired)],
              status := if s.status == Quoted then QuoteExpired else s.status))
  }

  function Decide(s: Record, quoteId: nat, accept: bool, now: Instant): Outcome {
    if quoteId >= |s.quotes| || s.quotes[quoteId].status == Draft then Refused(QuoteNotFound)
    else if s.quotes[quoteId].status != Sent || s.status != Quoted then Refused(QuoteNotActionable)
    else if s.quotes[quoteId].expiresAt <= now then Refused(QuoteIsExpired)
    else if accept then
      Done(s.(quotes := s.quotes[quoteId := s.quotes[quoteId].(status := Accepted, acceptedAt := Some(now))],
              status := QuoteAccepted, acceptedQuote := Some(quoteId)))
    else
      Done(s.(quotes := s.quotes[quoteId := s.quotes[quoteId].(status := Rejected, rejectedAt := Some(now))],
              status := Quoting))
  }

  // ----- funding/service.ts -----

  datatype Template = Template(active: bool, currency: string)

  function PublishInstruction(s: Record, template: Option<Template>, validUntil: Option<Instant>, now: Instant): Outcome {
    if validUntil.Some? && validUntil.value <= now then Refused(InvalidFundingExpiry)
    else
      var quote := AcceptedQuote(s);
      if s.status != QuoteAccepted || quote.None? || quote.value.status != Accepted then Refused(FundingNotReady)
      else if s.instructions != [] then Refused(FundingInstructionExists)
      else if template.None? || !template.value.active || template.value.currency != quote.value.send.currency
        then Refused(FundingTemplateUnavailable)
      else
        Done(s.(instructions := [Instruction(s.acceptedQuote.value, quote.value.send, validUntil, now)],
                status := FundingPending))
  }

  datatype ProofInput = ProofInput(claimed: Option<Money>, file: Option<Attachment>)

  function NewProof(input: ProofInput, now: Instant): Proof {
    Proof(if input.file.Some? then PendingUpload else Submitted, input.file, input.claimed, None, None, now)
  }

  function SubmitProof(s: Record, id: nat, input: ProofInput, now: Instant): Outcome {
    var kept := WithoutStale(s.proofs, now);
    if input.claimed.Some? && input.claimed.value.minor > MAX_BIGINT then Refused(InvalidFundingAmount)
    else if s.status != FundingPending || s.instructions == [] then Refused(FundingProofNotAllowed)
    else if exists other | other in kept :: ActiveProof(kept[other]) then Refused(FundingProofActive)
    else if input.claimed.Some? && input.claimed.value.currency != s.instructions[0].amount.currency
      then Refused(FundingCurrencyMismatch)
    else if id in s.proofs then Refused(DuplicateIdentifier)
    else
      Done(s.(proofs := kept[id := NewProof(input, now)],
              status := if input.file.Some? then FundingPending else FundingSubmitted))
  }

  /**
   completeUpload but for the file. Its clock reading was compared with the row's expiry before the file was written;
   the expiry never changes, so the comparison may stand here, beside the transaction at the end.
   */
  function CommitUpload(s: Record, id: nat, now: Instant): Outcome {
    if id !in s.proofs then Refused(EvidenceUploadClosed)
    else if s.proofs[id].file.None? then Refused(EvidenceUploadNotFound)
    else if s.proofs[id].status != PendingUpload then Refused(EvidenceUploadClosed)
    else if s.proofs[id].file.value.uploadExpiresAt <= now then Refused(EvidenceUrlExpired)
    else if s.status != FundingPending then Refused(EvidenceUploadClosed)
    else
      Done(s.(proofs := s.proofs[id := s.proofs[id].(status := Submitted, uploadedAt := Some(now))],
              status := FundingSubmitted))
  }

  datatype Review = Verify | RequestResubmission | RejectProof

  function ReviewTarget(decision: Review): ProofStatus {
    match decision
    case Verify => Verified
    case RequestResubmission => NeedsResubmission
    case RejectProof => ProofRejected
  }

  function ReviewProof(s: Record, id: nat, decision: Review, now: Instant): Outcome {
    if id !in s.proofs then Refused(FundingProofNotFound)
    else if s.status != FundingSubmitted || s.proofs[id].status != Submitted then Refused(FundingProofNotReviewable)
    else
      Done(s.(proofs := s.proofs[id := s.proofs[id].(status := ReviewTarget(decision), reviewedAt := Some(now))],
              status := if decision == Verify then FundingSubmitted else FundingPending))
  }

  function ConfirmFunds(s: Record, id: nat): Outcome {
    if id !in s.proofs || s.proofs[id].status != Verified then Refused(VerifiedFundingProofNotFound)
    else if s.status != FundingSubmitted then Refused(FundsConfirmationNotAllowed)
    else Done(s.(status := FundsConfirmed))
  }

  // ----- payout/service.ts -----

  datatype CaseInput = CaseInput(associate: Option<nat>, expectedBy: Instant, reference: Option<string>)

  function CreateCase(s: Record, input: CaseInput, ownerActive: bool, associateFits: bool, now: Instant): Outcome {
    if input.expectedBy <= now then Refused(InvalidPayoutDeadline)
    else
      var quote := AcceptedQuote(s);
      if s.status != FundsConfirmed || s.payoutCase.Some? || quote.None? || quote.value.status != Accepted
        then Refused(PayoutNotReady)
      else if !ownerActive then Refused(PayoutOwnerUnavailable)
      else if input.associate.Some? && !associateFits then Refused(AssociateUnavailable)
      else
        Done(s.(payoutCase := Some(PayoutCase(CaseInProgress, quote.value.receive, input.associate, input.expectedBy,
                                              input.reference, None, map[], now)),
                status := PayoutInProgress))
  }

  datatype CasePatch = CasePatch(
    owner: Option<nat>, associate: Option<nat>, expectedBy: Option<Instant>, reference: Option<string>)

  function Patched(payoutCase: PayoutCase, patch: CasePatch): PayoutCase {
    payoutCase.(
      associate := if patch.associate.Some? then patch.associate else payoutCase.associate,
      expectedBy := if patch.expectedBy.Some? then patch.expectedBy.value else payoutCase.expectedBy,
      reference := if patch.reference.Some? then patch.reference else payoutCase.reference)
  }

  /** Both the transfer and its case are being worked on. */
  predicate CaseEditable(s: Record) {
    s.status == PayoutInProgress && s.payoutCase.Some? && s.payoutCase.value.status == CaseInProgress
  }

  function UpdateCase(s: Record, patch: CasePatch, ownerActive: bool, associateFits: bool, now: Instant): Outcome {
    if s.payoutCase.None? then Refused(PayoutCaseNotFound)
    else if !CaseEditable(s) || AcceptedQuote(s).None? then Refused(PayoutCaseNotEditable)
    else if patch.expectedBy.Some? && patch.expectedBy.value <= now then Refused(InvalidPayoutDeadline)
    else if patch.owner.Some? && !ownerActive then Refused(PayoutOwnerUnavailable)
    else if patch.associate.Some? && !associateFits then Refused(AssociateUnavailable)
    else Done(s.(payoutCase := Some(Patched(s.payoutCase.value, patch))))
  }

  function AddEvidence(s: Record, id: nat, reference: Option<string>, file: Option<Attachment>): Outcome {
    if s.payoutCase.None? then Refused(PayoutCaseNotFound)
    else if !CaseEditable(s) then Refused(PayoutEvidenceNotAllowed)
    else
      var current := s.payoutCase.value;
      if id in current.evidence then Refused(DuplicateIdentifier)
      else Done(s.(payoutCase := Some(current.(evidence := current.evidence[id := Evidence(reference, file, None)]))))
  }

  /** The payout completeUpload but for the file, with the same early comparison. */
  function CommitEvidenceUpload(s: Record, id: nat, now: Instant): Outcome {
    if s.payoutCase.None? || id !in s.payoutCase.value.evidence then Refused(EvidenceUploadClosed)
    else if s.payoutCase.value.evidence[id].file.None? then Refused(EvidenceUploadNotFound)
    else if s.payoutCase.value.evidence[id].uploadedAt.Some? then Refused(EvidenceUploadClosed)
    else if s.payoutCase.value.evidence[id].file.value.uploadExpiresAt <= now then Refused(EvidenceUrlExpired)
    else if !CaseEditable(s) then Refused(EvidenceUploadClosed)
    else
      var current := s.payoutCase.value;
      Done(s.(payoutCase :=
        Some(current.(evidence := current.evidence[id := current.evidence[id].(uploadedAt := Some(now))]))))
  }

  datatype ReportInput = ReportInput(amount: Money, completedAt: Instant, reference: Option<string>)

  function ReportPayout(s: Record, input: ReportInput, associateFits: bool, now: Instant): Outcome {
    if input.amount.minor > MAX_BIGINT || input.completedAt > now + 5 * MINUTE then Refused(InvalidPayoutCompletion)
    else if s.payoutCase.None? then Refused(PayoutCaseNotFound)
    else
      var current := s.payoutCase.value;
      if !CaseEditable(s) then Refused(PayoutReportNotAllowed)
      else if current.associate.None? then Refused(PayoutAssociateRequired)
      else if !associateFits then Refused(AssociateUnavailable)
      else if input.amount != current.amount || input.completedAt < current.createdAt then Refused(PayoutCompletionMismatch)
      else if input.reference.None? && !HasPayoutEvidence(current) then Refused(PayoutEvidenceRequired)
      else
        Done(s.(payoutCase := Some(current.(
                  status := CaseReported,
                  completed := Some(Completion(input.amount, input.completedAt)),
                  reference := if input.reference.Some? then input.reference else current.reference)),
                status := PayoutReported,
                confirmations := s.confirmations + [Confirmation(StaffConfirmation, now)]))
  }

  function PlaceHold(s: Record): Outcome {
    if s.payoutCase.None? then Refused(PayoutCaseNotFound)
    else if !CaseEditable(s) then Refused(PayoutHoldNotAllowed)
    else Done(s.(payoutCase := Some(s.payoutCase.value.(status := CaseOnHold)), status := OnHold))
  }

  /** The service does not consult the status table here: ON_HOLD to PAYOUT_IN_PROGRESS is not in it. */
  function ReleaseHold(s: Record): Outcome {
    if s.payoutCase.None? then Refused(PayoutCaseNotFound)
    else if s.status != OnHold || s.payoutCase.value.status != CaseOnHold then Refused(PayoutHoldNotAllowed)
    else Done(s.(payoutCase := Some(s.payoutCase.value.(status := CaseInProgress)), status := PayoutInProgress))
  }

  // ----- resolution/service.ts -----

  /** A reported case that staff have confirmed. */
  predicate PayoutConfirmedByStaff(s: Record) {
    s.payoutCase.Some? && s.payoutCase.value.status == CaseReported && HasConfirmation(s.confirmations, StaffConfirmation)
  }

  function RequestSenderConfirmation(s: Record): Outcome {
    if s.status != PayoutReported || !PayoutConfirmedByStaff(s) then Refused(ConfirmationNotReady)
    else Done(s.(status := ConfirmationPending))
  }

  function ConfirmRecipientReceived(s: Record, now: Instant): Outcome {
    if s.status != ConfirmationPending || !PayoutConfirmedByStaff(s) then Refused(SenderConfirmationNotAllowed)
    else
      Done(s.(confirmations := s.confirmations + [Confirmation(SenderConfirmation, now)],
              status := Completed,
              payoutCase := Some(s.payoutCase.value.(status := CaseCompleted))))
  }

  function CompleteByAdmin(s: Record): Outcome {
    if (s.status != PayoutReported && s.status != ConfirmationPending) || !PayoutConfirmedByStaff(s)
      then Refused(AdminCompletionNotAllowed)
    else Done(s.(status := Completed, payoutCase := Some(s.payoutCase.value.(status := CaseCompleted))))
  }

  predicate Disputable(status: TransferStatus) {
    status == PayoutInProgress || status == PayoutReported || status == ConfirmationPending
  }

  function OpenDispute(s: Record, verified: bool, now: Instant): Outcome {
    if !Disputable(s.status) then Refused(DisputeNotAllowed)
    else
      Done(s.(disputes := s.disputes + [Dispute(s.status, verified, DisputeOpen, None, None, now, None)],
              status := Disputed,
              payoutCase :=
                if s.payoutCase.Some? && s.payoutCase.value.status == CaseInProgress
                then Some(s.payoutCase.value.(status := CaseOnHold)) else s.payoutCase))
  }

  function TakeDispute(s: Record, id: nat, staff: nat): Outcome {
    if id >= |s.disputes| || s.disputes[id].status != DisputeOpen then Refused(DisputeNotFound)
    else Done(s.(disputes := s.disputes[id := s.disputes[id].(status := InReview, assignee := Some(staff))]))
  }

  function ResolutionTarget(dispute: Dispute, action: Resolution): TransferStatus {
    match action
    case RefundSender => RefundPending
    case Complete => Completed
    case Fail => Failed
    case _ => if dispute.previous == PayoutInProgress then PayoutInProgress else ConfirmationPending
  }

  /** What resolving a dispute does to the case, given where the transfer goes next. */
  function CaseAfterResolution(status: CaseStatus, target: TransferStatus): CaseStatus {
    if status == CaseOnHold then
      if target == PayoutInProgress then CaseInProgress else if target == Completed then CaseCompleted else CaseFailed
    else if status == CaseReported && target == Completed then CaseCompleted
    else if status == CaseReported && (target == RefundPending || target == Failed) then CaseFailed
    else status
  }

  function ResolveDispute(s: Record, id: nat, action: Resolution, staff: nat, now: Instant): Outcome {
    if id >= |s.disputes| || !ActiveDispute(s.disputes[id]) || s.status != Disputed then Refused(DisputeNotFound)
    else
      var dispute := s.disputes[id];
      var target := ResolutionTarget(dispute, action);
      if (action == Resume || action == Reject) && !dispute.previousVerified then Refused(DisputeResumeUnsafe)
      else if target == Completed && !PayoutConfirmedByStaff(s) then Refused(AdminCompletionNotAllowed)
      else if action == RefundSender && AcceptedQuote(s).None? then Refused(RefundSnapshotUnavailable)
      else
        Done(s.(refund :=
                  if action == RefundSender
                  then Some(Refund(RefundUnderway, AcceptedQuote(s).value.send, now, None)) else s.refund,
                payoutCase :=
                  if s.payoutCase.Some?
                  then Some(s.payoutCase.value.(status := CaseAfterResolution(s.payoutCase.value.status, target)))
                  else None,
                status := target,
                disputes := s.disputes[id := dispute.(
                  status := if action == Reject then DisputeRejected else Resolved,
                  action := Some(action),
                  assignee := if dispute.assignee.Some? then dispute.assignee else Some(staff),
                  resolvedAt := Some(now))]))
  }

  function StartRefund(s: Record, now: Instant): Outcome {
    if s.refund.Some? || (s.status != FundsConfirmed && s.status != OnHold) then Refused(RefundNotAllowed)
    else if AcceptedQuote(s).None? then Refused(RefundSnapshotUnavailable)
    else
      Done(s.(refund := Some(Refund(RefundUnderway, AcceptedQuote(s).value.send, now, None)),
              payoutCase :=
                if s.payoutCase.Some? && s.payoutCase.value.status == CaseOnHold
                then Some(s.payoutCase.value.(status := CaseFailed)) else s.payoutCase,
              status := RefundPending))
  }

  function ConfirmRefund(s: Record, refundedAt: Instant, now: Instant): Outcome {
    if refundedAt > now + 5 * MINUTE then Refused(InvalidRefundTime)
    else if s.refund.None? || s.status != RefundPending || s.refund.value.status != RefundUnderway
            || refundedAt < s.refund.value.initiatedAt
      then Refused(RefundConfirmationNotAllowed)
    else
      Done(s.(refund := Some(s.refund.value.(status := RefundPaid, refundedAt := Some(refundedAt))),
              status := Refunded))
  }

  // ----- All of them -----

  datatype Op =
    | DoTransition(from: TransferStatus, target: TransferStatus)
    | DoCreateDraft(draft: DraftInput, receiveSupported: bool, now: Instant)
    | DoSendDraft(quoteId: nat, now: Instant)
    | DoExpire(now: Instant)
    | DoDecide(quoteId: nat, accept: bool, now: Instant)
    | DoPublish(template: Option<Template>, validUntil: Option<Instant>, now: Instant)
    | DoSubmitProof(proofId: nat, proof: ProofInput, now: Instant)
    | DoCommitUpload(proofId: nat, now: Instant)
    | DoReviewProof(proofId: nat, decision: Review, now: Instant)
    | DoConfirmFunds(proofId: nat)
    | DoCreateCase(caseInput: CaseInput, ownerActive: bool, associateFits: bool, now: Instant)
    | DoUpdateCase(patch: CasePatch, ownerActive: bool, associateFits: bool, now: Instant)
    | DoAddEvidence(evidenceId: nat, reference: Option<string>, file: Option<Attachment>)
    | DoCommitEvidenceUpload(evidenceId: nat, now: Instant)
    | DoReportPayout(report: ReportInput, associateFits: bool, now: Instant)
    | DoHold
    | DoRelease
    | DoRequestConfirmation
    | DoConfirmReceived(now: Instant)
    | DoCompleteByAdmin
    | DoOpenDispute(verified: bool, now: Instant)
    | DoTakeDispute(disputeId: nat, staff: nat)
    | DoResolveDispute(disputeId: nat, action: Resolution, staff: nat, now: Instant)
    | DoStartRefund(now: Instant)
    | DoConfirmRefund(refundedAt: Instant, now: Instant)

  function Apply(s: Record, op: Op): Outcome {
    match op
    case DoTransition(from, target) => Transition(s, from, target)
    case DoCreateDraft(draft, supported, now) => CreateDraft(s, draft, supported, now)
    case DoSendDraft(id, now) => SendDraft(s, id, now)
    case DoExpire(now) => ExpireIfNeeded(s, now)
    case DoDecide(id, accept, now) => Decide(s, id, accept, now)
    case DoPublish(template, validUntil, now) => PublishInstruction(s, template, validUntil, now)
    case DoSubmitProof(id, proof, now) => SubmitProof(s, id, proof, now)
    case DoCommitUpload(id, now) => CommitUpload(s, id, now)
    case DoReviewProof(id, decision, now) => ReviewProof(s, id, decision, now)
    case DoConfirmFunds(id) => ConfirmFunds(s, id)
    case DoCreateCase(input, owner, fits, now) => CreateCase(s, input, owner, fits, now)
    case DoUpdateCase(patch, owner, fits, now) => UpdateCase(s, patch, owner, fits, now)
    case DoAddEvidence(id, reference, file) => AddEvidence(s, id, reference, file)
    case DoCommitEvidenceUpload(id, now) => CommitEvidenceUpload(s, id, now)
    case DoReportPayout(report, fits, now) => ReportPayout(s, report, fits, now)
    case DoHold => PlaceHold(s)
    case DoRelease => ReleaseHold(s)
    case DoRequestConfirmation => RequestSenderConfirmation(s)
    case DoConfirmReceived(now) => ConfirmRecipientReceived(s, now)
    case DoCompleteByAdmin => CompleteByAdmin(s)
    case DoOpenDispute(verified, now) => OpenDispute(s, verified, now)
    case DoTakeDispute(id, staff) => TakeDispute(s, id, staff)
    case DoResolveDispute(id, action, staff, now) => ResolveDispute(s, id, action, staff, now)
    case DoStartRefund(now) => StartRefund(s, now)
    case DoConfirmRefund(refundedAt, now) => ConfirmRefund(s, refundedAt, now)
  }
}
