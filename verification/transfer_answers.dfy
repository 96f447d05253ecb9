/**
 When each transaction succeeds. On a consistent record that depends on the transfer's status, on the row it is asked
 about and on its arguments; everything else the services check then holds by itself. And what a refusal means.
 */
module TransferAnswers {
  import opened Common
  import opened TransferState
  import opened TransferRecords
  import opened TransferSteps
  import opened TransferInvariant
  import opened TransferProofs

  /** The highest amount the database can hold. */
  predicate Storable(minor: int) {
    minor < 0x8000_0000_0000_0000
  }

  predicate LastQuoteIsDraft(s: Record) {
    s.quotes != [] && s.quotes[|s.quotes| - 1].status == Draft
  }

  /** A proof waiting for a file that can still arrive. */
  predicate UploadOpen(proof: Proof, now: Instant) {
    proof.status == PendingUpload && proof.file.Some? && now < proof.file.value.uploadExpiresAt
  }

  /** The case and each piece of its evidence. */
  predicate NothingToShow(c: PayoutCase) {
    c.reference.None? && forall id | id in c.evidence :: c.evidence[id].reference.None? && c.evidence[id].uploadedAt.None?
  }

  predicate PossibleQuoteStep(s: Record, op: Op) {
    match op
    case DoCreateDraft(draft, supported, now) =>
      && (s.status == Quoting || s.status == Quoted) && !LastQuoteIsDraft(s)
      && draft.send == s.requested && Storable(draft.send.minor) && Storable(draft.fee) && Storable(draft.receive.minor)
      && now < draft.expectedDeliveryAt && supported
    case DoSendDraft(id, now) =>
      (s.status == Quoting || s.status == Quoted) && LastQuoteIsDraft(s) && id == |s.quotes| - 1 && now < s.quotes[id].expiresAt
    case DoDecide(id, _, now) =>
      s.status == Quoted && id < |s.quotes| && s.quotes[id].status == Sent && now < s.quotes[id].expiresAt
    case _ => true
  }

  predicate PossibleFundingStep(s: Record, op: Op) {
    match op
    case DoPublish(template, validUntil, now) =>
      && s.status == QuoteAccepted && (validUntil.Some? ==> now < validUntil.value)
      && template.Some? && template.value.active && template.value.currency == s.requested.currency
    case DoSubmitProof(id, proof, now) =>
      && s.status == FundingPending && id !in s.proofs && (forall other | other in s.proofs :: !UploadOpen(s.proofs[other], now))
      && (proof.claimed.Some? ==> Storable(proof.claimed.value.minor) && proof.claimed.value.currency == s.requested.currency)
    case DoCommitUpload(id, now) => s.status == FundingPending && id in s.proofs && UploadOpen(s.proofs[id], now)
    case DoReviewProof(id, _, _) => s.status == FundingSubmitted && id in s.proofs && s.proofs[id].status == Submitted
    case DoConfirmFunds(id) => s.status == FundingSubmitted && id in s.proofs && s.proofs[id].status == Verified
    case _ => true
  }

  predicate PossiblePayoutStep(s: Record, op: Op) {
    match op
    case DoCreateCase(input, ownerActive, associateFits, now) =>
      s.status == FundsConfirmed && now < input.expectedBy && ownerActive && (input.associate.Some? ==> associateFits)
    case DoUpdateCase(patch, ownerActive, associateFits, now) =>
      && s.status == PayoutInProgress && (patch.expectedBy.Some? ==> now < patch.expectedBy.value)
      && (patch.owner.Some? ==> ownerActive) && (patch.associate.Some? ==> associateFits)
    case DoAddEvidence(id, _, _) => s.status == PayoutInProgress && s.payoutCase.Some? && id !in s.payoutCase.value.evidence
    case DoCommitEvidenceUpload(id, now) =>
      && s.status == PayoutInProgress && s.payoutCase.Some? && id in s.payoutCase.value.evidence
      && var e := s.payoutCase.value.evidence[id]; e.uploadedAt.None? && e.file.Some? && now < e.file.value.uploadExpiresAt
    case DoReportPayout(report, associateFits, now) =>
      && s.status == PayoutInProgress && s.payoutCase.Some?
      && var c := s.payoutCase.value;
      && c.associate.Some? && associateFits && report.amount == c.amount && Storable(report.amount.minor)
      && c.createdAt <= report.completedAt <= now + 300_000
      && (report.reference.Some? || !NothingToShow(c))
    case DoHold => s.status == PayoutInProgress
    case DoRelease => s.status == OnHold
    case _ => true
  }

  /** What a dispute interrupted decides how it can end: a payout that was never reported cannot be completed. */
  predicate PossibleResolution(dispute: Dispute, action: Resolution) {
    match action
    case Resume => dispute.previousVerified
    case Reject => dispute.previousVerified
    case Complete => dispute.previous != PayoutInProgress
    case _ => true
  }

  predicate PossibleEnding(s: Record, op: Op) {
    match op
    case DoRequestConfirmation => s.status == PayoutReported
    case DoConfirmReceived(_) => s.status == ConfirmationPending
    case DoCompleteByAdmin => s.status == PayoutReported || s.status == ConfirmationPending
    case DoOpenDispute(_, _) => s.status == PayoutInProgress || s.status == PayoutReported || s.status == ConfirmationPending
    case DoTakeDispute(id, _) =>
      s.status == TransferStatus.Disputed && id + 1 == |s.disputes| && s.disputes[id].status == DisputeOpen
    case DoResolveDispute(id, action, _, _) =>
      s.status == TransferStatus.Disputed && id + 1 == |s.disputes| && PossibleResolution(s.disputes[id], action)
    case DoStartRefund(_) => s.status == FundsConfirmed || s.status == OnHold
    case DoConfirmRefund(refundedAt, now) =>
      s.status == RefundPending && s.refund.Some? && s.refund.value.initiatedAt <= refundedAt <= now + 300_000
    case _ => true
  }

  predicate Possible(s: Record, op: Op) {
    && (op.DoTransition? ==> s.status == op.from)
    && PossibleQuoteStep(s, op) && PossibleFundingStep(s, op) && PossiblePayoutStep(s, op) && PossibleEnding(s, op)
  }

  lemma QuoteStepAnswers(s: Record, op: Op)
    requires QuotesOk(s) && (QuoteStep(op) || op.DoTransition?)
    ensures Apply(s, op).Done? <==> Possible(s, op)
  {
    if s.quotes != [] && LastQuoteIsDraft(s) {
      assert HasQuote(s.quotes, Draft);
    }
  }

  lemma PublishAnswers(s: Record, op: Op)
    requires QuotesOk(s) && FundingOk(s) && op.DoPublish?
    ensures PublishInstruction(s, op.template, op.validUntil, op.now).Done? <==> PossibleFundingStep(s, op)
  {
  }

  lemma SubmitAnswers(s: Record, op: Op)
    requires FundingOk(s) && op.DoSubmitProof?
    ensures SubmitProof(s, op.proofId, op.proof, op.now).Done? <==> PossibleFundingStep(s, op)
  {
    if s.status == FundingPending {
      assert AwaitingProof(s);
      var kept := WithoutStale(s.proofs, op.now);
      assert forall other | other in s.proofs :: UploadOpen(s.proofs[other], op.now) <==> other in kept && ActiveProof(kept[other]);
    }
  }

  lemma ReviewAnswers(s: Record, op: Op)
    requires FundingOk(s) && (op.DoCommitUpload? || op.DoReviewProof? || op.DoConfirmFunds?)
    ensures Apply(s, op).Done? <==> PossibleFundingStep(s, op)
  {
    hide FundingStage;
  }

  lemma FundingStepAnswers(s: Record, op: Op)
    requires QuotesOk(s) && FundingOk(s) && FundingStep(op)
    ensures Apply(s, op).Done? <==> Possible(s, op)
  {
    hide QuotesOk, FundingOk, PossibleFundingStep;
    if op.DoPublish? {
      PublishAnswers(s, op);
    } else if op.DoSubmitProof? {
      SubmitAnswers(s, op);
    } else {
      ReviewAnswers(s, op);
    }
  }

  lemma PayoutStepAnswers(s: Record, op: Op)
    requires QuotesOk(s) && ResolutionOk(s) && PayoutStep(op)
    ensures Apply(s, op).Done? <==> Possible(s, op)
  {
  }

  lemma CompletionAnswers(s: Record, op: Op)
    requires ResolutionOk(s) && CompletionStep(op)
    ensures Apply(s, op).Done? <==> Possible(s, op)
  {
    assert ReportedOnce(s) ==> s.confirmations[0].source == StaffConfirmation;
  }

  lemma RefundAnswers(s: Record, op: Op)
    requires QuotesOk(s) && ResolutionOk(s) && RefundStep(op)
    ensures Apply(s, op).Done? <==> Possible(s, op)
  {
    hide QuoteRowsOk;
  }

  lemma ResolveAnswers(s: Record, op: Op)
    requires QuotesOk(s) && ResolutionOk(s) && op.DoResolveDispute?
    ensures ResolveDispute(s, op.disputeId, op.action, op.staff, op.now).Done? <==> PossibleEnding(s, op)
  {
    assert s.status == TransferStatus.Disputed ==> LastDisputeActive(s) && AcceptedQuote(s).Some?;
    hide QuotesOk;
    assert ReportedOnce(s) ==> s.confirmations[0].source == StaffConfirmation;
  }

  lemma DisputeAnswers(s: Record, op: Op)
    requires QuotesOk(s) && ResolutionOk(s) && DisputeStep(op)
    ensures Apply(s, op).Done? <==> PossibleEnding(s, op)
  {
    if op.DoResolveDispute? {
      hide QuotesOk, ResolutionOk, PossibleEnding, ResolveDispute;
      ResolveAnswers(s, op);
    } else {
      hide QuotesOk;
    }
  }

  lemma EndingAnswers(s: Record, op: Op)
    requires QuotesOk(s) && ResolutionOk(s) && (CompletionStep(op) || RefundStep(op) || DisputeStep(op))
    ensures Apply(s, op).Done? <==> Possible(s, op)
  {
    hide QuotesOk, ResolutionOk;
    if CompletionStep(op) {
      CompletionAnswers(s, op);
    } else if RefundStep(op) {
      RefundAnswers(s, op);
    } else {
      hide Apply, PossibleEnding;
      DisputeAnswers(s, op);
    }
  }

  /** For every consistent record and every one of the transactions. */
  lemma SucceedsIffPossible(s: Record, op: Op)
    requires Inv(s)
    ensures Apply(s, op).Done? <==> Possible(s, op)
  {
    hide QuotesOk, FundingOk, ResolutionOk, Apply, Possible;
    if QuoteStep(op) || op.DoTransition? {
      QuoteStepAnswers(s, op);
    } else if FundingStep(op) {
      FundingStepAnswers(s, op);
    } else if PayoutStep(op) {
      PayoutStepAnswers(s, op);
    } else {
      EndingAnswers(s, op);
    }
  }

  // ----- What a refusal means -----

  predicate QuoteRefusalTrue(s: Record, op: Op, code: Refusal) {
    match op
    case DoTransition(from, _) => code == TransferChanged && s.status != from
    case DoCreateDraft(draft, supported, now) =>
      || (code == InvalidQuoteAmount && !(Storable(draft.send.minor) && Storable(draft.fee) && Storable(draft.receive.minor)))
      || (code == InvalidDeliveryTime && draft.expectedDeliveryAt <= now)
      || (code == UnsupportedReceiveCurrency && !supported)
      || (code == TransferNotQuotable && s.status != Quoting && s.status != Quoted)
      || (code == QuoteRequestMismatch && draft.send != s.requested)
      || (code == QuoteDraftExists && LastQuoteIsDraft(s))
    case DoSendDraft(id, now) =>
      || (code == QuoteNotFound && id >= |s.quotes|)
      || (code == QuoteNotDraft && id < |s.quotes| && s.quotes[id].status != Draft)
      || (code == QuoteAlreadyExpired && id < |s.quotes| && s.quotes[id].expiresAt <= now)
      || (code == TransferNotQuotable && s.status != Quoting && s.status != Quoted)
    case DoDecide(id, _, now) =>
      || (code == QuoteNotFound && (id >= |s.quotes| || s.quotes[id].status == Draft))
      || (code == QuoteNotActionable && id < |s.quotes| && (s.quotes[id].status != Sent || s.status != Quoted))
      || (code == QuoteIsExpired && id < |s.quotes| && s.quotes[id].expiresAt <= now)
    case _ => true
  }

  predicate FundingRefusalTrue(s: Record, op: Op, code: Refusal) {
    match op
    case DoPublish(template, validUntil, now) =>
      || (code == InvalidFundingExpiry && validUntil.Some? && validUntil.value <= now)
      || (code == FundingNotReady && s.status != QuoteAccepted)
      || (code == FundingTemplateUnavailable &&
            (template.None? || !template.value.active || template.value.currency != s.requested.currency))
    case DoSubmitProof(id, proof, now) =>
      || (code == InvalidFundingAmount && proof.claimed.Some? && !Storable(proof.claimed.value.minor))
      || (code == FundingProofNotAllowed && s.status != FundingPending)
      || (code == FundingProofActive && exists other | other in s.proofs :: UploadOpen(s.proofs[other], now))
      || (code == FundingCurrencyMismatch && proof.claimed.Some? && proof.claimed.value.currency != s.requested.currency)
      || (code == DuplicateIdentifier && id in s.proofs)
    case DoCommitUpload(id, now) =>
      || (code == EvidenceUploadNotFound && id in s.proofs && s.proofs[id].file.None?)
      || (code == EvidenceUploadClosed && (id !in s.proofs || s.proofs[id].status != PendingUpload || s.status != FundingPending))
      || (code == EvidenceUrlExpired && id in s.proofs && s.proofs[id].file.Some? && s.proofs[id].file.value.uploadExpiresAt <= now)
    case DoReviewProof(id, _, _) =>
      || (code == FundingProofNotFound && id !in s.proofs)
      || (code == FundingProofNotReviewable && id in s.proofs && (s.status != FundingSubmitted || s.proofs[id].status != Submitted))
    case DoConfirmFunds(id) =>
      || (code == VerifiedFundingProofNotFound && (id !in s.proofs || s.proofs[id].status != Verified))
      || (code == FundsConfirmationNotAllowed && s.status != FundingSubmitted)
    case _ => true
  }

  predicate PayoutRefusalTrue(s: Record, op: Op, code: Refusal) {
    var noCase := code == PayoutCaseNotFound && s.payoutCase.None?;
    match op
    case DoCreateCase(input, ownerActive, associateFits, now) =>
      || (code == InvalidPayoutDeadline && input.expectedBy <= now)
      || (code == PayoutNotReady && s.status != FundsConfirmed)
      || (code == PayoutOwnerUnavailable && !ownerActive)
      || (code == AssociateUnavailable && input.associate.Some? && !associateFits)
    case DoUpdateCase(patch, ownerActive, associateFits, now) =>
      || noCase
      || (code == PayoutCaseNotEditable && s.status != PayoutInProgress)
      || (code == InvalidPayoutDeadline && patch.expectedBy.Some? && patch.expectedBy.value <= now)
      || (code == PayoutOwnerUnavailable && patch.owner.Some? && !ownerActive)
      || (code == AssociateUnavailable && patch.associate.Some? && !associateFits)
    case DoAddEvidence(id, _, _) =>
      || noCase
      || (code == PayoutEvidenceNotAllowed && s.status != PayoutInProgress)
      || (code == DuplicateIdentifier && s.payoutCase.Some? && id in s.payoutCase.value.evidence)
    case DoCommitEvidenceUpload(id, now) =>
      var row := if s.payoutCase.Some? && id in s.payoutCase.value.evidence then Some(s.payoutCase.value.evidence[id]) else None;
      || (code == EvidenceUploadNotFound && row.Some? && row.value.file.None?)
      || (code == EvidenceUploadClosed && (row.None? || row.value.uploadedAt.Some? || s.status != PayoutInProgress))
      || (code == EvidenceUrlExpired && row.Some? && row.value.file.Some? && row.value.file.value.uploadExpiresAt <= now)
    case DoReportPayout(report, associateFits, now) =>
      || noCase
      || (code == InvalidPayoutCompletion && (!Storable(report.amount.minor) || report.completedAt > now + 300_000))
      || (code == PayoutReportNotAllowed && s.status != PayoutInProgress)
      || (code == PayoutAssociateRequired && s.payoutCase.Some? && s.payoutCase.value.associate.None?)
      || (code == AssociateUnavailable && !associateFits)
      || (code == PayoutCompletionMismatch && s.payoutCase.Some? &&
            (report.amount != s.payoutCase.value.amount || report.completedAt < s.payoutCase.value.createdAt))
      || (code == PayoutEvidenceRequired && report.reference.None? && s.payoutCase.Some? && NothingToShow(s.payoutCase.value))
    case DoHold => noCase || (code == PayoutHoldNotAllowed && s.status != PayoutInProgress)
    case DoRelease => noCase || (code == PayoutHoldNotAllowed && s.status != OnHold)
    case _ => true
  }

  predicate EndingRefusalTrue(s: Record, op: Op, code: Refusal) {
    match op
    case DoRequestConfirmation => code == ConfirmationNotReady && s.status != PayoutReported
    case DoConfirmReceived(_) => code == SenderConfirmationNotAllowed && s.status != ConfirmationPending
    case DoCompleteByAdmin => code == AdminCompletionNotAllowed && s.status != PayoutReported && s.status != ConfirmationPending
    case DoOpenDispute(_, _) =>
      code == DisputeNotAllowed && s.status !in {PayoutInProgress, PayoutReported, ConfirmationPending}
    case DoTakeDispute(id, _) => code == DisputeNotFound && (id >= |s.disputes| || s.disputes[id].status != DisputeOpen)
    case DoResolveDispute(id, action, _, _) =>
      || (code == DisputeNotFound && (s.status != TransferStatus.Disputed || id + 1 != |s.disputes|))
      || (code == DisputeResumeUnsafe && action in {Resume, Reject} && id < |s.disputes| && !s.disputes[id].previousVerified)
      || (code == AdminCompletionNotAllowed && action == Complete && id < |s.disputes| && s.disputes[id].previous == PayoutInProgress)
    case DoStartRefund(_) => code == RefundNotAllowed && s.status != FundsConfirmed && s.status != OnHold
    case DoConfirmRefund(refundedAt, now) =>
      || (code == InvalidRefundTime && refundedAt > now + 300_000)
      || (code == RefundConfirmationNotAllowed &&
            (s.status != RefundPending || (s.refund.Some? && refundedAt < s.refund.value.initiatedAt)))
    case _ => true
  }

  lemma DraftIsLast(s: Record)
    requires QuotesOk(s) && HasQuote(s.quotes, Draft)
    ensures LastQuoteIsDraft(s)
  {
    var i :| 0 <= i < |s.quotes| && s.quotes[i].status == Draft;
    assert i == |s.quotes| - 1;
  }

  lemma DraftRefusals(s: Record, op: Op)
    requires QuotesOk(s) && op.DoCreateDraft? && CreateDraft(s, op.draft, op.receiveSupported, op.now).Refused?
    ensures QuoteRefusalTrue(s, op, CreateDraft(s, op.draft, op.receiveSupported, op.now).code)
  {
    if HasQuote(s.quotes, Draft) {
      DraftIsLast(s);
    }
    hide QuotesOk, HasQuote, LastQuoteIsDraft;
  }

  lemma QuoteRefusals(s: Record, op: Op)
    requires QuotesOk(s) && (QuoteStep(op) || op.DoTransition?) && Apply(s, op).Refused?
    ensures QuoteRefusalTrue(s, op, Apply(s, op).code)
  {
    if op.DoCreateDraft? {
      hide QuotesOk, CreateDraft, QuoteRefusalTrue;
      DraftRefusals(s, op);
    } else {
      hide QuotesOk, CreateDraft;
    }
  }

  lemma FundingRefusals(s: Record, op: Op)
    requires QuotesOk(s) && FundingOk(s) && FundingStep(op) && Apply(s, op).Refused?
    ensures FundingRefusalTrue(s, op, Apply(s, op).code)
  {
    if op.DoSubmitProof? {
      SubmitRefusals(s, op);
    } else if op.DoPublish? {
      PublishRefusals(s, op);
    }
    hide QuotesOk, FundingOk;
  }

  lemma PublishRefusals(s: Record, op: Op)
    requires QuotesOk(s) && FundingOk(s) && op.DoPublish? && Apply(s, op).Refused?
    ensures FundingRefusalTrue(s, op, Apply(s, op).code)
  {
  }

  lemma SubmitRefusals(s: Record, op: Op)
    requires FundingOk(s) && op.DoSubmitProof? && SubmitProof(s, op.proofId, op.proof, op.now).Refused?
    ensures FundingRefusalTrue(s, op, SubmitProof(s, op.proofId, op.proof, op.now).code)
  {
    if s.status == FundingPending {
      assert AwaitingProof(s);
      var kept := WithoutStale(s.proofs, op.now);
      assert forall other | other in s.proofs :: UploadOpen(s.proofs[other], op.now) <==> other in kept && ActiveProof(kept[other]);
    }
  }

  lemma PayoutRefusals(s: Record, op: Op)
    requires QuotesOk(s) && ResolutionOk(s) && PayoutStep(op) && Apply(s, op).Refused?
    ensures PayoutRefusalTrue(s, op, Apply(s, op).code)
  {
  }

  lemma CompletionRefusals(s: Record, op: Op)
    requires ResolutionOk(s) && CompletionStep(op) && Apply(s, op).Refused?
    ensures EndingRefusalTrue(s, op, Apply(s, op).code)
  {
    assert ReportedOnce(s) ==> s.confirmations[0].source == StaffConfirmation;
  }

  lemma RefundRefusals(s: Record, op: Op)
    requires QuotesOk(s) && ResolutionOk(s) && RefundStep(op) && Apply(s, op).Refused?
    ensures EndingRefusalTrue(s, op, Apply(s, op).code)
  {
    hide QuoteRowsOk;
  }

  lemma ResolveRefusals(s: Record, op: Op)
    requires QuotesOk(s) && ResolutionOk(s) && op.DoResolveDispute?
    requires ResolveDispute(s, op.disputeId, op.action, op.staff, op.now).Refused?
    ensures EndingRefusalTrue(s, op, ResolveDispute(s, op.disputeId, op.action, op.staff, op.now).code)
  {
    assert s.status == TransferStatus.Disputed ==> LastDisputeActive(s) && AcceptedQuote(s).Some?;
    hide QuotesOk;
    assert ReportedOnce(s) ==> s.confirmations[0].source == StaffConfirmation;
  }

  lemma DisputeRefusals(s: Record, op: Op)
    requires QuotesOk(s) && ResolutionOk(s) && DisputeStep(op) && Apply(s, op).Refused?
    ensures EndingRefusalTrue(s, op, Apply(s, op).code)
  {
    if op.DoResolveDispute? {
      hide QuotesOk, ResolutionOk, EndingRefusalTrue, ResolveDispute;
      ResolveRefusals(s, op);
    } else {
      hide QuotesOk, ResolutionOk;
    }
  }

  lemma EndingRefusals(s: Record, op: Op)
    requires QuotesOk(s) && ResolutionOk(s) && (CompletionStep(op) || RefundStep(op) || DisputeStep(op)) && Apply(s, op).Refused?
    ensures EndingRefusalTrue(s, op, Apply(s, op).code)
  {
    hide QuotesOk, ResolutionOk, Apply, EndingRefusalTrue;
    if CompletionStep(op) {
      CompletionRefusals(s, op);
    } else if RefundStep(op) {
      RefundRefusals(s, op);
    } else {
      DisputeRefusals(s, op);
    }
  }

  /** On a consistent record the code of a refusal names something that really stands in the way. */
  lemma RefusalsAreTrue(s: Record, op: Op)
    requires Inv(s) && Apply(s, op).Refused?
    ensures var code := Apply(s, op).code;
            && QuoteRefusalTrue(s, op, code) && FundingRefusalTrue(s, op, code)
            && PayoutRefusalTrue(s, op, code) && EndingRefusalTrue(s, op, code)
  {
    var code := Apply(s, op).code;
    hide QuotesOk, FundingOk, ResolutionOk, Apply;
    if QuoteStep(op) || op.DoTransition? {
      QuoteRefusals(s, op);
    } else if FundingStep(op) {
      FundingRefusals(s, op);
    } else if PayoutStep(op) {
      PayoutRefusals(s, op);
    } else {
      EndingRefusals(s, op);
    }
  }
}
