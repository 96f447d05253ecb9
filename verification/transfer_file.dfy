/**
 The service transactions, statement by statement, on the rows of one transfer. Each method is
 one transaction: it either commits what TransferSteps says, or refuses with the same code and
 leaves every row as it was, and keeps the joint invariant. `CreateRefund`, `TargetOf` and `SettleCase`
 are parts of transactions. The checks of assertTransferTransition that follow from the guards
 before them appear as `assert`.
 */
module TransferFiles {
  import opened Common
  import opened TransferState
  import opened TransferRecords
  import opened TransferSteps
  import opened TransferInvariant
  import opened TransferProofs
  import opened TransferRuns

  /** `after` and `refusal` are what `outcome` says a transaction starting from `before` must leave. */
  predicate Settles(before: Record, outcome: Outcome, after: Record, refusal: Option<Refusal>) {
    match outcome
    case Done(next) => after == next && refusal == None
    case Refused(code) => after == before && refusal == Some(code)
  }

  /** A step that is about to be taken from consistent rows leaves consistent rows. */
  lemma StepIsSafe(s: Record, op: Op, outcome: Outcome)
    requires Inv(s) && Legal(op) && outcome == Apply(s, op)
    ensures outcome.Done? ==> Inv(outcome.next)
  {
    hide Inv, Apply, Legal;
    if Apply(s, op).Done? {
      StepKeeps(s, op);
    }
  }

  /** What a status check can hand out: an edge of the table to one of the targets of `transition`. */
  predicate Issued(ticket: Ticket) {
    Allowed(ticket.from, ticket.target) && ticket.target in TRANSITION_TARGETS
  }

  class TransferFile {
    const requested: Money
    var status: TransferStatus
    var acceptedQuote: Option<nat>
    var quotes: seq<Quote>
    var instructions: seq<Instruction>
    var proofs: map<nat, Proof>
    var payoutCase: Option<PayoutCase>
    var disputes: seq<Dispute>
    var confirmations: seq<Confirmation>
    var refund: Option<Refund>

    ghost function Rows(): Record
      reads this
    {
      Record(requested, status, acceptedQuote, quotes, instructions, proofs, payoutCase, disputes, confirmations, refund)
    }

    /** The joint invariant. It holds before and after every transaction, so after any sequence of calls whatever. */
    ghost predicate Valid()
      reads this
    {
      Inv(Rows())
    }

    constructor (requested: Money)
      ensures Valid() && Rows() == NewRecord(requested)
    {
      this.requested := requested;
      status := Requested;
      acceptedQuote, quotes, instructions, proofs := None, [], [], map[];
      payoutCase, disputes, confirmations, refund := None, [], [], None;
    }

    // ----- transfers/service.ts -----

    /**
     The first half of `transition`: read the status and check the table. A ticket commits if nothing intervenes, and
     keeps the rows consistent; without one, no ticket for this target could commit on these rows.
     */
    method ReadForTransition(target: TransferStatus) returns (ticket: Option<Ticket>, refusal: Option<Refusal>)
      requires Valid() && target in TRANSITION_TARGETS
      ensures ticket.Some? ==>
                && Issued(ticket.value) && refusal == None
                && var outcome := Transition(Rows(), ticket.value.from, ticket.value.target);
                   outcome.Done? && outcome.next.status == target && Inv(outcome.next)
      ensures ticket.None? ==>
                && refusal == Some(InvalidTransferTransition)
                && forall other: Ticket | Issued(other) && other.target == target ::
                     Transition(Rows(), other.from, target).Refused?
    {
      if Allowed(status, target) {
        StepIsSafe(Rows(), DoTransition(status, target), Transition(Rows(), status, target));
        return Some(Ticket(status, target)), None;
      }
      return None, Some(InvalidTransferTransition);
    }

    /** The second half: an update guarded by the status that was read. */
    method CommitTransition(ticket: Ticket) returns (refusal: Option<Refusal>)
      requires Valid() && Issued(ticket)
      modifies this
      ensures Valid()
      ensures Settles(old(Rows()), Transition(old(Rows()), ticket.from, ticket.target), Rows(), refusal)
    {
      hide QuotesOk, FundingOk, ResolutionOk;
      StepIsSafe(Rows(), DoTransition(ticket.from, ticket.target), Transition(Rows(), ticket.from, ticket.target));
      hide Inv, Apply, Legal;
      if status != ticket.from {
        return Some(TransferChanged);
      }
      status := ticket.target;
      if ticket.target == Cancelled {
        quotes := SupersedeSent(quotes);
      }
      return None;
    }

    // ----- quotes/service.ts -----

    method CreateDraft(input: DraftInput, receiveSupported: bool, now: Instant) returns (refusal: Option<Refusal>)
      requires Valid()
      modifies this
      ensures Valid()
      ensures Settles(old(Rows()), TransferSteps.CreateDraft(old(Rows()), input, receiveSupported, now), Rows(), refusal)
    {
      hide QuotesOk, FundingOk, ResolutionOk;
      StepIsSafe(Rows(), DoCreateDraft(input, receiveSupported, now),
                 TransferSteps.CreateDraft(Rows(), input, receiveSupported, now));
      hide Inv, Apply, Legal;
      if input.send.minor > MAX_BIGINT || input.fee > MAX_BIGINT || input.receive.minor > MAX_BIGINT {
        return Some(InvalidQuoteAmount);
      }
      if input.expectedDeliveryAt <= now {
        return Some(InvalidDeliveryTime);
      }
      if !receiveSupported {
        return Some(UnsupportedReceiveCurrency);
      }
      if status != Quoting && status != Quoted {
        return Some(TransferNotQuotable);
      }
      if requested.minor != input.send.minor || requested.currency != input.send.currency {
        return Some(QuoteRequestMismatch);
      }
      if HasQuote(quotes, Draft) {
        return Some(QuoteDraftExists);
      }
      var version := MaxVersion(quotes) + 1;
      var expiresAt := now + input.validForMinutes * MINUTE;
      quotes := quotes + [Quote(version, input.send, input.fee, input.receive, input.expectedDeliveryAt, expiresAt,
                                Draft, now, None, None, None)];
      return None;
    }

    method SendDraft(quoteId: nat, now: Instant) returns (refusal: Option<Refusal>)
      requires Valid()
      modifies this
      ensures Valid()
      ensures Settles(old(Rows()), TransferSteps.SendDraft(old(Rows()), quoteId, now), Rows(), refusal)
    {
      hide QuotesOk, FundingOk, ResolutionOk;
      StepIsSafe(Rows(), DoSendDraft(quoteId, now), TransferSteps.SendDraft(Rows(), quoteId, now));
      hide Inv, Apply, Legal;
      if quoteId >= |quotes| {
        return Some(QuoteNotFound);
      }
      if quotes[quoteId].status != Draft {
        return Some(QuoteNotDraft);
      }
      if quotes[quoteId].expiresAt <= now {
        return Some(QuoteAlreadyExpired);
      }
      if status != Quoting && status != Quoted {
        return Some(TransferNotQuotable);
      }
      quotes := SupersedeSent(quotes);
      quotes := quotes[quoteId := quotes[quoteId].(status := Sent, sentAt := Some(now))];
      if status == Quoting {
        assert Allowed(status, Quoted);
        status := Quoted;
      }
      return None;
    }

    method ExpireIfNeeded(now: Instant) returns (refusal: Option<Refusal>)
      requires Valid()
      modifies this
      ensures Valid()
      ensures Settles(old(Rows()), TransferSteps.ExpireIfNeeded(old(Rows()), now), Rows(), refusal)
    {
      hide QuotesOk, FundingOk, ResolutionOk;
      StepIsSafe(Rows(), DoExpire(now), TransferSteps.ExpireIfNeeded(Rows(), now));
      hide Inv, Apply, Legal;
      var active := FirstQuote(quotes, Sent);
      if active.None? || quotes[active.value].expiresAt > now {
        return None;
      }
      quotes := quotes[active.value := quotes[active.value].(status := Expired)];
      if status == Quoted {
        assert Allowed(status, QuoteExpired);
        status := QuoteExpired;
      }
      return None;
    }

    method Decide(quoteId: nat, accept: bool, now: Instant) returns (refusal: Option<Refusal>)
      requires Valid()
      modifies this
      ensures Valid()
      ensures Settles(old(Rows()), TransferSteps.Decide(old(Rows()), quoteId, accept, now), Rows(), refusal)
    {
      hide QuotesOk, FundingOk, ResolutionOk;
      StepIsSafe(Rows(), DoDecide(quoteId, accept, now), TransferSteps.Decide(Rows(), quoteId, accept, now));
      hide Inv, Apply, Legal;
      if quoteId >= |quotes| || quotes[quoteId].status == Draft {
        return Some(QuoteNotFound);
      }
      if quotes[quoteId].status != Sent || status != Quoted {
        return Some(QuoteNotActionable);
      }
      if quotes[quoteId].expiresAt <= now {
        return Some(QuoteIsExpired);
      }
      var quoteStatus := if accept then Accepted else Rejected;
      var transferStatus := if accept then QuoteAccepted else Quoting;
      assert Allowed(status, transferStatus);
      if accept {
        quotes := quotes[quoteId := quotes[quoteId].(status := quoteStatus, acceptedAt := Some(now))];
        acceptedQuote := Some(quoteId);
      } else {
        quotes := quotes[quoteId := quotes[quoteId].(status := quoteStatus, rejectedAt := Some(now))];
      }
      status := transferStatus;
      return None;
    }

    // ----- funding/service.ts -----

    method PublishInstruction(template: Option<Template>, validUntil: Option<Instant>, now: Instant) returns (refusal: Option<Refusal>)
      requires Valid()
      modifies this
      ensures Valid()
      ensures Settles(old(Rows()), TransferSteps.PublishInstruction(old(Rows()), template, validUntil, now), Rows(), refusal)
    {
      hide QuotesOk, FundingOk, ResolutionOk;
      StepIsSafe(Rows(), DoPublish(template, validUntil, now),
                 TransferSteps.PublishInstruction(Rows(), template, validUntil, now));
      hide Inv, Apply, Legal;
      if validUntil.Some? && validUntil.value <= now {
        return Some(InvalidFundingExpiry);
      }
      if status != QuoteAccepted || acceptedQuote.None? || acceptedQuote.value >= |quotes| || quotes[acceptedQuote.value].status != Accepted {
        return Some(FundingNotReady);
      }
      var quote := quotes[acceptedQuote.value];
      if |instructions| > 0 {
        return Some(FundingInstructionExists);
      }
      if template.None? || !template.value.active || template.value.currency != quote.send.currency {
        return Some(FundingTemplateUnavailable);
      }
      instructions := instructions + [Instruction(acceptedQuote.value, quote.send, validUntil, now)];
      assert instructions == [Instruction(acceptedQuote.value, quote.send, validUntil, now)];
      assert Allowed(status, FundingPending);
      status := FundingPending;
      return None;
    }

    method SubmitProof(id: nat, input: ProofInput, now: Instant) returns (refusal: Option<Refusal>)
      requires Valid()
      modifies this
      ensures Valid()
      ensures Settles(old(Rows()), TransferSteps.SubmitProof(old(Rows()), id, input, now), Rows(), refusal)
    {
      hide QuotesOk, FundingOk, ResolutionOk;
      StepIsSafe(Rows(), DoSubmitProof(id, input, now), TransferSteps.SubmitProof(Rows(), id, input, now));
      hide Inv, Apply, Legal;
      if input.claimed.Some? && input.claimed.value.minor > MAX_BIGINT {
        return Some(InvalidFundingAmount);
      }
      if status != FundingPending || instructions == [] {
        return Some(FundingProofNotAllowed);
      }
      var kept := WithoutStale(proofs, now);
      if exists other | other in kept :: kept[other].status == PendingUpload || kept[other].status == Submitted {
        return Some(FundingProofActive);
      }
      if input.claimed.Some? && input.claimed.value.currency != instructions[0].amount.currency {
        return Some(FundingCurrencyMismatch);
      }
      if id in proofs {
        return Some(DuplicateIdentifier);
      }
      proofs := kept;
      proofs := proofs[id := Proof(if input.file.Some? then PendingUpload else Submitted, input.file, input.claimed, None, None, now)];
      if input.file.None? {
        assert Allowed(status, FundingSubmitted);
        status := FundingSubmitted;
      }
      return None;
    }

    method CommitUpload(id: nat, now: Instant) returns (refusal: Option<Refusal>)
      requires Valid()
      modifies this
      ensures Valid()
      ensures Settles(old(Rows()), TransferSteps.CommitUpload(old(Rows()), id, now), Rows(), refusal)
    {
      hide QuotesOk, FundingOk, ResolutionOk;
      StepIsSafe(Rows(), DoCommitUpload(id, now), TransferSteps.CommitUpload(Rows(), id, now));
      hide Inv, Apply, Legal;
      if id !in proofs {
        return Some(EvidenceUploadClosed);
      }
      if proofs[id].file.None? {
        return Some(EvidenceUploadNotFound);
      }
      if proofs[id].status != PendingUpload {
        return Some(EvidenceUploadClosed);
      }
      if proofs[id].file.value.uploadExpiresAt <= now {
        return Some(EvidenceUrlExpired);
      }
      if status != FundingPending {
        return Some(EvidenceUploadClosed);
      }
      proofs := proofs[id := proofs[id].(status := Submitted, uploadedAt := Some(now))];
      assert Allowed(status, FundingSubmitted);
      status := FundingSubmitted;
      return None;
    }

    method ReviewProof(id: nat, decision: Review, now: Instant) returns (refusal: Option<Refusal>)
      requires Valid()
      modifies this
      ensures Valid()
      ensures Settles(old(Rows()), TransferSteps.ReviewProof(old(Rows()), id, decision, now), Rows(), refusal)
    {
      hide QuotesOk, FundingOk, ResolutionOk;
      StepIsSafe(Rows(), DoReviewProof(id, decision, now), TransferSteps.ReviewProof(Rows(), id, decision, now));
      hide Inv, Apply, Legal;
      var target := ReviewTarget(decision);
      if id !in proofs {
        return Some(FundingProofNotFound);
      }
      if status != FundingSubmitted || proofs[id].status != Submitted {
        return Some(FundingProofNotReviewable);
      }
      proofs := proofs[id := proofs[id].(status := target, reviewedAt := Some(now))];
      if target != Verified {
        assert Allowed(status, FundingPending);
        status := FundingPending;
      }
      return None;
    }

    method ConfirmFunds(id: nat) returns (refusal: Option<Refusal>)
      requires Valid()
      modifies this
      ensures Valid()
      ensures Settles(old(Rows()), TransferSteps.ConfirmFunds(old(Rows()), id), Rows(), refusal)
    {
      hide QuotesOk, FundingOk, ResolutionOk;
      StepIsSafe(Rows(), DoConfirmFunds(id), TransferSteps.ConfirmFunds(Rows(), id));
      hide Inv, Apply, Legal;
      if id !in proofs || proofs[id].status != Verified {
        return Some(VerifiedFundingProofNotFound);
      }
      if status != FundingSubmitted {
        return Some(FundsConfirmationNotAllowed);
      }
      assert Allowed(status, FundsConfirmed);
      status := FundsConfirmed;
      return None;
    }

    // ----- payout/service.ts -----

    method CreateCase(input: CaseInput, ownerActive: bool, associateFits: bool, now: Instant) returns (refusal: Option<Refusal>)
      requires Valid()
      modifies this
      ensures Valid()
      ensures Settles(old(Rows()), TransferSteps.CreateCase(old(Rows()), input, ownerActive, associateFits, now), Rows(), refusal)
    {
      hide QuotesOk, FundingOk, ResolutionOk;
      StepIsSafe(Rows(), DoCreateCase(input, ownerActive, associateFits, now),
                 TransferSteps.CreateCase(Rows(), input, ownerActive, associateFits, now));
      hide Inv, Apply, Legal;
      if input.expectedBy <= now {
        return Some(InvalidPayoutDeadline);
      }
      if status != FundsConfirmed || payoutCase.Some? || acceptedQuote.None? || acceptedQuote.value >= |quotes| ||
         quotes[acceptedQuote.value].status != Accepted {
        return Some(PayoutNotReady);
      }
      if !ownerActive {
        return Some(PayoutOwnerUnavailable);
      }
      if input.associate.Some? && !associateFits {
        return Some(AssociateUnavailable);
      }
      payoutCase := Some(PayoutCase(CaseInProgress, quotes[acceptedQuote.value].receive, input.associate,
                                    input.expectedBy, input.reference, None, map[], now));
      assert Allowed(status, PayoutInProgress);
      status := PayoutInProgress;
      return None;
    }

    method UpdateCase(patch: CasePatch, ownerActive: bool, associateFits: bool, now: Instant) returns (refusal: Option<Refusal>)
      requires Valid()
      modifies this
      ensures Valid()
      ensures Settles(old(Rows()), TransferSteps.UpdateCase(old(Rows()), patch, ownerActive, associateFits, now), Rows(), refusal)
    {
      hide QuotesOk, FundingOk, ResolutionOk;
      StepIsSafe(Rows(), DoUpdateCase(patch, ownerActive, associateFits, now),
                 TransferSteps.UpdateCase(Rows(), patch, ownerActive, associateFits, now));
      hide Inv, Apply, Legal;
      if payoutCase.None? {
        return Some(PayoutCaseNotFound);
      }
      if status != PayoutInProgress || payoutCase.value.status != CaseInProgress || acceptedQuote.None? || acceptedQuote.value >= |quotes| {
        return Some(PayoutCaseNotEditable);
      }
      if patch.expectedBy.Some? && patch.expectedBy.value <= now {
        return Some(InvalidPayoutDeadline);
      }
      if patch.owner.Some? && !ownerActive {
        return Some(PayoutOwnerUnavailable);
      }
      if patch.associate.Some? && !associateFits {
        return Some(AssociateUnavailable);
      }
      if patch.associate.Some? {
        payoutCase := Some(payoutCase.value.(associate := patch.associate));
      }
      if patch.expectedBy.Some? {
        payoutCase := Some(payoutCase.value.(expectedBy := patch.expectedBy.value));
      }
      if patch.reference.Some? {
        payoutCase := Some(payoutCase.value.(reference := patch.reference));
      }
      return None;
    }

    method AddEvidence(id: nat, reference: Option<string>, file: Option<Attachment>) returns (refusal: Option<Refusal>)
      requires Valid()
      modifies this
      ensures Valid()
      ensures Settles(old(Rows()), TransferSteps.AddEvidence(old(Rows()), id, reference, file), Rows(), refusal)
    {
      hide QuotesOk, FundingOk, ResolutionOk;
      StepIsSafe(Rows(), DoAddEvidence(id, reference, file),
                 TransferSteps.AddEvidence(Rows(), id, reference, file));
      hide Inv, Apply, Legal;
      if payoutCase.None? {
        return Some(PayoutCaseNotFound);
      }
      if status != PayoutInProgress || payoutCase.value.status != CaseInProgress {
        return Some(PayoutEvidenceNotAllowed);
      }
      if id in payoutCase.value.evidence {
        return Some(DuplicateIdentifier);
      }
      payoutCase := Some(payoutCase.value.(evidence := payoutCase.value.evidence[id := Evidence(reference, file, None)]));
      return None;
    }

    method CommitEvidenceUpload(id: nat, now: Instant) returns (refusal: Option<Refusal>)
      requires Valid()
      modifies this
      ensures Valid()
      ensures Settles(old(Rows()), TransferSteps.CommitEvidenceUpload(old(Rows()), id, now), Rows(), refusal)
    {
      hide QuotesOk, FundingOk, ResolutionOk;
      StepIsSafe(Rows(), DoCommitEvidenceUpload(id, now), TransferSteps.CommitEvidenceUpload(Rows(), id, now));
      hide Inv, Apply, Legal;
      if payoutCase.None? || id !in payoutCase.value.evidence {
        return Some(EvidenceUploadClosed);
      }
      var row := payoutCase.value.evidence[id];
      if row.file.None? {
        return Some(EvidenceUploadNotFound);
      }
      if row.uploadedAt.Some? {
        return Some(EvidenceUploadClosed);
      }
      if row.file.value.uploadExpiresAt <= now {
        return Some(EvidenceUrlExpired);
      }
      if payoutCase.value.status != CaseInProgress || status != PayoutInProgress {
        return Some(EvidenceUploadClosed);
      }
      var uploaded := row.(uploadedAt := Some(now));
      payoutCase := Some(payoutCase.value.(evidence := payoutCase.value.evidence[id := uploaded]));
      return None;
    }

    method ReportPayout(input: ReportInput, associateFits: bool, now: Instant) returns (refusal: Option<Refusal>)
      requires Valid()
      modifies this
      ensures Valid()
      ensures Settles(old(Rows()), TransferSteps.ReportPayout(old(Rows()), input, associateFits, now), Rows(), refusal)
    {
      hide QuotesOk, FundingOk, ResolutionOk;
      StepIsSafe(Rows(), DoReportPayout(input, associateFits, now),
                 TransferSteps.ReportPayout(Rows(), input, associateFits, now));
      hide Inv, Apply, Legal;
      if input.amount.minor > MAX_BIGINT || input.completedAt > now + 5 * MINUTE {
        return Some(InvalidPayoutCompletion);
      }
      if payoutCase.None? {
        return Some(PayoutCaseNotFound);
      }
      var current := payoutCase.value;
      if status != PayoutInProgress || current.status != CaseInProgress {
        return Some(PayoutReportNotAllowed);
      }
      if current.associate.None? {
        return Some(PayoutAssociateRequired);
      }
      if !associateFits {
        return Some(AssociateUnavailable);
      }
      if input.amount.minor != current.amount.minor || input.amount.currency != current.amount.currency ||
         input.completedAt < current.createdAt {
        return Some(PayoutCompletionMismatch);
      }
      if input.reference.None? && !HasPayoutEvidence(current) {
        return Some(PayoutEvidenceRequired);
      }
      payoutCase := Some(current.(
        status := CaseReported,
        completed := Some(Completion(input.amount, input.completedAt)),
        reference := if input.reference.Some? then input.reference else current.reference));
      assert Allowed(status, PayoutReported);
      status := PayoutReported;
      confirmations := confirmations + [Confirmation(StaffConfirmation, now)];
      return None;
    }

    /** hold and release. Only placing a hold consults the status table. */
    method ChangeHold(place: bool) returns (refusal: Option<Refusal>)
      requires Valid()
      modifies this
      ensures Valid()
      ensures Settles(old(Rows()), if place then PlaceHold(old(Rows())) else ReleaseHold(old(Rows())), Rows(), refusal)
    {
      hide QuotesOk, FundingOk, ResolutionOk;
      StepIsSafe(Rows(), if place then DoHold else DoRelease,
                 if place then PlaceHold(Rows()) else ReleaseHold(Rows()));
      hide Inv, Apply, Legal;
      if payoutCase.None? {
        return Some(PayoutCaseNotFound);
      }
      var expectedTransfer := if place then PayoutInProgress else OnHold;
      var expectedCase := if place then CaseInProgress else CaseOnHold;
      if status != expectedTransfer || payoutCase.value.status != expectedCase {
        return Some(PayoutHoldNotAllowed);
      }
      var nextTransfer := if place then OnHold else PayoutInProgress;
      var nextCase := if place then CaseOnHold else CaseInProgress;
      if place {
        assert Allowed(status, nextTransfer);
      }
      payoutCase := Some(payoutCase.value.(status := nextCase));
      status := nextTransfer;
      return None;
    }

    // ----- resolution/service.ts -----

    method RequestSenderConfirmation() returns (refusal: Option<Refusal>)
      requires Valid()
      modifies this
      ensures Valid()
      ensures Settles(old(Rows()), TransferSteps.RequestSenderConfirmation(old(Rows())), Rows(), refusal)
    {
      hide QuotesOk, FundingOk, ResolutionOk;
      StepIsSafe(Rows(), DoRequestConfirmation, TransferSteps.RequestSenderConfirmation(Rows()));
      hide Inv, Apply, Legal;
      if status != PayoutReported || payoutCase.None? || payoutCase.value.status != CaseReported ||
         !HasConfirmation(confirmations, StaffConfirmation) {
        return Some(ConfirmationNotReady);
      }
      assert Allowed(status, ConfirmationPending);
      status := ConfirmationPending;
      return None;
    }

    method ConfirmRecipientReceived(now: Instant) returns (refusal: Option<Refusal>)
      requires Valid()
      modifies this
      ensures Valid()
      ensures Settles(old(Rows()), TransferSteps.ConfirmRecipientReceived(old(Rows()), now), Rows(), refusal)
    {
      hide QuotesOk, FundingOk, ResolutionOk;
      StepIsSafe(Rows(), DoConfirmReceived(now), TransferSteps.ConfirmRecipientReceived(Rows(), now));
      hide Inv, Apply, Legal;
      if status != ConfirmationPending || payoutCase.None? || payoutCase.value.status != CaseReported ||
         !HasConfirmation(confirmations, StaffConfirmation) {
        return Some(SenderConfirmationNotAllowed);
      }
      confirmations := confirmations + [Confirmation(SenderConfirmation, now)];
      assert Allowed(status, Completed);
      status := Completed;
      payoutCase := Some(payoutCase.value.(status := CaseCompleted));
      return None;
    }

    method CompleteByAdmin() returns (refusal: Option<Refusal>)
      requires Valid()
      modifies this
      ensures Valid()
      ensures Settles(old(Rows()), TransferSteps.CompleteByAdmin(old(Rows())), Rows(), refusal)
    {
      hide QuotesOk, FundingOk, ResolutionOk;
      StepIsSafe(Rows(), DoCompleteByAdmin, TransferSteps.CompleteByAdmin(Rows()));
      hide Inv, Apply, Legal;
      if (status != PayoutReported && status != ConfirmationPending) || payoutCase.None? ||
         payoutCase.value.status != CaseReported || !HasConfirmation(confirmations, StaffConfirmation) {
        return Some(AdminCompletionNotAllowed);
      }
      assert Allowed(status, Completed);
      status := Completed;
      payoutCase := Some(payoutCase.value.(status := CaseCompleted));
      return None;
    }

    method OpenDispute(verified: bool, now: Instant) returns (refusal: Option<Refusal>)
      requires Valid()
      modifies this
      ensures Valid()
      ensures Settles(old(Rows()), TransferSteps.OpenDispute(old(Rows()), verified, now), Rows(), refusal)
    {
      hide QuotesOk, FundingOk, ResolutionOk;
      StepIsSafe(Rows(), DoOpenDispute(verified, now), TransferSteps.OpenDispute(Rows(), verified, now));
      hide Inv, Apply, Legal;
      if status != PayoutInProgress && status != PayoutReported && status != ConfirmationPending {
        return Some(DisputeNotAllowed);
      }
      disputes := disputes + [Dispute(status, verified, DisputeOpen, None, None, now, None)];
      assert Allowed(status, Disputed);
      status := Disputed;
      if payoutCase.Some? && payoutCase.value.status == CaseInProgress {
        payoutCase := Some(payoutCase.value.(status := CaseOnHold));
      }
      return None;
    }

    method TakeDispute(id: nat, staff: nat) returns (refusal: Option<Refusal>)
      requires Valid()
      modifies this
      ensures Valid()
      ensures Settles(old(Rows()), TransferSteps.TakeDispute(old(Rows()), id, staff), Rows(), refusal)
    {
      hide QuotesOk, FundingOk, ResolutionOk;
      StepIsSafe(Rows(), DoTakeDispute(id, staff), TransferSteps.TakeDispute(Rows(), id, staff));
      hide Inv, Apply, Legal;
      if id >= |disputes| || disputes[id].status != DisputeOpen {
        return Some(DisputeNotFound);
      }
      disputes := disputes[id := disputes[id].(status := InReview, assignee := Some(staff))];
      return None;
    }

    /** createRefund: a refund of what the accepted quote had the sender pay. */
    method CreateRefund(now: Instant) returns (refusal: Option<Refusal>)
      modifies this`refund
      ensures refusal == if AcceptedQuote(old(Rows())).None? then Some(RefundSnapshotUnavailable) else None
      ensures refund == if AcceptedQuote(old(Rows())).None? then old(refund)
                        else Some(Refund(RefundUnderway, AcceptedQuote(old(Rows())).value.send, now, None))
    {
      if acceptedQuote.None? || acceptedQuote.value >= |quotes| {
        return Some(RefundSnapshotUnavailable);
      }
      refund := Some(Refund(RefundUnderway, quotes[acceptedQuote.value].send, now, None));
      return None;
    }

    /** Where the resolution of a dispute takes the transfer. */
    method TargetOf(dispute: Dispute, action: Resolution) returns (target: TransferStatus)
      ensures target == ResolutionTarget(dispute, action)
      ensures Allowed(Disputed, target)
    {
      if action == RefundSender {
        target := RefundPending;
      } else if action == Complete {
        target := Completed;
      } else if action == Fail {
        target := Failed;
      } else if dispute.previous == PayoutInProgress {
        target := PayoutInProgress;
      } else {
        target := ConfirmationPending;
      }
    }

    /** What the resolution of a dispute does to the case. */
    method SettleCase(target: TransferStatus)
      modifies this`payoutCase
      ensures payoutCase ==
              if old(payoutCase).Some?
              then Some(old(payoutCase).value.(status := CaseAfterResolution(old(payoutCase).value.status, target)))
              else None
    {
      if payoutCase.Some? && payoutCase.value.status == CaseOnHold {
        payoutCase := Some(payoutCase.value.(status :=
          if target == PayoutInProgress then CaseInProgress else if target == Completed then CaseCompleted else CaseFailed));
      } else if payoutCase.Some? && payoutCase.value.status == CaseReported && target == Completed {
        payoutCase := Some(payoutCase.value.(status := CaseCompleted));
      } else if payoutCase.Some? && payoutCase.value.status == CaseReported && (target == RefundPending || target == Failed) {
        payoutCase := Some(payoutCase.value.(status := CaseFailed));
      }
    }

    method ResolveDispute(id: nat, action: Resolution, staff: nat, now: Instant) returns (refusal: Option<Refusal>)
      requires Valid()
      modifies this
      ensures Valid()
      ensures Settles(old(Rows()), TransferSteps.ResolveDispute(old(Rows()), id, action, staff, now), Rows(), refusal)
    {
      hide QuotesOk, FundingOk, ResolutionOk;
      StepIsSafe(Rows(), DoResolveDispute(id, action, staff, now),
                 TransferSteps.ResolveDispute(Rows(), id, action, staff, now));
      hide Inv, Apply, Legal;
      if id >= |disputes| || (disputes[id].status != DisputeOpen && disputes[id].status != InReview) || status != Disputed {
        return Some(DisputeNotFound);
      }
      var dispute := disputes[id];
      if (action == Resume || action == Reject) && !dispute.previousVerified {
        return Some(DisputeResumeUnsafe);
      }
      var target := TargetOf(dispute, action);
      if target == Completed &&
         (!HasConfirmation(confirmations, StaffConfirmation) || payoutCase.None? || payoutCase.value.status != CaseReported) {
        return Some(AdminCompletionNotAllowed);
      }
      assert Allowed(status, target);
      if action == RefundSender {
        refusal := CreateRefund(now);
        if refusal.Some? {
          return;
        }
      }
      SettleCase(target);
      status := target;
      disputes := disputes[id := dispute.(
        status := if action == Reject then DisputeRejected else Resolved,
        action := Some(action),
        assignee := if dispute.assignee.Some? then dispute.assignee else Some(staff),
        resolvedAt := Some(now))];
      return None;
    }

    method StartRefund(now: Instant) returns (refusal: Option<Refusal>)
      requires Valid()
      modifies this
      ensures Valid()
      ensures Settles(old(Rows()), TransferSteps.StartRefund(old(Rows()), now), Rows(), refusal)
    {
      hide QuotesOk, FundingOk, ResolutionOk;
      StepIsSafe(Rows(), DoStartRefund(now), TransferSteps.StartRefund(Rows(), now));
      hide Inv, Apply, Legal;
      if refund.Some? || (status != FundsConfirmed && status != OnHold) {
        return Some(RefundNotAllowed);
      }
      refusal := CreateRefund(now);
      if refusal.Some? {
        return;
      }
      assert Allowed(status, RefundPending);
      if payoutCase.Some? && payoutCase.value.status == CaseOnHold {
        payoutCase := Some(payoutCase.value.(status := CaseFailed));
      }
      status := RefundPending;
      return None;
    }

    method ConfirmRefund(refundedAt: Instant, now: Instant) returns (refusal: Option<Refusal>)
      requires Valid()
      modifies this
      ensures Valid()
      ensures Settles(old(Rows()), TransferSteps.ConfirmRefund(old(Rows()), refundedAt, now), Rows(), refusal)
    {
      hide QuotesOk, FundingOk, ResolutionOk;
      StepIsSafe(Rows(), DoConfirmRefund(refundedAt, now), TransferSteps.ConfirmRefund(Rows(), refundedAt, now));
      hide Inv, Apply, Legal;
      if refundedAt > now + 5 * MINUTE {
        return Some(InvalidRefundTime);
      }
      if refund.None? || status != RefundPending || refund.value.status != RefundUnderway || refundedAt < refund.value.initiatedAt {
        return Some(RefundConfirmationNotAllowed);
      }
      refund := Some(refund.value.(status := RefundPaid, refundedAt := Some(refundedAt)));
      assert Allowed(status, Refunded);
      status := Refunded;
      return None;
    }
  }
}
