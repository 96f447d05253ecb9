/**
 The joint invariant of a transfer's rows. It is split by concern; `Inv` is their conjunction,
 and TransferProofs shows that every step keeps it.
 */
module TransferInvariant {
  import opened Common
  import opened TransferState
  import opened TransferRecords
  import opened TransferSteps

  // ----- Quotes -----

  /** Before any quote was accepted, including the ways out of that phase. */
  predicate Unquoted(status: TransferStatus) {
    status == Requested || status == NeedsInfo || status == Quoting || status == Quoted ||
    status == QuoteExpired || status == Declined
  }

  /** The highest version that is not a draft: drafts are only ever last. */
  predicate HighestNonDraft(quotes: seq<Quote>, i: nat) {
    i < |quotes| && quotes[i].status != Draft &&
    (i == |quotes| - 1 || (i == |quotes| - 2 && quotes[i + 1].status == Draft))
  }

  /** Each lifecycle timestamp is set exactly in the statuses that imply it, and sending and accepting came before the expiry. */
  predicate QuoteTimesOk(quote: Quote) {
    && (quote.sentAt.Some? <==> quote.status != Draft)
    && (quote.acceptedAt.Some? <==> quote.status == Accepted)
    && (quote.rejectedAt.Some? <==> quote.status == Rejected)
    && (quote.sentAt.Some? ==> quote.sentAt.value < quote.expiresAt)
    && (quote.acceptedAt.Some? ==> quote.acceptedAt.value < quote.expiresAt)
  }

  predicate QuoteRowsOk(quotes: seq<Quote>, requested: Money) {
    && (forall i | 0 <= i < |quotes| :: quotes[i].version == i + 1)
    && (forall i | 0 <= i < |quotes| :: quotes[i].send == requested)
    && (forall i | 0 <= i < |quotes| - 1 :: quotes[i].status != Draft)
    && (forall i | 0 <= i < |quotes| :: (quotes[i].status == Sent || quotes[i].status == Accepted) ==> HighestNonDraft(quotes, i))
    && (forall i | 0 <= i < |quotes| :: QuoteTimesOk(quotes[i]))
  }

  predicate QuotesOk(s: Record) {
    && QuoteRowsOk(s.quotes, s.requested)
    && (s.acceptedQuote.Some? ==>
         s.acceptedQuote.value < |s.quotes| && s.quotes[s.acceptedQuote.value].status == Accepted)
    && (HasQuote(s.quotes, Accepted) ==> s.acceptedQuote.Some?)
    && (Unquoted(s.status) ==> s.acceptedQuote.None?)
    && (!Unquoted(s.status) ==> !HasQuote(s.quotes, Sent))
    && (!Unquoted(s.status) && s.status != Cancelled ==> s.acceptedQuote.Some?)
    && (s.status == Quoted ==> HasQuote(s.quotes, Sent))
    && (s.status == QuoteExpired ==> !HasQuote(s.quotes, Sent))
    && (s.status == Requested ==> s.quotes == [])
  }

  // ----- Funding -----

  /** Handed to staff and not sent back. */
  predicate Presented(proof: Proof) {
    proof.status == Submitted || proof.status == Verified
  }

  predicate NonePresented(proofs: map<nat, Proof>) {
    forall id | id in proofs :: !Presented(proofs[id])
  }

  predicate NonePending(proofs: map<nat, Proof>) {
    forall id | id in proofs :: proofs[id].status != PendingUpload
  }

  predicate NoneActive(proofs: map<nat, Proof>) {
    forall id | id in proofs :: !ActiveProof(proofs[id])
  }

  predicate SolePresented(proofs: map<nat, Proof>, id: nat) {
    id in proofs && Presented(proofs[id]) && forall other | other in proofs && Presented(proofs[other]) :: other == id
  }

  predicate SoleVerified(proofs: map<nat, Proof>, id: nat) {
    id in proofs && proofs[id].status == Verified &&
    forall other | other in proofs && proofs[other].status == Verified :: other == id
  }

  ghost predicate OnePresented(proofs: map<nat, Proof>) {
    exists id :: SolePresented(proofs, id)
  }

  ghost predicate OneVerified(proofs: map<nat, Proof>) {
    exists id :: SoleVerified(proofs, id)
  }

  predicate InstructionMatches(s: Record) {
    && |s.instructions| == 1
    && s.acceptedQuote == Some(s.instructions[0].quote)
    && s.instructions[0].amount == s.requested
  }

  predicate NotFunded(s: Record) {
    s.instructions == [] && s.proofs == map[]
  }

  predicate AwaitingProof(s: Record) {
    InstructionMatches(s) && NonePresented(s.proofs)
  }

  ghost predicate UnderReview(s: Record) {
    InstructionMatches(s) && NonePending(s.proofs) && OnePresented(s.proofs)
  }

  ghost predicate Funded(s: Record) {
    InstructionMatches(s) && NoneActive(s.proofs) && OneVerified(s.proofs)
  }

  /** Where the money of a transfer in this status stands. A held transfer can be cancelled with its funds received. */
  ghost predicate FundingStage(s: Record) {
    match s.status
    case FundingPending => AwaitingProof(s)
    case FundingSubmitted => UnderReview(s)
    case QuoteAccepted => NotFunded(s)
    case Cancelled => if s.payoutCase.Some? then Funded(s) else NotFunded(s) || AwaitingProof(s)
    case _ => if Unquoted(s.status) then NotFunded(s) else Funded(s)
  }

  ghost predicate FundingOk(s: Record) {
    && FundingStage(s)
    && (forall a, b | a in s.proofs && b in s.proofs && ActiveProof(s.proofs[a]) && ActiveProof(s.proofs[b]) :: a == b)
    && (forall id | id in s.proofs :: s.proofs[id].status == PendingUpload ==>
         s.proofs[id].file.Some? && s.proofs[id].uploadedAt.None? && s.proofs[id].reviewedAt.None?)
    && (forall id | id in s.proofs :: s.proofs[id].status == Submitted ==> s.proofs[id].reviewedAt.None?)
  }

  // ----- Payout, disputes, refund -----

  predicate CaseIs(s: Record, status: CaseStatus) {
    s.payoutCase.Some? && s.payoutCase.value.status == status
  }

  predicate NotReported(s: Record) {
    s.confirmations == [] && (s.payoutCase.Some? ==> s.payoutCase.value.completed.None?)
  }

  predicate ReportedOnce(s: Record) {
    && s.payoutCase.Some? && s.payoutCase.value.completed.Some?
    && s.payoutCase.value.completed.value.amount == s.payoutCase.value.amount
    && |s.confirmations| >= 1 && s.confirmations[0].source == StaffConfirmation
    && (|s.confirmations| == 1 ||
         (|s.confirmations| == 2 && s.confirmations[1].source == SenderConfirmation && s.status == Completed))
  }

  predicate NoActiveDispute(s: Record) {
    forall i | 0 <= i < |s.disputes| :: !ActiveDispute(s.disputes[i])
  }

  /** The dispute that is open: always the last one opened. */
  predicate LastDisputeActive(s: Record) {
    && s.disputes != []
    && ActiveDispute(s.disputes[|s.disputes| - 1])
    && (forall i | 0 <= i < |s.disputes| - 1 :: !ActiveDispute(s.disputes[i]))
  }

  predicate Untouched(s: Record) {
    s.payoutCase.None? && s.disputes == [] && s.refund.None?
  }

  predicate RefundIs(s: Record, status: RefundStatus) {
    s.refund.Some? && s.refund.value.status == status && (s.payoutCase.None? || CaseIs(s, CaseFailed))
  }

  predicate ResolutionStage(s: Record) {
    match s.status
    case PayoutInProgress => CaseIs(s, CaseInProgress) && NotReported(s)
    case OnHold => CaseIs(s, CaseOnHold) && NotReported(s)
    case PayoutReported => CaseIs(s, CaseReported) && ReportedOnce(s)
    case ConfirmationPending => CaseIs(s, CaseReported) && ReportedOnce(s)
    case Completed => CaseIs(s, CaseCompleted) && ReportedOnce(s)
    case Disputed =>
      && LastDisputeActive(s)
      && (var previous := s.disputes[|s.disputes| - 1].previous;
          if previous == PayoutInProgress
          then CaseIs(s, CaseOnHold) && NotReported(s)
          else (previous == PayoutReported || previous == ConfirmationPending) && CaseIs(s, CaseReported) && ReportedOnce(s))
    case RefundPending => RefundIs(s, RefundUnderway)
    case Refunded => RefundIs(s, RefundPaid)
    case Failed => CaseIs(s, CaseFailed)
    case Cancelled => (Untouched(s) || CaseIs(s, CaseOnHold)) && NotReported(s)
    case _ => Untouched(s)
  }

  predicate ResolutionOk(s: Record) {
    && ResolutionStage(s)
    && (NotReported(s) || ReportedOnce(s))
    && (s.status != RefundPending && s.status != Refunded ==> s.refund.None?)
    && (s.status != Disputed ==> NoActiveDispute(s))
    && (forall i | 0 <= i < |s.disputes| :: Disputable(s.disputes[i].previous))
    && (forall i | 0 <= i < |s.disputes| :: !ActiveDispute(s.disputes[i]) <==> s.disputes[i].resolvedAt.Some?)
    && (s.payoutCase.Some? ==>
         s.acceptedQuote.Some? && s.acceptedQuote.value < |s.quotes| &&
         s.payoutCase.value.amount == s.quotes[s.acceptedQuote.value].receive)
    && (s.refund.Some? ==> s.refund.value.amount == s.requested)
    && (s.refund.Some? ==> (s.refund.value.status == RefundPaid <==> s.refund.value.refundedAt.Some?))
    && (s.refund.Some? && s.refund.value.refundedAt.Some? ==> s.refund.value.initiatedAt <= s.refund.value.refundedAt.value)
  }

  ghost predicate Inv(s: Record) {
    QuotesOk(s) && FundingOk(s) && ResolutionOk(s)
  }
}
