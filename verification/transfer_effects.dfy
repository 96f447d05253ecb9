/**
 What each transaction does to a consistent record, row by row, and what a row of a reachable record therefore tells
 about the run that led there.
 */
module TransferEffects {
  import opened Common
  import opened TransferState
  import opened TransferRecords
  import opened TransferSteps
  import opened TransferInvariant
  import opened TransferProofs
  import opened TransferRuns
  import opened TransferAnswers

  // ----- What a step leaves alone -----

  predicate QuotesAlone(s: Record, r: Record) {
    r.requested == s.requested && r.quotes == s.quotes && r.acceptedQuote == s.acceptedQuote
  }

  predicate FundingAlone(s: Record, r: Record) {
    r.instructions == s.instructions && r.proofs == s.proofs
  }

  predicate PayoutAlone(s: Record, r: Record) {
    r.payoutCase == s.payoutCase && r.disputes == s.disputes && r.confirmations == s.confirmations && r.refund == s.refund
  }

  predicate CaseMoved(s: Record, r: Record, status: CaseStatus) {
    s.payoutCase.Some? && r.payoutCase == Some(s.payoutCase.value.(status := status))
  }

  /** All quotes but this one are as they were, and this one differs at most in its status and its times. */
  predicate OneQuoteMoved(s: Record, r: Record, id: nat) {
    && id < |s.quotes| == |r.quotes|
    && (forall i | 0 <= i < |s.quotes| && i != id :: r.quotes[i] == s.quotes[i])
    && (r.quotes[id].version, r.quotes[id].send, r.quotes[id].fee, r.quotes[id].receive) ==
       (s.quotes[id].version, s.quotes[id].send, s.quotes[id].fee, s.quotes[id].receive)
    && (r.quotes[id].expectedDeliveryAt, r.quotes[id].expiresAt, r.quotes[id].createdAt, r.quotes[id].sentAt) ==
       (s.quotes[id].expectedDeliveryAt, s.quotes[id].expiresAt, s.quotes[id].createdAt, s.quotes[id].sentAt)
  }

  /** The same for the proofs, but for what becomes of its status and its times. */
  predicate OneProofMoved(s: Record, r: Record, id: nat) {
    && id in s.proofs && r.proofs.Keys == s.proofs.Keys
    && (forall other | other in s.proofs && other != id :: r.proofs[other] == s.proofs[other])
    && (r.proofs[id].file, r.proofs[id].claimed, r.proofs[id].createdAt) ==
       (s.proofs[id].file, s.proofs[id].claimed, s.proofs[id].createdAt)
  }

  // ----- Quotes -----

  lemma DraftEffect(s: Record, draft: DraftInput, supported: bool, now: Instant)
    requires QuotesOk(s) && CreateDraft(s, draft, supported, now).Done?
    ensures var r := CreateDraft(s, draft, supported, now).next; var n := |s.quotes|;
            && |r.quotes| == n + 1 && (forall i | 0 <= i < n :: r.quotes[i] == s.quotes[i])
            && r.quotes[n].status == Draft && r.quotes[n].version == n + 1
            && (r.quotes[n].send, r.quotes[n].fee, r.quotes[n].receive) == (draft.send, draft.fee, draft.receive)
            && r.quotes[n].expectedDeliveryAt == draft.expectedDeliveryAt
            && r.quotes[n].createdAt == now && r.quotes[n].expiresAt == now + draft.validForMinutes * 60_000
            && r.quotes[n].sentAt.None? && r.quotes[n].acceptedAt.None? && r.quotes[n].rejectedAt.None?
            && r.requested == s.requested && r.status == s.status && r.acceptedQuote == s.acceptedQuote
            && FundingAlone(s, r) && PayoutAlone(s, r)
  {
    CreateDraftKeepsQuotes(s, draft, supported, now);
  }

  /** The draft goes out, and every quote that was out is superseded. */
  lemma SendEffect(s: Record, id: nat, now: Instant)
    requires QuotesOk(s) && SendDraft(s, id, now).Done?
    ensures var r := SendDraft(s, id, now).next;
            && id + 1 == |s.quotes| == |r.quotes| && r.status == Quoted
            && r.quotes[id].status == Sent && r.quotes[id].sentAt == Some(now)
            && r.quotes[id].(status := Draft, sentAt := None) == s.quotes[id]
            && (forall i | 0 <= i < id && s.quotes[i].status != Sent :: r.quotes[i] == s.quotes[i])
            && (forall i | 0 <= i < id && s.quotes[i].status == Sent ::
                  r.quotes[i].status == Superseded && r.quotes[i].(status := Sent) == s.quotes[i])
            && r.requested == s.requested && r.acceptedQuote.None? && FundingAlone(s, r) && PayoutAlone(s, r)
  {
    assert QuoteTimesOk(s.quotes[id]);
    assert Unquoted(s.status);
  }

  /** A sent quote that ran out is closed, and the transfer with it only if it was still quoted; otherwise nothing happens. */
  lemma ExpiryEffect(s: Record, now: Instant)
    requires QuotesOk(s)
    ensures ExpireIfNeeded(s, now).Done?
    ensures forall i | 0 <= i < |s.quotes| && s.quotes[i].status == Sent && s.quotes[i].expiresAt <= now ::
              var r := ExpireIfNeeded(s, now).next;
              && OneQuoteMoved(s, r, i) && r.quotes[i] == s.quotes[i].(status := Expired)
              && r.status == (if s.status == Quoted then QuoteExpired else s.status)
              && r.requested == s.requested && r.acceptedQuote == s.acceptedQuote && FundingAlone(s, r) && PayoutAlone(s, r)
    ensures (forall i | 0 <= i < |s.quotes| && s.quotes[i].status == Sent :: now < s.quotes[i].expiresAt) ==>
              ExpireIfNeeded(s, now).next == s
  {
    var active := FirstQuote(s.quotes, Sent);
    assert active.Some? ==> HighestNonDraft(s.quotes, active.value);
    forall i | 0 <= i < |s.quotes| && s.quotes[i].status == Sent ensures active == Some(i) {
      assert HighestNonDraft(s.quotes, i);
    }
  }

  /**
   A decision on a live sent quote, and on no other. Accepting closes the deal on exactly this quote; rejecting closes
   the quote and sends the transfer back to be quoted, ready for the next draft.
   */
  lemma DecisionLaw(s: Record, id: nat, accept: bool, now: Instant)
    requires QuotesOk(s)
    ensures Decide(s, id, accept, now).Done? <==>
            s.status == Quoted && id < |s.quotes| && s.quotes[id].status == Sent && now < s.quotes[id].expiresAt
    ensures Decide(s, id, accept, now).Done? ==>
              var r := Decide(s, id, accept, now).next;
              && OneQuoteMoved(s, r, id) && r.requested == s.requested && FundingAlone(s, r) && PayoutAlone(s, r)
              && (accept ==>
                    && r.quotes[id].status == Accepted && r.quotes[id].acceptedAt == Some(now) && r.quotes[id].rejectedAt.None?
                    && r.acceptedQuote == Some(id) && r.status == QuoteAccepted)
              && (!accept ==>
                    && r.quotes[id].status == Rejected && r.quotes[id].rejectedAt == Some(now) && r.quotes[id].acceptedAt.None?
                    && r.acceptedQuote.None? && r.status == Quoting)
    ensures Decide(s, id, accept, now).Done? && !accept && !LastQuoteIsDraft(s) ==>
              forall draft: DraftInput, later |
                  draft.send == s.requested && Storable(draft.send.minor) && Storable(draft.fee) && Storable(draft.receive.minor) &&
                  later < draft.expectedDeliveryAt ::
                CreateDraft(Decide(s, id, accept, now).next, draft, true, later).Done?
  {
    if Decide(s, id, accept, now).Done? {
      assert QuoteTimesOk(s.quotes[id]) && HighestNonDraft(s.quotes, id);
      if !accept && !LastQuoteIsDraft(s) {
        var r := Decide(s, id, accept, now).next;
        assert !HasQuote(r.quotes, Draft);
      }
    }
  }

  // ----- Funding -----

  lemma PublishEffect(s: Record, template: Option<Template>, validUntil: Option<Instant>, now: Instant)
    requires QuotesOk(s) && PublishInstruction(s, template, validUntil, now).Done?
    ensures var r := PublishInstruction(s, template, validUntil, now).next;
            && |r.instructions| == 1 && r.instructions[0].amount == s.requested && s.acceptedQuote == Some(r.instructions[0].quote)
            && r.instructions[0].validUntil == validUntil && r.instructions[0].createdAt == now
            && r.status == FundingPending && r.proofs == s.proofs && QuotesAlone(s, r) && PayoutAlone(s, r)
  {
  }

  /** Pending proofs go, since their links ran out; with a file the new one waits for it, without one it is presented. */
  lemma SubmitEffect(s: Record, id: nat, input: ProofInput, now: Instant)
    requires FundingOk(s) && SubmitProof(s, id, input, now).Done?
    ensures var r := SubmitProof(s, id, input, now).next;
            && id in r.proofs && id !in s.proofs
            && (forall other | other != id :: other in r.proofs <==> other in s.proofs && s.proofs[other].status != PendingUpload)
            && (forall other | other in r.proofs && other != id :: r.proofs[other] == s.proofs[other])
            && (r.proofs[id].file, r.proofs[id].claimed, r.proofs[id].createdAt) == (input.file, input.claimed, now)
            && r.proofs[id].uploadedAt.None? && r.proofs[id].reviewedAt.None?
            && r.proofs[id].status == (if input.file.Some? then PendingUpload else Submitted)
            && r.status == (if input.file.Some? then FundingPending else FundingSubmitted)
            && r.instructions == s.instructions && QuotesAlone(s, r) && PayoutAlone(s, r)
  {
    var kept := WithoutStale(s.proofs, now);
    assert forall other | other in s.proofs :: s.proofs[other].status == PendingUpload ==> ActiveProof(s.proofs[other]);
    assert forall other | other in kept :: kept[other] == s.proofs[other] && !ActiveProof(kept[other]);
  }

  lemma UploadEffect(s: Record, id: nat, now: Instant)
    requires CommitUpload(s, id, now).Done?
    ensures var r := CommitUpload(s, id, now).next;
            && OneProofMoved(s, r, id) && r.proofs[id].reviewedAt == s.proofs[id].reviewedAt
            && r.proofs[id].status == Submitted && r.proofs[id].uploadedAt == Some(now)
            && r.status == FundingSubmitted && r.instructions == s.instructions && QuotesAlone(s, r) && PayoutAlone(s, r)
  {
  }

  /**
   A review of the presented proof, and of no other. Verifying keeps the transfer under review until the funds are
   confirmed; the two other decisions close the proof and ask for another, which can be submitted at once.
   */
  lemma ReviewLaw(s: Record, id: nat, decision: Review, now: Instant)
    requires QuotesOk(s) && FundingOk(s)
    ensures ReviewProof(s, id, decision, now).Done? <==>
            s.status == FundingSubmitted && id in s.proofs && s.proofs[id].status == Submitted
    ensures ReviewProof(s, id, decision, now).Done? ==>
              var r := ReviewProof(s, id, decision, now).next;
              && OneProofMoved(s, r, id) && r.proofs[id].uploadedAt == s.proofs[id].uploadedAt
              && r.proofs[id].reviewedAt == Some(now)
              && r.instructions == s.instructions && QuotesAlone(s, r) && PayoutAlone(s, r)
              && (decision == Verify ==>
                    r.proofs[id].status == Verified && r.status == FundingSubmitted && ConfirmFunds(r, id).Done?)
              && (decision != Verify ==>
                    && r.proofs[id].status == (if decision == RejectProof then ProofRejected else NeedsResubmission)
                    && r.status == FundingPending
                    && forall another, file, later | another !in s.proofs :: SubmitProof(r, another, ProofInput(None, file), later).Done?)
  {
    if ReviewProof(s, id, decision, now).Done? && decision != Verify {
      var r := ReviewProof(s, id, decision, now).next;
      assert UnderReview(s);
      forall another, file, later | another !in s.proofs ensures SubmitProof(r, another, ProofInput(None, file), later).Done? {
        var kept := WithoutStale(r.proofs, later);
        assert forall other | other in kept :: !ActiveProof(kept[other]);
      }
    }
  }

  lemma ConfirmFundsEffect(s: Record, id: nat)
    requires ConfirmFunds(s, id).Done?
    ensures var r := ConfirmFunds(s, id).next;
            r.status == FundsConfirmed && QuotesAlone(s, r) && FundingAlone(s, r) && PayoutAlone(s, r)
  {
  }

  // ----- Payout -----

  lemma CaseEffect(s: Record, input: CaseInput, ownerActive: bool, associateFits: bool, now: Instant)
    requires QuotesOk(s) && CreateCase(s, input, ownerActive, associateFits, now).Done?
    ensures var r := CreateCase(s, input, ownerActive, associateFits, now).next;
            && r.payoutCase.Some? && r.status == PayoutInProgress
            && var c := r.payoutCase.value;
            && c.status == CaseInProgress && (exists i | 0 <= i < |s.quotes| :: s.quotes[i].status == Accepted && s.quotes[i].receive == c.amount)
            && (c.associate, c.expectedBy, c.reference) == (input.associate, input.expectedBy, input.reference)
            && c.completed.None? && c.evidence == map[] && c.createdAt == now
            && (r.disputes, r.confirmations, r.refund) == (s.disputes, s.confirmations, s.refund)
            && QuotesAlone(s, r) && FundingAlone(s, r)
  {
  }

  /** A field that the patch names gets its value, and every other field keeps its own. */
  lemma PatchEffect(s: Record, patch: CasePatch, ownerActive: bool, associateFits: bool, now: Instant)
    requires UpdateCase(s, patch, ownerActive, associateFits, now).Done?
    ensures var r := UpdateCase(s, patch, ownerActive, associateFits, now).next;
            && s.payoutCase.Some? && r.payoutCase.Some?
            && var c, d := s.payoutCase.value, r.payoutCase.value;
            && d.associate in {c.associate, patch.associate} && (patch.associate.Some? ==> d.associate == patch.associate)
            && (patch.associate.None? ==> d.associate == c.associate)
            && (patch.expectedBy.Some? ==> d.expectedBy == patch.expectedBy.value) && (patch.expectedBy.None? ==> d.expectedBy == c.expectedBy)
            && (patch.reference.Some? ==> d.reference == patch.reference) && (patch.reference.None? ==> d.reference == c.reference)
            && (d.status, d.amount, d.completed, d.evidence, d.createdAt) == (c.status, c.amount, c.completed, c.evidence, c.createdAt)
            && (r.status, r.disputes, r.confirmations, r.refund) == (s.status, s.disputes, s.confirmations, s.refund)
            && QuotesAlone(s, r) && FundingAlone(s, r)
  {
  }

  /** Adding a piece of evidence, or its file. */
  lemma EvidenceEffect(s: Record, op: Op)
    requires (op.DoAddEvidence? || op.DoCommitEvidenceUpload?) && Apply(s, op).Done?
    ensures var r := Apply(s, op).next;
            && s.payoutCase.Some? && r.payoutCase.Some?
            && var c, d := s.payoutCase.value, r.payoutCase.value;
            && op.evidenceId in d.evidence && d.(evidence := c.evidence) == c
            && (forall other | other != op.evidenceId :: other in d.evidence <==> other in c.evidence)
            && (forall other | other in c.evidence && other != op.evidenceId :: d.evidence[other] == c.evidence[other])
            && (op.DoAddEvidence? ==>
                  op.evidenceId !in c.evidence && d.evidence[op.evidenceId] == Evidence(op.reference, op.file, None))
            && (op.DoCommitEvidenceUpload? ==>
                  && op.evidenceId in c.evidence && d.evidence[op.evidenceId].uploadedAt == Some(op.now)
                  && d.evidence[op.evidenceId].(uploadedAt := None) == c.evidence[op.evidenceId])
            && (r.status, r.disputes, r.confirmations, r.refund) == (s.status, s.disputes, s.confirmations, s.refund)
            && QuotesAlone(s, r) && FundingAlone(s, r)
  {
  }

  /**
   A report of exactly the amount that was quoted, completed after the case began and not in the future, with something
   to show for it. It is the one staff confirmation, and the sender can then be asked.
   */
  lemma ReportLaw(s: Record, report: ReportInput, associateFits: bool, now: Instant)
    requires QuotesOk(s) && ResolutionOk(s) && s.status == PayoutInProgress
    ensures s.payoutCase.Some?
    ensures ReportPayout(s, report, associateFits, now).Done? <==>
            var c := s.payoutCase.value;
            && c.associate.Some? && associateFits && report.amount == c.amount && Storable(report.amount.minor)
            && c.createdAt <= report.completedAt <= now + 300_000
            && (report.reference.Some? || !NothingToShow(c))
    ensures ReportPayout(s, report, associateFits, now).Done? ==>
              var r := ReportPayout(s, report, associateFits, now).next;
              && r.payoutCase.Some? && r.status == PayoutReported
              && var c, d := s.payoutCase.value, r.payoutCase.value;
              && d.status == CaseReported && d.completed == Some(Completion(c.amount, report.completedAt))
              && (report.reference.Some? ==> d.reference == report.reference) && (report.reference.None? ==> d.reference == c.reference)
              && (d.amount, d.associate, d.expectedBy, d.evidence, d.createdAt) == (c.amount, c.associate, c.expectedBy, c.evidence, c.createdAt)
              && s.confirmations == [] && r.confirmations == [Confirmation(StaffConfirmation, now)]
              && (r.disputes, r.refund) == (s.disputes, s.refund) && QuotesAlone(s, r) && FundingAlone(s, r)
              && RequestSenderConfirmation(r).Done? && CompleteByAdmin(r).Done?
  {
    if ReportPayout(s, report, associateFits, now).Done? {
      var r := ReportPayout(s, report, associateFits, now).next;
      assert r.confirmations[0].source == StaffConfirmation;
    }
  }

  /** Holding and releasing undo each other. */
  lemma HoldEffect(s: Record, op: Op)
    requires (op.DoHold? || op.DoRelease?) && Apply(s, op).Done?
    ensures var r := Apply(s, op).next;
            && CaseMoved(s, r, if op.DoHold? then CaseOnHold else CaseInProgress)
            && r.status == (if op.DoHold? then OnHold else PayoutInProgress)
            && (r.disputes, r.confirmations, r.refund) == (s.disputes, s.confirmations, s.refund)
            && QuotesAlone(s, r) && FundingAlone(s, r)
    ensures var back := if op.DoHold? then DoRelease else DoHold; Apply(Apply(s, op).next, back) == Done(s)
  {
  }

  // ----- Endings -----

  lemma CompletionEffect(s: Record, op: Op)
    requires CompletionStep(op) && Apply(s, op).Done?
    ensures var r := Apply(s, op).next;
            && r.status == (if op.DoRequestConfirmation? then ConfirmationPending else Completed)
            && (if op.DoRequestConfirmation? then r.payoutCase == s.payoutCase else CaseMoved(s, r, CaseCompleted))
            && r.confirmations == s.confirmations + (if op.DoConfirmReceived? then [Confirmation(SenderConfirmation, op.now)] else [])
            && (r.disputes, r.refund) == (s.disputes, s.refund) && QuotesAlone(s, r) && FundingAlone(s, r)
  {
  }

  /** The dispute remembers what it interrupted; a payout under way is held, a reported one stays reported. */
  lemma OpenDisputeEffect(s: Record, verified: bool, now: Instant)
    requires ResolutionOk(s) && OpenDispute(s, verified, now).Done?
    ensures var r := OpenDispute(s, verified, now).next; var n := |s.disputes|;
            && |r.disputes| == n + 1 && (forall i | 0 <= i < n :: r.disputes[i] == s.disputes[i])
            && (r.disputes[n].previous, r.disputes[n].previousVerified, r.disputes[n].openedAt) == (s.status, verified, now)
            && r.disputes[n].status == DisputeOpen
            && r.disputes[n].assignee.None? && r.disputes[n].action.None? && r.disputes[n].resolvedAt.None?
            && CaseMoved(s, r, if s.status == PayoutInProgress then CaseOnHold else CaseReported)
            && r.status == TransferStatus.Disputed
            && (r.confirmations, r.refund) == (s.confirmations, s.refund) && QuotesAlone(s, r) && FundingAlone(s, r)
  {
  }

  lemma TakeDisputeEffect(s: Record, id: nat, staff: nat)
    requires TakeDispute(s, id, staff).Done?
    ensures var r := TakeDispute(s, id, staff).next;
            && id < |s.disputes| == |r.disputes| && (forall i | 0 <= i < |s.disputes| && i != id :: r.disputes[i] == s.disputes[i])
            && r.disputes[id].status == InReview && r.disputes[id].assignee == Some(staff)
            && r.disputes[id].(status := DisputeOpen, assignee := s.disputes[id].assignee) == s.disputes[id]
            && (r.status, r.payoutCase, r.confirmations, r.refund) == (s.status, s.payoutCase, s.confirmations, s.refund)
            && QuotesAlone(s, r) && FundingAlone(s, r)
  {
  }

  /** What a resolution needs. */
  predicate CanResolve(s: Record, dispute: Dispute, action: Resolution) {
    match action
    case Complete => CaseIs(s, CaseReported) && HasConfirmation(s.confirmations, StaffConfirmation)
    case Resume => dispute.previousVerified
    case Reject => dispute.previousVerified
    case Fail => true
    case RefundSender => true
  }

  /** Where a resolution leads. */
  predicate ResolvedTo(s: Record, r: Record, dispute: Dispute, action: Resolution, now: Instant) {
    match action
    case Complete => r.status == Completed && CaseMoved(s, r, CaseCompleted) && r.refund.None?
    case Fail => r.status == Failed && CaseMoved(s, r, CaseFailed) && r.refund.None?
    case RefundSender =>
      && r.status == RefundPending && CaseMoved(s, r, CaseFailed)
      && r.refund.Some? && r.refund.value.status == RefundUnderway && r.refund.value.amount == s.requested
      && r.refund.value.initiatedAt == now && r.refund.value.refundedAt.None?
    case _ =>
      && r.refund.None?
      && if dispute.previous == PayoutInProgress then r.status == PayoutInProgress && CaseMoved(s, r, CaseInProgress)
         else r.status == ConfirmationPending && r.payoutCase == s.payoutCase && CaseIs(s, CaseReported)
  }

  lemma ResolutionSucceeds(s: Record, id: nat, action: Resolution, staff: nat, now: Instant)
    requires QuotesOk(s) && ResolutionOk(s) && s.status == TransferStatus.Disputed && id + 1 == |s.disputes|
    ensures ResolveDispute(s, id, action, staff, now).Done? <==> CanResolve(s, s.disputes[id], action)
  {
    assert LastDisputeActive(s) && AcceptedQuote(s).Some?;
    hide QuotesOk, ResolutionOk;
  }

  lemma ResolutionLeads(s: Record, id: nat, action: Resolution, staff: nat, now: Instant)
    requires QuotesOk(s) && ResolutionOk(s) && s.status == TransferStatus.Disputed && id + 1 == |s.disputes|
    requires ResolveDispute(s, id, action, staff, now).Done?
    ensures ResolvedTo(s, ResolveDispute(s, id, action, staff, now).next, s.disputes[id], action, now)
  {
    assert LastDisputeActive(s) && s.refund.None?;
    assert AcceptedQuote(s).Some? && AcceptedQuote(s).value.send == s.requested;
    hide QuotesOk;
  }

  lemma ResolutionRows(s: Record, id: nat, action: Resolution, staff: nat, now: Instant)
    requires ResolveDispute(s, id, action, staff, now).Done?
    ensures var r := ResolveDispute(s, id, action, staff, now).next;
            && id < |r.disputes| == |s.disputes| && (forall i | 0 <= i < id :: r.disputes[i] == s.disputes[i])
            && (r.disputes[id].status == DisputeRejected <==> action == Reject)
            && (r.disputes[id].status == Resolved <==> action != Reject)
            && r.confirmations == s.confirmations && QuotesAlone(s, r) && FundingAlone(s, r)
  {
  }

  /** Which of the five resolutions of the active dispute succeed, and where each of them leads. */
  lemma ResolutionLaw(s: Record, id: nat, action: Resolution, staff: nat, now: Instant)
    requires Inv(s) && s.status == TransferStatus.Disputed && id + 1 == |s.disputes|
    ensures var o := ResolveDispute(s, id, action, staff, now);
            && (o.Done? <==> CanResolve(s, s.disputes[id], action))
            && (o.Done? ==>
                  && ResolvedTo(s, o.next, s.disputes[id], action, now)
                  && |o.next.disputes| == |s.disputes| && (forall i | 0 <= i < id :: o.next.disputes[i] == s.disputes[i])
                  && (o.next.disputes[id].status == DisputeRejected <==> action == Reject)
                  && (o.next.disputes[id].status == Resolved <==> action != Reject)
                  && o.next.confirmations == s.confirmations && QuotesAlone(s, o.next) && FundingAlone(s, o.next))
  {
    hide FundingOk, QuotesOk, ResolutionOk, CanResolve, ResolvedTo, ResolveDispute;
    ResolutionSucceeds(s, id, action, staff, now);
    if CanResolve(s, s.disputes[id], action) {
      ResolutionLeads(s, id, action, staff, now);
      ResolutionRows(s, id, action, staff, now);
    }
  }

  /** What the dispute's own row then says. */
  lemma ResolutionOnRecord(s: Record, id: nat, action: Resolution, staff: nat, now: Instant)
    requires ResolveDispute(s, id, action, staff, now).Done?
    ensures var r := ResolveDispute(s, id, action, staff, now).next;
            && id < |r.disputes| == |s.disputes|
            && var d, e := s.disputes[id], r.disputes[id];
            && e.action == Some(action) && e.resolvedAt == Some(now)
            && (d.assignee.Some? ==> e.assignee == d.assignee) && (d.assignee.None? ==> e.assignee == Some(staff))
            && (e.previous, e.previousVerified, e.openedAt) == (d.previous, d.previousVerified, d.openedAt)
  {
  }

  lemma StartRefundEffect(s: Record, now: Instant)
    requires QuotesOk(s) && ResolutionOk(s) && StartRefund(s, now).Done?
    ensures var r := StartRefund(s, now).next;
            && r.status == RefundPending && r.refund.Some? && r.refund.value.status == RefundUnderway
            && r.refund.value.amount == s.requested && r.refund.value.initiatedAt == now && r.refund.value.refundedAt.None?
            && (if s.status == OnHold then CaseMoved(s, r, CaseFailed) else r.payoutCase.None?)
            && (r.disputes, r.confirmations) == (s.disputes, s.confirmations) && QuotesAlone(s, r) && FundingAlone(s, r)
  {
  }

  lemma ConfirmRefundEffect(s: Record, refundedAt: Instant, now: Instant)
    requires ConfirmRefund(s, refundedAt, now).Done?
    ensures var r := ConfirmRefund(s, refundedAt, now).next;
            && s.refund.Some? && r.refund.Some? && r.status == Refunded && r.refund.value.status == RefundPaid
            && r.refund.value.refundedAt == Some(refundedAt)
            && (r.refund.value.amount, r.refund.value.initiatedAt) == (s.refund.value.amount, s.refund.value.initiatedAt)
            && (r.payoutCase, r.disputes, r.confirmations) == (s.payoutCase, s.disputes, s.confirmations)
            && QuotesAlone(s, r) && FundingAlone(s, r)
  {
  }

  /** The commit of a review action or a cancellation; only a cancellation touches the quotes, and only the sent one. */
  lemma TransitionEffect(s: Record, from: TransferStatus, target: TransferStatus)
    requires Transition(s, from, target).Done?
    ensures var r := Transition(s, from, target).next;
            && s.status == from && r.status == target && |r.quotes| == |s.quotes|
            && (forall i | 0 <= i < |s.quotes| ::
                  if target == Cancelled && s.quotes[i].status == Sent
                  then r.quotes[i].status == Superseded && r.quotes[i].(status := Sent) == s.quotes[i]
                  else r.quotes[i] == s.quotes[i])
            && r.requested == s.requested && r.acceptedQuote == s.acceptedQuote && FundingAlone(s, r) && PayoutAlone(s, r)
  {
  }

  // ----- What a row tells about its run -----

  /** This event was a successful transaction, with a record that `op` did not refuse. */
  ghost predicate Succeeded(worlds: seq<World>, events: seq<Event>, k: nat, op: Op)
    requires |worlds| == |events| + 1
  {
    k < |events| && events[k] == Transact(op) && Apply(worlds[k].record, op).Done?
  }

  lemma OneStep(worlds: seq<World>, events: seq<Event>, i: nat)
    requires IsRun(worlds, events) && i < |events|
    ensures Inv(worlds[i].record)
    ensures var s, r := worlds[i].record, worlds[i + 1].record;
            r == s || exists op ::
              && Legal(op) && Apply(s, op).Done? && r == Apply(s, op).next
              && (op.DoTransition? || (events[i] == Transact(op) && Succeeded(worlds, events, i, op)))
  {
    RunKeeps(worlds, events, i);
    hide Inv, Legal, Apply;
    var w, e := worlds[i], events[i];
    EffectIsLegal(w, e);
    if Effect(w, e).Some? && Apply(w.record, Effect(w, e).value).Done? {
      assert Legal(Effect(w, e).value);
    }
  }

  lemma AcceptedStep(s: Record, op: Op, id: nat)
    requires QuotesOk(s) && Apply(s, op).Done?
    requires id < |Apply(s, op).next.quotes| && Apply(s, op).next.quotes[id].status == Accepted
    ensures (id < |s.quotes| && s.quotes[id].status == Accepted) ||
            (op.DoDecide? && op.quoteId == id && op.accept && Apply(s, op).next.quotes[id].acceptedAt == Some(op.now))
    ensures id < |s.quotes| && s.quotes[id].status == Accepted ==> Apply(s, op).next.quotes[id].acceptedAt == s.quotes[id].acceptedAt
  {
  }

  predicate AcceptedAt(s: Record, id: nat, at: Option<Instant>) {
    id < |s.quotes| && s.quotes[id].status == Accepted && s.quotes[id].acceptedAt == at
  }

  lemma AcceptedBefore(worlds: seq<World>, events: seq<Event>, i: nat, id: nat, at: Option<Instant>)
    requires IsRun(worlds, events) && i < |events| && AcceptedAt(worlds[i + 1].record, id, at)
    ensures AcceptedAt(worlds[i].record, id, at) ||
            exists now :: Succeeded(worlds, events, i, DoDecide(id, true, now)) && at == Some(now)
  {
    OneStep(worlds, events, i);
    hide IsRun, QuotesOk, FundingOk, ResolutionOk, Apply, Legal, Succeeded;
    var s, r := worlds[i].record, worlds[i + 1].record;
    if r != s {
      var op :| Legal(op) && Apply(s, op).Done? && r == Apply(s, op).next &&
        (op.DoTransition? || (events[i] == Transact(op) && Succeeded(worlds, events, i, op)));
      AcceptedStep(s, op, id);
      assert op.DoDecide? && op.quoteId == id && op.accept ==> op == DoDecide(id, true, op.now);
    }
  }

  /** A quote is accepted only if somebody, earlier in the run, decided to accept that very quote, at that time. */
  lemma {:induction false} AcceptedByDecision(worlds: seq<World>, events: seq<Event>, i: nat, id: nat, at: Option<Instant>)
    requires IsRun(worlds, events) && i < |worlds| && AcceptedAt(worlds[i].record, id, at)
    ensures exists k: nat, now :: k < i && Succeeded(worlds, events, k, DoDecide(id, true, now)) && at == Some(now)
  {
    assert i > 0 && worlds[0].record.quotes == [];
    hide AcceptedAt, Succeeded;
    AcceptedBefore(worlds, events, i - 1, id, at);
    if AcceptedAt(worlds[i - 1].record, id, at) {
      AcceptedByDecision(worlds, events, i - 1, id, at);
    }
  }

  lemma VerifiedStep(s: Record, op: Op, id: nat)
    requires Apply(s, op).Done? && id in Apply(s, op).next.proofs && Apply(s, op).next.proofs[id].status == Verified
    ensures (id in s.proofs && s.proofs[id].status == Verified) ||
            (op.DoReviewProof? && op.proofId == id && op.decision == Verify)
  {
  }

  predicate ProofIsVerified(s: Record, id: nat) {
    id in s.proofs && s.proofs[id].status == Verified
  }

  lemma VerifiedBefore(worlds: seq<World>, events: seq<Event>, i: nat, id: nat)
    requires IsRun(worlds, events) && i < |events| && ProofIsVerified(worlds[i + 1].record, id)
    ensures ProofIsVerified(worlds[i].record, id) || exists now :: Succeeded(worlds, events, i, DoReviewProof(id, Verify, now))
  {
    OneStep(worlds, events, i);
    hide IsRun, Inv, Apply, Legal, Succeeded;
    var s, r := worlds[i].record, worlds[i + 1].record;
    if r != s {
      var op :| Legal(op) && Apply(s, op).Done? && r == Apply(s, op).next &&
        (op.DoTransition? || (events[i] == Transact(op) && Succeeded(worlds, events, i, op)));
      VerifiedStep(s, op, id);
      assert op.DoReviewProof? && op.proofId == id && op.decision == Verify ==> op == DoReviewProof(id, Verify, op.now);
    }
  }

  /** A proof is verified only if a review decided so. */
  lemma {:induction false} VerifiedByReview(worlds: seq<World>, events: seq<Event>, i: nat, id: nat)
    requires IsRun(worlds, events) && i < |worlds| && ProofIsVerified(worlds[i].record, id)
    ensures exists k: nat, now :: k < i && Succeeded(worlds, events, k, DoReviewProof(id, Verify, now))
  {
    assert i > 0 && worlds[0].record.proofs == map[];
    hide ProofIsVerified, Succeeded;
    VerifiedBefore(worlds, events, i - 1, id);
    if ProofIsVerified(worlds[i - 1].record, id) {
      VerifiedByReview(worlds, events, i - 1, id);
    }
  }

  /** The step takes a transfer from one status to another. */
  predicate Moves(op: Op, from: TransferStatus, to: TransferStatus) {
    match op
    case DoTransition(a, b) => (from, to) == (a, b)
    case DoSendDraft(_, _) => (from, to) == (Quoting, Quoted)
    case DoExpire(_) => (from, to) == (Quoted, QuoteExpired)
    case DoDecide(_, accept, _) => (from, to) == (Quoted, if accept then QuoteAccepted else Quoting)
    case DoPublish(_, _, _) => (from, to) == (QuoteAccepted, FundingPending)
    case DoSubmitProof(_, proof, _) => (from, to) == (FundingPending, FundingSubmitted) && proof.file.None?
    case DoCommitUpload(_, _) => (from, to) == (FundingPending, FundingSubmitted)
    case DoReviewProof(_, decision, _) => (from, to) == (FundingSubmitted, FundingPending) && decision != Verify
    case DoConfirmFunds(_) => (from, to) == (FundingSubmitted, FundsConfirmed)
    case DoCreateCase(_, _, _, _) => (from, to) == (FundsConfirmed, PayoutInProgress)
    case DoReportPayout(_, _, _) => (from, to) == (PayoutInProgress, PayoutReported)
    case DoHold => (from, to) == (PayoutInProgress, OnHold)
    case DoRelease => (from, to) == (OnHold, PayoutInProgress)
    case DoRequestConfirmation => (from, to) == (PayoutReported, ConfirmationPending)
    case DoConfirmReceived(_) => (from, to) == (ConfirmationPending, Completed)
    case DoCompleteByAdmin => from in {PayoutReported, ConfirmationPending} && to == Completed
    case DoOpenDispute(_, _) => from in {PayoutInProgress, PayoutReported, ConfirmationPending} && to == TransferStatus.Disputed
    case DoResolveDispute(_, action, _, _) =>
      && from == TransferStatus.Disputed
      && to in (match action
                case RefundSender => {RefundPending}
                case Complete => {Completed}
                case Fail => {Failed}
                case _ => {PayoutInProgress, ConfirmationPending})
    case DoStartRefund(_) => from in {FundsConfirmed, OnHold} && to == RefundPending
    case DoConfirmRefund(_, _) => (from, to) == (RefundPending, Refunded)
    case _ => false
  }

  lemma StatusStep(s: Record, op: Op)
    requires Apply(s, op).Done? && Apply(s, op).next.status != s.status
    ensures Moves(op, s.status, Apply(s, op).next.status)
  {
  }

  /** A transfer is where its last move took it: its status names the transaction that led there. */
  lemma {:induction false} StatusHasItsCause(worlds: seq<World>, events: seq<Event>, i: nat)
    requires IsRun(worlds, events) && i < |worlds| && worlds[i].record.status != Requested
    ensures exists k: nat, op ::
              && k < i && Legal(op) && Apply(worlds[k].record, op).Done? && worlds[k + 1].record == Apply(worlds[k].record, op).next
              && Moves(op, worlds[k].record.status, worlds[i].record.status)
  {
    assert i > 0 && worlds[0].record.status == Requested;
    hide IsRun, Moves, Apply, Legal;
    var s, r := worlds[i - 1].record, worlds[i].record;
    if r.status == s.status {
      StatusHasItsCause(worlds, events, i - 1);
    } else {
      OneStep(worlds, events, i - 1);
      hide Inv;
      var op :| Legal(op) && Apply(s, op).Done? && r == Apply(s, op).next;
      StatusStep(s, op);
      assert worlds[i - 1 + 1].record == Apply(worlds[i - 1].record, op).next;
    }
  }

  // ----- Which edges of the table the services take -----

  /** Edges of the table that no transaction takes. */
  function UntakenFrom(from: TransferStatus): set<TransferStatus> {
    match from
    case NeedsInfo => {Requested}
    case QuoteAccepted => {OnHold}
    case FundingPending => {OnHold}
    case FundingSubmitted => {OnHold}
    case FundsConfirmed => {OnHold}
    case PayoutInProgress => {Failed}
    case OnHold => {TransferStatus.Disputed}
    case RefundPending => {Failed}
    case _ => {}
  }

  /** The transactions other than `transition` and the release, which the table does not have. */
  predicate ByTable(op: Op) {
    !op.DoTransition? && !op.DoRelease?
  }

  lemma MovesAreEdges(op: Op, from: TransferStatus, to: TransferStatus)
    requires ByTable(op) && Moves(op, from, to)
    ensures Allowed(from, to) && to !in UntakenFrom(from)
  {
  }

  lemma EarlyEdgeIsTaken(from: TransferStatus, to: TransferStatus) returns (op: Op)
    requires from in {Requested, NeedsInfo, Quoting, Quoted, QuoteAccepted, FundingPending, FundingSubmitted}
    requires Allowed(from, to) && to !in TRANSITION_TARGETS && to !in UntakenFrom(from)
    ensures ByTable(op) && Moves(op, from, to)
  {
    var id: nat := 0;
    op := match to
      case Quoted => DoSendDraft(id, 0)
      case QuoteAccepted => DoDecide(id, true, 0)
      case QuoteExpired => DoExpire(0)
      case FundingPending =>
        if from == QuoteAccepted then DoPublish(None, None, 0) else DoReviewProof(id, RejectProof, 0)
      case FundingSubmitted => DoCommitUpload(id, 0)
      case _ => DoConfirmFunds(id);
  }

  lemma LateEdgeIsTaken(from: TransferStatus, to: TransferStatus) returns (op: Op)
    requires from in {FundsConfirmed, PayoutInProgress, PayoutReported, ConfirmationPending, OnHold, RefundPending}
    requires Allowed(from, to) && to !in TRANSITION_TARGETS && to !in UntakenFrom(from)
    ensures ByTable(op) && Moves(op, from, to)
  {
    op := match to
      case PayoutInProgress => DoCreateCase(CaseInput(None, 0, None), true, true, 0)
      case RefundPending => DoStartRefund(0)
      case PayoutReported => DoReportPayout(ReportInput(Money(0, ""), 0, None), true, 0)
      case OnHold => DoHold
      case ConfirmationPending => DoRequestConfirmation
      case Completed => DoCompleteByAdmin
      case Refunded => DoConfirmRefund(0, 0)
      case _ => DoOpenDispute(true, 0);
  }

  lemma DisputedEdgeIsTaken(to: TransferStatus) returns (op: Op)
    requires Allowed(TransferStatus.Disputed, to)
    ensures ByTable(op) && Moves(op, TransferStatus.Disputed, to)
  {
    var id: nat := 0;
    var action := match to
      case RefundPending => RefundSender
      case Completed => Complete
      case Failed => Fail
      case _ => Resume;
    op := DoResolveDispute(id, action, id, 0);
  }

  /** Apart from the targets of `transition`, the table has exactly the edges the services take and eight that none takes. */
  lemma EdgesAreTakenOrNamed(from: TransferStatus, to: TransferStatus)
    requires to !in TRANSITION_TARGETS
    ensures Allowed(from, to) && to !in UntakenFrom(from) <==> exists op :: ByTable(op) && Moves(op, from, to)
    ensures to in UntakenFrom(from) ==> Allowed(from, to)
  {
    hide Moves, ByTable;
    if Allowed(from, to) && to !in UntakenFrom(from) {
      if from == TransferStatus.Disputed {
        var op := DisputedEdgeIsTaken(to);
      } else if from in {FundsConfirmed, PayoutInProgress, PayoutReported, ConfirmationPending, OnHold, RefundPending} {
        var op := LateEdgeIsTaken(from, to);
      } else {
        var op := EarlyEdgeIsTaken(from, to);
      }
    }
    if op :| ByTable(op) && Moves(op, from, to) {
      MovesAreEdges(op, from, to);
    }
  }
}
