/** Every step keeps the joint invariant. */
module TransferProofs {
  import opened Common
  import opened TransferState
  import opened TransferRecords
  import opened TransferSteps
  import opened TransferInvariant

  /** What a step may be asked to do: `transition` reaches its compare-and-set only along a table edge to one of its own targets. */
  predicate Legal(op: Op) {
    op.DoTransition? ==> Allowed(op.from, op.target) && op.target in TRANSITION_TARGETS
  }

  lemma NewRecordInv(requested: Money)
    ensures Inv(NewRecord(requested))
  {
  }

  /** Where `transition` can come from, for each of its targets. */
  lemma TransitionSources(from: TransferStatus, target: TransferStatus)
    requires Allowed(from, target) && target in TRANSITION_TARGETS
    ensures target == NeedsInfo ==> from == Requested || from == Quoting
    ensures target == Quoting ==> from == Requested || from == NeedsInfo || from == Quoted
    ensures target == Declined ==> from == Requested || from == NeedsInfo || from == Quoting
    ensures target == Cancelled ==>
      from == Requested || from == NeedsInfo || from == Quoting || from == Quoted ||
      from == QuoteAccepted || from == FundingPending || from == OnHold
  {
  }

  /** And all of these can be left that way: before the payout is under way, unless money is being looked at, a transfer can be cancelled. */
  lemma SourcesAreAllowed(from: TransferStatus)
    ensures from in {Requested, Quoting} ==> Allowed(from, NeedsInfo)
    ensures from in {Requested, NeedsInfo, Quoted} ==> Allowed(from, Quoting)
    ensures from in {Requested, NeedsInfo, Quoting} ==> Allowed(from, Declined)
    ensures from in {Requested, NeedsInfo, Quoting, Quoted, QuoteAccepted, FundingPending, OnHold} ==> Allowed(from, Cancelled)
  {
  }

  // ----- Quotes -----

  lemma {:induction false} VersionsCount(quotes: seq<Quote>)
    requires forall i | 0 <= i < |quotes| :: quotes[i].version == i + 1
    ensures MaxVersion(quotes) == |quotes|
  {
    if quotes != [] {
      VersionsCount(quotes[..|quotes| - 1]);
    }
  }

  lemma TransitionKeepsQuotes(s: Record, target: TransferStatus)
    requires QuotesOk(s) && Allowed(s.status, target) && target in TRANSITION_TARGETS
    ensures QuotesOk(Transition(s, s.status, target).next)
  {
    TransitionSources(s.status, target);
    var next := Transition(s, s.status, target).next;
    if target == Cancelled {
      assert forall i | 0 <= i < |s.quotes| :: next.quotes[i].status == Accepted <==> s.quotes[i].status == Accepted;
      assert HasQuote(next.quotes, Accepted) ==> HasQuote(s.quotes, Accepted);
    }
  }

  lemma CreateDraftKeepsQuotes(s: Record, input: DraftInput, supported: bool, now: Instant)
    requires QuotesOk(s) && CreateDraft(s, input, supported, now).Done?
    ensures QuotesOk(CreateDraft(s, input, supported, now).next)
  {
    var next := CreateDraft(s, input, supported, now).next;
    VersionsCount(s.quotes);
    assert forall i | 0 <= i < |s.quotes| :: next.quotes[i] == s.quotes[i];
    forall status | status != Draft
      ensures HasQuote(next.quotes, status) <==> HasQuote(s.quotes, status)
    {
      if HasQuote(s.quotes, status) {
        var i :| 0 <= i < |s.quotes| && s.quotes[i].status == status;
        assert next.quotes[i].status == status;
      }
    }
  }

  lemma SendDraftKeepsQuotes(s: Record, id: nat, now: Instant)
    requires QuotesOk(s) && SendDraft(s, id, now).Done?
    ensures QuotesOk(SendDraft(s, id, now).next)
    ensures id == |s.quotes| - 1
  {
    var next := SendDraft(s, id, now).next;
    assert !HasQuote(s.quotes, Accepted);
    assert id == |s.quotes| - 1;
    assert next.quotes[id].status == Sent;
    assert forall i | 0 <= i < |s.quotes| - 1 :: next.quotes[i].status != Sent && next.quotes[i].status != Accepted;
    assert !HasQuote(next.quotes, Accepted);
  }

  lemma ExpireKeepsQuotes(s: Record, now: Instant)
    requires QuotesOk(s)
    ensures QuotesOk(ExpireIfNeeded(s, now).next)
  {
    var next := ExpireIfNeeded(s, now).next;
    var active := FirstQuote(s.quotes, Sent);
    if active.Some? && s.quotes[active.value].expiresAt <= now {
      assert HasQuote(s.quotes, Sent);
      assert !HasQuote(s.quotes, Accepted);
      OnlyOneSent(s, active.value);
      assert !HasQuote(next.quotes, Sent);
      assert !HasQuote(next.quotes, Accepted);
    }
  }

  /** A sent quote is the only sent quote. */
  lemma OnlyOneSent(s: Record, id: nat)
    requires QuotesOk(s) && id < |s.quotes| && s.quotes[id].status == Sent
    ensures forall i | 0 <= i < |s.quotes| :: s.quotes[i].status == Sent ==> i == id
    ensures !HasQuote(s.quotes, Accepted)
  {
    assert HighestNonDraft(s.quotes, id);
    forall i | 0 <= i < |s.quotes| && s.quotes[i].status == Sent
      ensures i == id
    {
      assert HighestNonDraft(s.quotes, i);
    }
    assert HasQuote(s.quotes, Sent);
  }

  lemma DecideKeepsQuotes(s: Record, id: nat, accept: bool, now: Instant)
    requires QuotesOk(s) && Decide(s, id, accept, now).Done?
    ensures QuotesOk(Decide(s, id, accept, now).next)
  {
    var next := Decide(s, id, accept, now).next;
    OnlyOneSent(s, id);
    assert HighestNonDraft(s.quotes, id);
    assert !HasQuote(next.quotes, Sent);
    forall i | 0 <= i < |next.quotes| && (next.quotes[i].status == Sent || next.quotes[i].status == Accepted)
      ensures HighestNonDraft(next.quotes, i)
    {
      assert s.quotes[i].status != Accepted;
      assert i == id;
    }
    if !accept {
      assert !HasQuote(next.quotes, Accepted);
    }
  }

  // ----- Funding -----

  lemma TransitionKeepsFunding(s: Record, target: TransferStatus)
    requires FundingOk(s) && ResolutionStage(s) && Allowed(s.status, target) && target in TRANSITION_TARGETS
    ensures FundingOk(Transition(s, s.status, target).next)
  {
    TransitionSources(s.status, target);
    var next := Transition(s, s.status, target).next;
    if target == Cancelled {
      if s.status == FundingPending {
        assert AwaitingProof(next);
      } else if s.status == OnHold {
        assert Funded(next);
      } else {
        assert NotFunded(next);
      }
    }
  }

  lemma PublishKeepsFunding(s: Record, template: Option<Template>, validUntil: Option<Instant>, now: Instant)
    requires QuotesOk(s) && FundingOk(s) && PublishInstruction(s, template, validUntil, now).Done?
    ensures FundingOk(PublishInstruction(s, template, validUntil, now).next)
  {
    assert NotFunded(s);
    assert AwaitingProof(PublishInstruction(s, template, validUntil, now).next);
  }

  lemma SubmitProofKeepsFunding(s: Record, id: nat, input: ProofInput, now: Instant)
    requires FundingOk(s) && SubmitProof(s, id, input, now).Done?
    ensures FundingOk(SubmitProof(s, id, input, now).next)
  {
    var next := SubmitProof(s, id, input, now).next;
    var kept := WithoutStale(s.proofs, now);
    assert AwaitingProof(s);
    assert NonePresented(kept) && NoneActive(kept);
    assert forall other | other in next.proofs && other != id :: other in kept && next.proofs[other] == kept[other];
    assert next.proofs[id] == NewProof(input, now);
    if input.file.None? {
      assert SolePresented(next.proofs, id);
      assert UnderReview(next);
    } else {
      assert AwaitingProof(next);
    }
  }

  lemma CommitUploadKeepsFunding(s: Record, id: nat, now: Instant)
    requires FundingOk(s) && CommitUpload(s, id, now).Done?
    ensures FundingOk(CommitUpload(s, id, now).next)
  {
    var next := CommitUpload(s, id, now).next;
    assert AwaitingProof(s);
    assert forall other | other in next.proofs && other != id :: next.proofs[other] == s.proofs[other] && !ActiveProof(s.proofs[other]);
    assert SolePresented(next.proofs, id);
    assert UnderReview(next);
  }

  lemma ReviewProofKeepsFunding(s: Record, id: nat, decision: Review, now: Instant)
    requires FundingOk(s) && ReviewProof(s, id, decision, now).Done?
    ensures FundingOk(ReviewProof(s, id, decision, now).next)
  {
    var next := ReviewProof(s, id, decision, now).next;
    assert UnderReview(s);
    var sole :| SolePresented(s.proofs, sole);
    assert sole == id;
    assert forall other | other in next.proofs && other != id :: next.proofs[other] == s.proofs[other];
    if decision == Verify {
      assert SolePresented(next.proofs, id);
      assert UnderReview(next);
    } else {
      assert AwaitingProof(next);
    }
  }

  lemma ConfirmFundsKeepsFunding(s: Record, id: nat)
    requires FundingOk(s) && ConfirmFunds(s, id).Done?
    ensures FundingOk(ConfirmFunds(s, id).next)
  {
    var next := ConfirmFunds(s, id).next;
    assert UnderReview(s);
    var sole :| SolePresented(s.proofs, sole);
    assert sole == id;
    assert SoleVerified(next.proofs, id);
    assert Funded(next);
  }

  // ----- Payout, disputes, refund -----

  lemma TransitionKeepsResolution(s: Record, target: TransferStatus)
    requires QuotesOk(s) && ResolutionOk(s) && Allowed(s.status, target) && target in TRANSITION_TARGETS
    ensures ResolutionOk(Transition(s, s.status, target).next)
  {
    TransitionSources(s.status, target);
    var next := Transition(s, s.status, target).next;
    if s.status == OnHold {
      assert CaseIs(next, CaseOnHold) && NotReported(next);
    } else {
      assert Untouched(next);
    }
  }

  lemma OpenDisputeKeepsResolution(s: Record, verified: bool, now: Instant)
    requires ResolutionOk(s) && OpenDispute(s, verified, now).Done?
    ensures ResolutionOk(OpenDispute(s, verified, now).next)
  {
    assert LastDisputeActive(OpenDispute(s, verified, now).next);
  }

  lemma TakeDisputeKeepsResolution(s: Record, id: nat, staff: nat)
    requires ResolutionOk(s) && TakeDispute(s, id, staff).Done?
    ensures s.status == Disputed && ResolutionOk(TakeDispute(s, id, staff).next)
  {
    assert s.status == Disputed;
    assert LastDisputeActive(TakeDispute(s, id, staff).next);
  }

  lemma ResolveDisputeKeepsResolution(s: Record, id: nat, action: Resolution, staff: nat, now: Instant)
    requires QuotesOk(s) && ResolutionOk(s) && ResolveDispute(s, id, action, staff, now).Done?
    ensures ResolutionOk(ResolveDispute(s, id, action, staff, now).next)
  {
    var next := ResolveDispute(s, id, action, staff, now).next;
    assert id == |s.disputes| - 1;
    assert NoActiveDispute(next);
    if s.disputes[id].previous == PayoutInProgress {
      assert CaseIs(s, CaseOnHold) && NotReported(next);
    } else {
      assert CaseIs(s, CaseReported) && ReportedOnce(next);
    }
    assert ResolutionStage(next);
  }

  lemma PayoutStepKeepsResolution(s: Record, op: Op)
    requires QuotesOk(s) && ResolutionOk(s) && PayoutStep(op) && Apply(s, op).Done?
    ensures ResolutionOk(Apply(s, op).next)
  {
    var next := Apply(s, op).next;
    if op.DoReportPayout? {
      assert ReportedOnce(next);
    } else {
      assert NotReported(next);
    }
  }

  lemma CompletionStepKeepsResolution(s: Record, op: Op)
    requires QuotesOk(s) && ResolutionOk(s) && CompletionStep(op) && Apply(s, op).Done?
    ensures ResolutionOk(Apply(s, op).next)
  {
    assert ReportedOnce(Apply(s, op).next);
  }

  lemma RefundStepKeepsResolution(s: Record, op: Op)
    requires QuotesOk(s) && ResolutionOk(s) && RefundStep(op) && Apply(s, op).Done?
    ensures ResolutionOk(Apply(s, op).next)
  {
    if op.DoStartRefund? {
      StartRefundKeepsResolution(s, op.now);
    } else {
      ConfirmRefundKeepsResolution(s, op.refundedAt, op.now);
    }
  }

  lemma StartRefundKeepsResolution(s: Record, now: Instant)
    requires QuotesOk(s) && ResolutionOk(s) && StartRefund(s, now).Done?
    ensures ResolutionOk(StartRefund(s, now).next)
  {
    hide HighestNonDraft, QuoteTimesOk;
    var next := StartRefund(s, now).next;
    assert NotReported(s) ==> NotReported(next);
    assert ReportedOnce(s) ==> ReportedOnce(next);
  }

  lemma ConfirmRefundKeepsResolution(s: Record, refundedAt: Instant, now: Instant)
    requires ResolutionOk(s) && ConfirmRefund(s, refundedAt, now).Done?
    ensures ResolutionOk(ConfirmRefund(s, refundedAt, now).next)
  {
    var next := ConfirmRefund(s, refundedAt, now).next;
    assert NotReported(s) ==> NotReported(next);
    assert ReportedOnce(s) ==> ReportedOnce(next);
  }

  // ----- What a step does not touch -----

  predicate PayoutStep(op: Op) {
    op.DoCreateCase? || op.DoUpdateCase? || op.DoAddEvidence? || op.DoCommitEvidenceUpload? ||
    op.DoReportPayout? || op.DoHold? || op.DoRelease?
  }

  predicate CompletionStep(op: Op) {
    op.DoRequestConfirmation? || op.DoConfirmReceived? || op.DoCompleteByAdmin?
  }

  predicate RefundStep(op: Op) {
    op.DoStartRefund? || op.DoConfirmRefund?
  }

  predicate DisputeStep(op: Op) {
    op.DoOpenDispute? || op.DoTakeDispute? || op.DoResolveDispute?
  }

  predicate FundingStep(op: Op) {
    op.DoPublish? || op.DoSubmitProof? || op.DoCommitUpload? || op.DoReviewProof? || op.DoConfirmFunds?
  }

  predicate QuoteStep(op: Op) {
    op.DoCreateDraft? || op.DoSendDraft? || op.DoExpire? || op.DoDecide?
  }

  predicate PastAcceptance(status: TransferStatus) {
    !Unquoted(status) && status != Cancelled
  }

  predicate PastFunding(status: TransferStatus) {
    PastAcceptance(status) && status != QuoteAccepted && status != FundingPending && status != FundingSubmitted
  }

  predicate BeforePayout(status: TransferStatus) {
    Unquoted(status) || status == QuoteAccepted || status == FundingPending || status == FundingSubmitted || status == FundsConfirmed
  }

  lemma QuotesFrame(s: Record, next: Record)
    requires QuotesOk(s) && PastAcceptance(s.status) && PastAcceptance(next.status)
    requires next.quotes == s.quotes && next.acceptedQuote == s.acceptedQuote && next.requested == s.requested
    ensures QuotesOk(next)
  {
  }

  lemma FundingFrame(s: Record, next: Record)
    requires FundingOk(s) && PastFunding(s.status) && PastFunding(next.status)
    requires next.instructions == s.instructions && next.proofs == s.proofs
    requires next.acceptedQuote == s.acceptedQuote && next.requested == s.requested
    ensures FundingOk(next)
  {
    assert Funded(s);
    assert Funded(next);
  }

  lemma ResolutionFrame(s: Record, next: Record)
    requires ResolutionOk(s) && BeforePayout(s.status) && BeforePayout(next.status)
    requires next.payoutCase == s.payoutCase && next.disputes == s.disputes
    requires next.confirmations == s.confirmations && next.refund == s.refund
    ensures ResolutionOk(next)
  {
    assert Untouched(s);
  }

  // ----- Assembly -----

  lemma TransitionKeeps(s: Record, op: Op)
    requires Inv(s) && Legal(op) && op.DoTransition? && Apply(s, op).Done?
    ensures Inv(Apply(s, op).next)
  {
    TransitionKeepsQuotes(s, op.target);
    TransitionKeepsFunding(s, op.target);
    TransitionKeepsResolution(s, op.target);
  }

  lemma QuoteStepKeepsQuotes(s: Record, op: Op)
    requires QuotesOk(s) && QuoteStep(op) && Apply(s, op).Done?
    ensures QuotesOk(Apply(s, op).next)
  {
    if op.DoCreateDraft? {
      CreateDraftKeepsQuotes(s, op.draft, op.receiveSupported, op.now);
    } else if op.DoSendDraft? {
      SendDraftKeepsQuotes(s, op.quoteId, op.now);
    } else if op.DoExpire? {
      ExpireKeepsQuotes(s, op.now);
    } else {
      DecideKeepsQuotes(s, op.quoteId, op.accept, op.now);
    }
  }

  lemma QuoteStepKeeps(s: Record, op: Op)
    requires Inv(s) && QuoteStep(op) && Apply(s, op).Done?
    ensures Inv(Apply(s, op).next)
  {
    QuoteStepKeepsQuotes(s, op);
    var next := Apply(s, op).next;
    if next != s {
      QuoteStepStatuses(s, op);
      ResolutionFrame(s, next);
      EarlyFundingFrame(s, next);
    }
  }

  lemma EarlyFundingFrame(s: Record, next: Record)
    requires FundingOk(s) && Unquoted(s.status) && (Unquoted(next.status) || next.status == QuoteAccepted)
    requires next.instructions == s.instructions && next.proofs == s.proofs
    ensures FundingOk(next)
  {
    assert NotFunded(s) && NotFunded(next);
  }

  /** A quote step that changes anything happens before acceptance, or is the acceptance. */
  lemma QuoteStepStatuses(s: Record, op: Op)
    requires QuotesOk(s) && QuoteStep(op) && Apply(s, op).Done?
    requires Apply(s, op).next != s
    ensures Unquoted(s.status) && (Unquoted(Apply(s, op).next.status) || Apply(s, op).next.status == QuoteAccepted)
  {
    if op.DoExpire? {
      assert HasQuote(s.quotes, Sent);
    }
  }

  lemma FundingStepKeeps(s: Record, op: Op)
    requires Inv(s) && FundingStep(op) && Apply(s, op).Done?
    ensures Inv(Apply(s, op).next)
  {
    hide QuotesOk, FundingOk, ResolutionOk;
    var next := Apply(s, op).next;
    match op {
      case DoPublish(template, validUntil, now) => PublishKeepsFunding(s, template, validUntil, now);
      case DoSubmitProof(id, input, now) => SubmitProofKeepsFunding(s, id, input, now);
      case DoCommitUpload(id, now) => CommitUploadKeepsFunding(s, id, now);
      case DoReviewProof(id, decision, now) => ReviewProofKeepsFunding(s, id, decision, now);
      case DoConfirmFunds(id) => ConfirmFundsKeepsFunding(s, id);
    }
    QuotesFrame(s, next);
    ResolutionFrame(s, next);
  }

  lemma PayoutStepKeeps(s: Record, op: Op)
    requires Inv(s) && PayoutStep(op) && Apply(s, op).Done?
    ensures Inv(Apply(s, op).next)
  {
    hide QuotesOk, FundingOk, ResolutionOk;
    PayoutStepKeepsResolution(s, op);
    QuotesFrame(s, Apply(s, op).next);
    FundingFrame(s, Apply(s, op).next);
  }

  lemma CompletionStepKeeps(s: Record, op: Op)
    requires Inv(s) && CompletionStep(op) && Apply(s, op).Done?
    ensures Inv(Apply(s, op).next)
  {
    hide QuotesOk, FundingOk, ResolutionOk;
    CompletionStepKeepsResolution(s, op);
    QuotesFrame(s, Apply(s, op).next);
    FundingFrame(s, Apply(s, op).next);
  }

  lemma RefundStepKeeps(s: Record, op: Op)
    requires Inv(s) && RefundStep(op) && Apply(s, op).Done?
    ensures Inv(Apply(s, op).next)
  {
    hide QuotesOk, FundingOk, ResolutionOk;
    RefundStepKeepsResolution(s, op);
    QuotesFrame(s, Apply(s, op).next);
    FundingFrame(s, Apply(s, op).next);
  }

  lemma DisputeStepKeepsResolution(s: Record, op: Op)
    requires QuotesOk(s) && ResolutionOk(s) && DisputeStep(op) && Apply(s, op).Done?
    ensures PastFunding(s.status) && ResolutionOk(Apply(s, op).next)
  {
    if op.DoOpenDispute? {
      OpenDisputeKeepsResolution(s, op.verified, op.now);
    } else if op.DoTakeDispute? {
      TakeDisputeKeepsResolution(s, op.disputeId, op.staff);
    } else {
      ResolveDisputeKeepsResolution(s, op.disputeId, op.action, op.staff, op.now);
    }
  }

  lemma DisputeStepKeeps(s: Record, op: Op)
    requires Inv(s) && DisputeStep(op) && Apply(s, op).Done?
    ensures Inv(Apply(s, op).next)
  {
    hide QuotesOk, FundingOk, ResolutionOk;
    DisputeStepKeepsResolution(s, op);
    QuotesFrame(s, Apply(s, op).next);
    FundingFrame(s, Apply(s, op).next);
  }

  /** Every step the services can take keeps the joint invariant. */
  lemma StepKeeps(s: Record, op: Op)
    requires Inv(s) && Legal(op) && Apply(s, op).Done?
    ensures Inv(Apply(s, op).next)
  {
    if op.DoTransition? {
      TransitionKeeps(s, op);
    } else if QuoteStep(op) {
      QuoteStepKeeps(s, op);
    } else if FundingStep(op) {
      FundingStepKeeps(s, op);
    } else if PayoutStep(op) {
      PayoutStepKeeps(s, op);
    } else if CompletionStep(op) {
      CompletionStepKeeps(s, op);
    } else if RefundStep(op) {
      RefundStepKeeps(s, op);
    } else {
      DisputeStepKeeps(s, op);
    }
  }
}
