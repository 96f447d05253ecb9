/**
 The database carries triggers and unique indexes of its own. The services never run into them:
 every step they take from a reachable record is an update those guards allow. What has been
 decided is therefore never rewritten, over the whole run.
 */
module TransferHistory {
  import opened Common
  import opened TransferRecords
  import opened TransferSteps
  import opened TransferInvariant
  import opened TransferProofs
  import opened TransferProgress
  import opened TransferRuns

  // ----- The guards -----

  predicate StaysSet(before: Option<Instant>, after: Option<Instant>) {
    before.Some? ==> after == before
  }

  predicate ClosedQuote(status: QuoteStatus) {
    status != Draft && status != Sent
  }

  /** Quote_snapshot_immutable and Quote_lifecycle_valid. */
  predicate QuoteUpdate(q: Quote, r: Quote) {
    && r == q.(status := r.status, sentAt := r.sentAt, acceptedAt := r.acceptedAt, rejectedAt := r.rejectedAt)
    && StaysSet(q.sentAt, r.sentAt) && StaysSet(q.acceptedAt, r.acceptedAt) && StaysSet(q.rejectedAt, r.rejectedAt)
    && (q.status == Draft ==> r.status == Draft || r.status == Sent)
    && (q.status == Sent ==> r.status != Draft)
    && (ClosedQuote(q.status) ==> r.status == q.status)
    && (r.status != Draft ==> r.sentAt.Some?)
    && (r.status == Accepted ==> r.acceptedAt.Some?)
    && (r.status == Rejected ==> r.rejectedAt.Some?)
  }

  predicate ReviewedProof(status: ProofStatus) {
    status != PendingUpload && status != Submitted
  }

  /** FundingProof_snapshot_immutable, FundingProof_lifecycle_valid and FundingProof_history_delete_guard. */
  predicate ProofUpdate(p: Proof, r: Option<Proof>) {
    match r
    case None => p.status == PendingUpload && p.uploadedAt.None?
    case Some(r) =>
      && r == p.(status := r.status, uploadedAt := r.uploadedAt, reviewedAt := r.reviewedAt)
      && StaysSet(p.uploadedAt, r.uploadedAt) && StaysSet(p.reviewedAt, r.reviewedAt)
      && (p.status == PendingUpload ==> !ReviewedProof(r.status))
      && (p.status == Submitted ==> r.status != PendingUpload)
      && (p.status != PendingUpload ==> r.uploadedAt == p.uploadedAt)
      && (ReviewedProof(p.status) ==> r == p)
  }

  predicate EvidenceUpdate(e: Evidence, r: Evidence) {
    || r == e
    || (e.uploadedAt.None? && r == e.(uploadedAt := r.uploadedAt) &&
        (r.uploadedAt.Some? && e.file.Some? ==> r.uploadedAt.value <= e.file.value.uploadExpiresAt))
  }

  /** PayoutCase_integrity_guard, as the resolution migration leaves it, and PayoutEvidence_integrity_guard. */
  predicate CaseUpdate(c: PayoutCase, r: PayoutCase) {
    && r.amount == c.amount && r.createdAt == c.createdAt
    && (c.completed.Some? ==> r.completed == c.completed)
    && (r.status == c.status
        || (c.status == CasePending && r.status in {CaseInProgress, CaseOnHold, CaseFailed})
        || (c.status == CaseInProgress && r.status in {CaseReported, CaseOnHold, CaseFailed})
        || (c.status == CaseOnHold && r.status in {CaseInProgress, CaseFailed})
        || (c.status == CaseReported && r.status in {CaseCompleted, CaseFailed}))
    && (forall id | id in c.evidence :: id in r.evidence && EvidenceUpdate(c.evidence[id], r.evidence[id]))
  }

  /** Dispute_resolution_guard. */
  predicate DisputeUpdate(d: Dispute, r: Dispute) {
    && r.previous == d.previous && r.previousVerified == d.previousVerified && r.openedAt == d.openedAt
    && (!ActiveDispute(d) ==> r == d)
    && (d.status == InReview ==> r.status != DisputeOpen)
  }

  /** RefundCase_integrity_guard. */
  predicate RefundUpdate(f: Refund, r: Refund) {
    && r.amount == f.amount && r.initiatedAt == f.initiatedAt
    && (r == f || (f.status == RefundUnderway && r.status == RefundPaid))
  }

  function Lookup(proofs: map<nat, Proof>, id: nat): Option<Proof> {
    if id in proofs then Some(proofs[id]) else None
  }

  predicate QuoteUpdates(q: seq<Quote>, r: seq<Quote>) {
    |q| <= |r| && forall i | 0 <= i < |q| :: QuoteUpdate(q[i], r[i])
  }

  predicate ProofUpdates(p: map<nat, Proof>, r: map<nat, Proof>) {
    forall id | id in p :: ProofUpdate(p[id], Lookup(r, id))
  }

  predicate DisputeUpdates(d: seq<Dispute>, r: seq<Dispute>) {
    |d| <= |r| && forall i | 0 <= i < |d| :: DisputeUpdate(d[i], r[i])
  }

  /** Every row-level trigger lets the step from `s` to `r` through. */
  predicate TriggersAllow(s: Record, r: Record) {
    && r.requested == s.requested
    && QuoteUpdates(s.quotes, r.quotes)
    && s.instructions <= r.instructions
    && ProofUpdates(s.proofs, r.proofs)
    && (s.payoutCase.Some? ==> r.payoutCase.Some? && CaseUpdate(s.payoutCase.value, r.payoutCase.value))
    && DisputeUpdates(s.disputes, r.disputes)
    && s.confirmations <= r.confirmations
    && (s.refund.Some? ==> r.refund.Some? && RefundUpdate(s.refund.value, r.refund.value))
    && (s.acceptedQuote.Some? ==> r.acceptedQuote == s.acceptedQuote)
    && (r.acceptedQuote.Some? ==> AcceptedQuote(r).Some? && AcceptedQuote(r).value.status == Accepted && AcceptedQuote(r).value.acceptedAt.Some?)
  }

  /** One draft, one sent and one accepted quote; distinct versions; one active proof and dispute; one confirmation of each kind. */
  predicate UniqueIndexesHold(s: Record) {
    && (forall i, j | 0 <= i < j < |s.quotes| :: s.quotes[i].version != s.quotes[j].version)
    && (forall i, j | 0 <= i < j < |s.quotes| && s.quotes[i].status in {Draft, Sent, Accepted} :: s.quotes[i].status != s.quotes[j].status)
    && |s.instructions| <= 1
    && (forall a, b | a in s.proofs && b in s.proofs && ActiveProof(s.proofs[a]) && ActiveProof(s.proofs[b]) :: a == b)
    && (forall i, j | 0 <= i < j < |s.disputes| :: !(ActiveDispute(s.disputes[i]) && ActiveDispute(s.disputes[j])))
    && (forall i, j | 0 <= i < j < |s.confirmations| :: s.confirmations[i].source != s.confirmations[j].source)
  }

  // ----- They never fire -----

  lemma NothingChanged(s: Record)
    requires QuotesOk(s)
    ensures QuoteUpdates(s.quotes, s.quotes) && ProofUpdates(s.proofs, s.proofs) && DisputeUpdates(s.disputes, s.disputes)
    ensures s.payoutCase.Some? ==> CaseUpdate(s.payoutCase.value, s.payoutCase.value)
    ensures s.refund.Some? ==> RefundUpdate(s.refund.value, s.refund.value)
  {
    forall i | 0 <= i < |s.quotes| ensures QuoteTimesOk(s.quotes[i]) {
    }
  }

  lemma QuoteStepAllowed(s: Record, op: Op)
    requires QuotesOk(s) && (QuoteStep(op) || op.DoTransition?) && Apply(s, op).Done?
    ensures QuoteUpdates(s.quotes, Apply(s, op).next.quotes)
    ensures s.acceptedQuote.Some? ==> Apply(s, op).next.acceptedQuote == s.acceptedQuote
  {
    if op.DoTransition? {
      TransitionQuotesAllowed(s, op);
    } else if op.DoCreateDraft? || op.DoDecide? {
      DraftAndDecisionAllowed(s, op);
    } else if op.DoSendDraft? {
      SendingAllowed(s, op);
    } else {
      ExpiryAllowed(s, op);
    }
    hide QuotesOk, Apply, QuoteUpdates;
  }

  lemma ExpiryAllowed(s: Record, op: Op)
    requires QuotesOk(s) && op.DoExpire? && Apply(s, op).Done?
    ensures QuoteUpdates(s.quotes, Apply(s, op).next.quotes)
    ensures Apply(s, op).next.acceptedQuote == s.acceptedQuote
  {
    forall i | 0 <= i < |s.quotes| ensures QuoteTimesOk(s.quotes[i]) {
    }
  }

  lemma SendingAllowed(s: Record, op: Op)
    requires QuotesOk(s) && op.DoSendDraft? && Apply(s, op).Done?
    ensures QuoteUpdates(s.quotes, Apply(s, op).next.quotes)
    ensures s.acceptedQuote.Some? ==> Apply(s, op).next.acceptedQuote == s.acceptedQuote
  {
    forall i | 0 <= i < |s.quotes| ensures QuoteTimesOk(s.quotes[i]) {
    }
  }

  lemma TransitionQuotesAllowed(s: Record, op: Op)
    requires QuotesOk(s) && op.DoTransition? && Apply(s, op).Done?
    ensures QuoteUpdates(s.quotes, Apply(s, op).next.quotes)
    ensures s.acceptedQuote.Some? ==> Apply(s, op).next.acceptedQuote == s.acceptedQuote
  {
    forall i | 0 <= i < |s.quotes| ensures QuoteTimesOk(s.quotes[i]) {
    }
  }

  lemma DraftAndDecisionAllowed(s: Record, op: Op)
    requires QuotesOk(s) && (op.DoCreateDraft? || op.DoDecide?) && Apply(s, op).Done?
    ensures QuoteUpdates(s.quotes, Apply(s, op).next.quotes)
    ensures s.acceptedQuote.Some? ==> Apply(s, op).next.acceptedQuote == s.acceptedQuote
  {
    forall i | 0 <= i < |s.quotes| ensures QuoteTimesOk(s.quotes[i]) {
    }
  }

  lemma FundingStepAllowed(s: Record, op: Op)
    requires FundingOk(s) && FundingStep(op) && Apply(s, op).Done?
    ensures s.instructions <= Apply(s, op).next.instructions
    ensures ProofUpdates(s.proofs, Apply(s, op).next.proofs)
  {
    hide FundingStage;
  }

  lemma PayoutStepAllowed(s: Record, op: Op)
    requires ResolutionOk(s) && PayoutStep(op) && Apply(s, op).Done?
    ensures s.payoutCase.Some? ==>
      Apply(s, op).next.payoutCase.Some? && CaseUpdate(s.payoutCase.value, Apply(s, op).next.payoutCase.value)
  {
  }

  lemma CompletionStepAllowed(s: Record, op: Op)
    requires CompletionStep(op) && Apply(s, op).Done?
    ensures CaseUpdate(s.payoutCase.value, Apply(s, op).next.payoutCase.value)
    ensures s.confirmations <= Apply(s, op).next.confirmations
  {
  }

  lemma RefundStepAllowed(s: Record, op: Op)
    requires RefundStep(op) && Apply(s, op).Done?
    ensures s.payoutCase.Some? ==>
      Apply(s, op).next.payoutCase.Some? && CaseUpdate(s.payoutCase.value, Apply(s, op).next.payoutCase.value)
    ensures s.refund.Some? ==>
      Apply(s, op).next.refund.Some? && RefundUpdate(s.refund.value, Apply(s, op).next.refund.value)
  {
  }

  lemma DisputeStepAllowed(s: Record, op: Op)
    requires ResolutionOk(s) && DisputeStep(op) && Apply(s, op).Done?
    ensures s.payoutCase.Some? ==>
      Apply(s, op).next.payoutCase.Some? && CaseUpdate(s.payoutCase.value, Apply(s, op).next.payoutCase.value)
    ensures DisputeUpdates(s.disputes, Apply(s, op).next.disputes)
    ensures s.refund.Some? ==> Apply(s, op).next.refund == s.refund
  {
    if op.DoOpenDispute? {
      OpenDisputeAllowed(s, op);
    } else {
      DisputeWorkAllowed(s, op);
    }
    hide ResolutionOk, Apply, DisputeUpdates;
  }

  lemma OpenDisputeAllowed(s: Record, op: Op)
    requires ResolutionOk(s) && op.DoOpenDispute? && Apply(s, op).Done?
    ensures s.payoutCase.Some? ==>
      Apply(s, op).next.payoutCase.Some? && CaseUpdate(s.payoutCase.value, Apply(s, op).next.payoutCase.value)
    ensures DisputeUpdates(s.disputes, Apply(s, op).next.disputes)
    ensures Apply(s, op).next.refund == s.refund
  {
  }

  lemma DisputeWorkAllowed(s: Record, op: Op)
    requires ResolutionOk(s) && (op.DoTakeDispute? || op.DoResolveDispute?) && Apply(s, op).Done?
    ensures s.payoutCase.Some? ==>
      Apply(s, op).next.payoutCase.Some? && CaseUpdate(s.payoutCase.value, Apply(s, op).next.payoutCase.value)
    ensures DisputeUpdates(s.disputes, Apply(s, op).next.disputes)
    ensures s.refund.Some? ==> Apply(s, op).next.refund == s.refund
  {
    ActiveIsLast(s, op.disputeId);
  }

  lemma AcceptedIsAccepted(s: Record)
    requires QuotesOk(s) && s.acceptedQuote.Some?
    ensures AcceptedQuote(s).Some? && AcceptedQuote(s).value.status == Accepted && AcceptedQuote(s).value.acceptedAt.Some?
  {
    assert QuoteTimesOk(s.quotes[s.acceptedQuote.value]);
  }

  lemma AcceptanceStands(s: Record, op: Op)
    requires Inv(s) && Legal(op) && Apply(s, op).Done?
    ensures var r := Apply(s, op).next;
      r.acceptedQuote.Some? ==> AcceptedQuote(r).Some? && AcceptedQuote(r).value.status == Accepted && AcceptedQuote(r).value.acceptedAt.Some?
  {
    hide QuotesOk, FundingOk, ResolutionOk, Apply;
    StepKeeps(s, op);
    if Apply(s, op).next.acceptedQuote.Some? {
      AcceptedIsAccepted(Apply(s, op).next);
    }
  }

  lemma TriggersAllowEarlySteps(s: Record, op: Op)
    requires Inv(s) && Legal(op) && Apply(s, op).Done? && (QuoteStep(op) || op.DoTransition? || FundingStep(op))
    ensures TriggersAllow(s, Apply(s, op).next)
  {
    hide QuotesOk, FundingOk, ResolutionOk, QuoteUpdates, ProofUpdates, DisputeUpdates, CaseUpdate, RefundUpdate;
    NothingChanged(s);
    AcceptanceStands(s, op);
    if FundingStep(op) {
      FundingStepAllowed(s, op);
    } else {
      QuoteStepAllowed(s, op);
    }
  }

  lemma TriggersAllowPayoutSteps(s: Record, op: Op)
    requires Inv(s) && Apply(s, op).Done? && (PayoutStep(op) || CompletionStep(op))
    ensures TriggersAllow(s, Apply(s, op).next)
  {
    hide QuotesOk, FundingOk, ResolutionOk, QuoteUpdates, ProofUpdates, DisputeUpdates, CaseUpdate, RefundUpdate;
    NothingChanged(s);
    AcceptanceStands(s, op);
    if PayoutStep(op) {
      PayoutStepAllowed(s, op);
    } else {
      CompletionStepAllowed(s, op);
    }
  }

  lemma TriggersAllowLateSteps(s: Record, op: Op)
    requires Inv(s) && Apply(s, op).Done? && (RefundStep(op) || DisputeStep(op))
    ensures TriggersAllow(s, Apply(s, op).next)
  {
    hide QuotesOk, FundingOk, ResolutionOk, QuoteUpdates, ProofUpdates, DisputeUpdates, CaseUpdate, RefundUpdate;
    NothingChanged(s);
    AcceptanceStands(s, op);
    if RefundStep(op) {
      RefundStepAllowed(s, op);
    } else {
      DisputeStepAllowed(s, op);
    }
  }

  /** No trigger of the database ever rejects what a service step writes. */
  lemma TriggersNeverFire(s: Record, op: Op)
    requires Inv(s) && Legal(op) && Apply(s, op).Done?
    ensures TriggersAllow(s, Apply(s, op).next)
  {
    hide Inv, Apply, TriggersAllow;
    if QuoteStep(op) || op.DoTransition? || FundingStep(op) {
      TriggersAllowEarlySteps(s, op);
    } else if PayoutStep(op) || CompletionStep(op) {
      TriggersAllowPayoutSteps(s, op);
    } else {
      TriggersAllowLateSteps(s, op);
    }
  }

  /**
   The rows after each statement of a transaction that writes an indexed column. Sending supersedes before it sends, and
   a submission deletes before it inserts; every other transaction writes each indexed table in one statement.
   */
  function RowsWritten(s: Record, op: Op): seq<Record>
    requires Apply(s, op).Done?
  {
    match op
    case DoSendDraft(_, _) => [s.(quotes := SupersedeSent(s.quotes)), Apply(s, op).next]
    case DoSubmitProof(_, _, now) => [s.(proofs := WithoutStale(s.proofs, now)), Apply(s, op).next]
    case _ => [Apply(s, op).next]
  }

  /** Nor does a unique index, after any statement. */
  lemma UniqueIndexesNeverFire(s: Record, op: Op)
    requires Inv(s) && Legal(op) && Apply(s, op).Done?
    ensures forall r | r in RowsWritten(s, op) :: UniqueIndexesHold(r)
  {
    hide Inv, Apply, Legal, UniqueIndexesHold;
    StepKeeps(s, op);
    UniqueInEveryState(s);
    UniqueInEveryState(Apply(s, op).next);
    ClosingStaysUnique(s);
    if op.DoSubmitProof? {
      DeletingStaysUnique(s, op.now);
    }
  }

  lemma ClosingStaysUnique(s: Record)
    requires UniqueIndexesHold(s)
    ensures UniqueIndexesHold(s.(quotes := SupersedeSent(s.quotes)))
  {
  }

  lemma DeletingStaysUnique(s: Record, now: Instant)
    requires UniqueIndexesHold(s)
    ensures UniqueIndexesHold(s.(proofs := WithoutStale(s.proofs, now)))
  {
  }

  /** The order of the two statements matters: the other one trips an index exactly if the first has something to do. */
  lemma OtherOrderFiresIffNeeded(s: Record, op: Op)
    requires Inv(s) && Apply(s, op).Done?
    ensures op.DoSendDraft? ==>
      var sent := Apply(s, op).next.quotes[op.quoteId];
      UniqueIndexesHold(s.(quotes := s.quotes[op.quoteId := sent])) <==> !HasQuote(s.quotes, Sent)
    ensures op.DoSubmitProof? ==>
      (UniqueIndexesHold(s.(proofs := s.proofs[op.proofId := NewProof(op.proof, op.now)])) <==>
       forall id | id in s.proofs :: !Stale(s.proofs[id], op.now))
  {
    UniqueInEveryState(s);
    hide Inv;
    if op.DoSubmitProof? {
      InsertFirstFiresIffStale(s, op.proofId, op.proof, op.now);
    } else {
      hide UniqueIndexesHold;
      if op.DoSendDraft? {
        SendFirstFiresIffSent(s, op.quoteId, op.now);
      }
    }
  }

  lemma SendFirstFiresIffSent(s: Record, id: nat, now: Instant)
    requires UniqueIndexesHold(s) && SendDraft(s, id, now).Done?
    ensures UniqueIndexesHold(s.(quotes := s.quotes[id := SendDraft(s, id, now).next.quotes[id]])) <==> !HasQuote(s.quotes, Sent)
  {
    var quotes := s.quotes[id := SendDraft(s, id, now).next.quotes[id]];
    if k :| 0 <= k < |s.quotes| && s.quotes[k].status == Sent {
      var i, j := if k < id then k else id, if k < id then id else k;
      assert i < j && quotes[i].status == quotes[j].status == Sent;
    }
  }

  lemma InsertFirstFiresIffStale(s: Record, id: nat, input: ProofInput, now: Instant)
    requires UniqueIndexesHold(s) && SubmitProof(s, id, input, now).Done?
    ensures UniqueIndexesHold(s.(proofs := s.proofs[id := NewProof(input, now)])) <==>
            forall other | other in s.proofs :: !Stale(s.proofs[other], now)
  {
    var both, kept := s.proofs[id := NewProof(input, now)], WithoutStale(s.proofs, now);
    if other :| other in s.proofs && Stale(s.proofs[other], now) {
      assert ActiveProof(both[other]) && ActiveProof(both[id]);
    } else {
      assert kept == s.proofs;
      assert forall other | other in kept :: !ActiveProof(kept[other]);
    }
  }

  lemma UniqueInEveryState(s: Record)
    requires Inv(s)
    ensures UniqueIndexesHold(s)
  {
    hide QuotesOk, FundingOk, ResolutionOk;
    OpenQuotesDiffer(s);
    FundingIndexesHold(s);
    ResolutionIndexesHold(s);
  }

  lemma FundingIndexesHold(s: Record)
    requires FundingOk(s)
    ensures |s.instructions| <= 1
    ensures forall a, b | a in s.proofs && b in s.proofs && ActiveProof(s.proofs[a]) && ActiveProof(s.proofs[b]) :: a == b
  {
  }

  lemma ResolutionIndexesHold(s: Record)
    requires ResolutionOk(s)
    ensures forall i, j | 0 <= i < j < |s.disputes| :: !(ActiveDispute(s.disputes[i]) && ActiveDispute(s.disputes[j]))
    ensures forall i, j | 0 <= i < j < |s.confirmations| :: s.confirmations[i].source != s.confirmations[j].source
  {
  }

  lemma OpenQuotesDiffer(s: Record)
    requires QuotesOk(s)
    ensures forall i, j | 0 <= i < j < |s.quotes| && s.quotes[i].status in {Draft, Sent, Accepted} ::
              s.quotes[i].status != s.quotes[j].status
    ensures forall i, j | 0 <= i < j < |s.quotes| :: s.quotes[i].version != s.quotes[j].version
  {
    forall i, j | 0 <= i < j < |s.quotes| && s.quotes[i].status in {Draft, Sent, Accepted}
      ensures s.quotes[i].status != s.quotes[j].status
    {
      if s.quotes[i].status != Draft {
        assert HighestNonDraft(s.quotes, i);
      }
    }
  }

  // ----- What is decided stays decided -----

  /**
   Closed quotes, published instructions, reviewed proofs, the reported payout, closed disputes, confirmations and
   refund amounts are kept as they are.
   */
  predicate Kept(s: Record, r: Record) {
    && r.requested == s.requested
    && (s.acceptedQuote.Some? ==> r.acceptedQuote == s.acceptedQuote)
    && |s.quotes| <= |r.quotes|
    && (forall i | 0 <= i < |s.quotes| :: r.quotes[i].receive == s.quotes[i].receive && r.quotes[i].expiresAt == s.quotes[i].expiresAt)
    && (forall i | 0 <= i < |s.quotes| && ClosedQuote(s.quotes[i].status) :: r.quotes[i] == s.quotes[i])
    && s.instructions <= r.instructions
    && (forall id | id in s.proofs && s.proofs[id].status != PendingUpload ::
          id in r.proofs && r.proofs[id].status != PendingUpload && r.proofs[id].uploadedAt == s.proofs[id].uploadedAt)
    && (forall id | id in s.proofs && ReviewedProof(s.proofs[id].status) :: r.proofs[id] == s.proofs[id])
    && (s.payoutCase.Some? ==> r.payoutCase.Some? && r.payoutCase.value.amount == s.payoutCase.value.amount)
    && (s.payoutCase.Some? && s.payoutCase.value.completed.Some? ==> r.payoutCase.value.completed == s.payoutCase.value.completed)
    && |s.disputes| <= |r.disputes|
    && (forall i | 0 <= i < |s.disputes| && !ActiveDispute(s.disputes[i]) :: r.disputes[i] == s.disputes[i])
    && s.confirmations <= r.confirmations
    && (s.refund.Some? ==>
          && r.refund.Some? && r.refund.value.amount == s.refund.value.amount
          && r.refund.value.initiatedAt == s.refund.value.initiatedAt)
  }

  lemma StepIsKept(s: Record, op: Op)
    requires Inv(s) && Legal(op) && Apply(s, op).Done?
    ensures Kept(s, Apply(s, op).next)
  {
    hide QuotesOk, FundingOk, ResolutionOk, Apply, TriggersAllow, Kept;
    TriggersNeverFire(s, op);
    StepKeeps(s, op);
    AllowedIsKept(s, Apply(s, op).next);
  }

  lemma AllowedIsKept(s: Record, r: Record)
    requires TriggersAllow(s, r) && QuotesOk(s) && QuotesOk(r)
    ensures Kept(s, r)
  {
    forall i | 0 <= i < |s.quotes| && ClosedQuote(s.quotes[i].status)
      ensures r.quotes[i] == s.quotes[i]
    {
      assert QuoteUpdate(s.quotes[i], r.quotes[i]);
      assert QuoteTimesOk(s.quotes[i]) && QuoteTimesOk(r.quotes[i]);
    }
    assert forall id | id in s.proofs :: ProofUpdate(s.proofs[id], Lookup(r.proofs, id));
  }

  lemma {:induction false} DecisionsAreKept(worlds: seq<World>, events: seq<Event>, i: nat, j: nat)
    requires IsRun(worlds, events) && i <= j < |worlds|
    ensures Kept(worlds[i].record, worlds[j].record)
  {
    hide Inv, Apply, Legal;
    if i < j {
      DecisionsAreKept(worlds, events, i, j - 1);
      RunKeeps(worlds, events, j - 1);
      var w, e := worlds[j - 1], events[j - 1];
      EffectIsLegal(w, e);
      if Effect(w, e).Some? && Apply(w.record, Effect(w, e).value).Done? {
        StepIsKept(w.record, Effect(w, e).value);
        KeptChains(worlds[i].record, w.record, worlds[j].record);
      }
    }
  }

  lemma KeptChains(a: Record, b: Record, c: Record)
    requires Kept(a, b) && Kept(b, c)
    ensures Kept(a, c)
  {
  }
}
