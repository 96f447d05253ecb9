/** What the joint invariant gives a reader: agreement, money, quote history and evidence, at every point of every run. */
module TransferTheorems {
  import opened Common
  import opened TransferState
  import opened TransferRecords
  import opened TransferInvariant
  import opened TransferProofs
  import opened TransferRuns

  // ----- Transfer, case, dispute and refund agree -----

  ghost predicate OneActiveDispute(s: Record, i: nat) {
    i < |s.disputes| && ActiveDispute(s.disputes[i]) &&
    forall j | 0 <= j < |s.disputes| && ActiveDispute(s.disputes[j]) :: j == i
  }

  ghost predicate CasesAgree(s: Record) {
    && (s.status == PayoutInProgress <==> CaseIs(s, CaseInProgress))
    && (s.status == Completed <==> CaseIs(s, CaseCompleted))
    && (s.status == PayoutReported || s.status == ConfirmationPending ==> CaseIs(s, CaseReported))
    && (CaseIs(s, CaseReported) ==> s.status == PayoutReported || s.status == ConfirmationPending || s.status == Disputed)
    && (CaseIs(s, CaseOnHold) ==> s.status == OnHold || s.status == Disputed || s.status == Cancelled)
    && (CaseIs(s, CaseFailed) ==> s.status == Failed || s.status == RefundPending || s.status == Refunded)
    && !CaseIs(s, CasePending)
    && (s.status == Failed ==> CaseIs(s, CaseFailed))
    && (s.status == OnHold ==> CaseIs(s, CaseOnHold))
    && (s.status == Cancelled ==> s.payoutCase.None? || CaseIs(s, CaseOnHold))
  }

  ghost predicate DisputesAgree(s: Record) {
    && (s.status == Disputed <==> exists i: nat :: OneActiveDispute(s, i))
    && (s.status != Disputed <==> NoActiveDispute(s))
    && (forall i: nat | OneActiveDispute(s, i) ::
          if s.disputes[i].previous == PayoutInProgress then CaseIs(s, CaseOnHold) else CaseIs(s, CaseReported))
  }

  ghost predicate RefundsAgree(s: Record) {
    && (s.status == RefundPending <==> s.refund.Some? && s.refund.value.status == RefundUnderway)
    && (s.status == Refunded <==> s.refund.Some? && s.refund.value.status == RefundPaid)
    && (s.refund.Some? ==> s.payoutCase.None? || CaseIs(s, CaseFailed))
  }

  ghost predicate RecordsAgree(s: Record) {
    CasesAgree(s) && DisputesAgree(s) && RefundsAgree(s)
  }

  lemma InvCasesAgree(s: Record)
    requires ResolutionOk(s)
    ensures CasesAgree(s) && RefundsAgree(s)
  {
  }

  lemma InvDisputesAgree(s: Record)
    requires ResolutionOk(s)
    ensures DisputesAgree(s)
  {
    if s.status == Disputed {
      assert OneActiveDispute(s, |s.disputes| - 1);
    } else {
      assert NoActiveDispute(s);
    }
  }

  lemma InvAgrees(s: Record)
    requires ResolutionOk(s)
    ensures RecordsAgree(s)
  {
    hide ResolutionOk;
    InvCasesAgree(s);
    InvDisputesAgree(s);
  }

  lemma ReachableRecordsAgree(worlds: seq<World>, events: seq<Event>, i: nat)
    requires IsRun(worlds, events) && i < |worlds|
    ensures RecordsAgree(worlds[i].record)
  {
    RunKeeps(worlds, events, i);
    InvAgrees(worlds[i].record);
  }

  // ----- Quote history -----

  ghost predicate QuoteHistory(s: Record) {
    && (forall i | 0 <= i < |s.quotes| :: s.quotes[i].version == i + 1)
    && (forall i | 0 <= i < |s.quotes| && s.quotes[i].status == Draft :: i == |s.quotes| - 1)
    && (forall i | 0 <= i < |s.quotes| && s.quotes[i].status == Sent ::
          forall j | i < j < |s.quotes| :: s.quotes[j].status == Draft)
    && (forall i, j | 0 <= i < |s.quotes| && 0 <= j < |s.quotes| && s.quotes[i].status == Sent && s.quotes[j].status == Sent :: i == j)
    && (s.status == Quoted ==> HasQuote(s.quotes, Sent))
    && (forall i | 0 <= i < |s.quotes| :: s.quotes[i].status == Accepted <==> s.acceptedQuote == Some(i))
    && (PastAcceptance(s.status) ==> HasQuote(s.quotes, Accepted) && !HasQuote(s.quotes, Sent))
    && (HasQuote(s.quotes, Accepted) ==> PastAcceptance(s.status) || s.status == Cancelled)
    && (forall i | 0 <= i < |s.quotes| && s.quotes[i].status == Accepted ::
          s.quotes[i].acceptedAt.Some? && s.quotes[i].acceptedAt.value < s.quotes[i].expiresAt)
  }

  lemma OnlyOneAccepted(s: Record, i: nat)
    requires QuotesOk(s) && i < |s.quotes| && s.quotes[i].status == Accepted
    ensures s.acceptedQuote == Some(i)
  {
    assert HighestNonDraft(s.quotes, i);
    assert HighestNonDraft(s.quotes, s.acceptedQuote.value);
  }

  lemma InvQuoteHistory(s: Record)
    requires Inv(s)
    ensures QuoteHistory(s)
  {
    hide FundingOk, ResolutionOk;
    forall i | 0 <= i < |s.quotes| && s.quotes[i].status == Sent
      ensures forall j | 0 <= j < |s.quotes| && s.quotes[j].status == Sent :: i == j
    {
      OnlyOneSent(s, i);
    }
    forall i | 0 <= i < |s.quotes| && s.quotes[i].status == Accepted
      ensures s.acceptedQuote == Some(i)
    {
      OnlyOneAccepted(s, i);
    }
  }

  lemma ReachableQuoteHistory(worlds: seq<World>, events: seq<Event>, i: nat)
    requires IsRun(worlds, events) && i < |worlds|
    ensures QuoteHistory(worlds[i].record)
  {
    RunKeeps(worlds, events, i);
    InvQuoteHistory(worlds[i].record);
  }

  // ----- Funding evidence -----

  /** A status in which staff have confirmed that the sender's money arrived. */
  predicate FundsWereConfirmed(s: Record) {
    PastFunding(s.status) || (s.status == Cancelled && s.payoutCase.Some?)
  }

  ghost predicate FundingEvidence(s: Record) {
    && (forall a, b | a in s.proofs && b in s.proofs && ActiveProof(s.proofs[a]) && ActiveProof(s.proofs[b]) :: a == b)
    && (s.status == FundingPending ==> NonePresented(s.proofs))
    && (s.status == FundingSubmitted ==> OnePresented(s.proofs) && NonePending(s.proofs))
    && (FundsWereConfirmed(s) <==> OneVerified(s.proofs) && s.status != FundingSubmitted)
    && (FundsWereConfirmed(s) ==> NoneActive(s.proofs) && |s.instructions| == 1)
    && |s.instructions| <= 1
  }

  lemma InvFundingEvidence(s: Record)
    requires Inv(s)
    ensures FundingEvidence(s)
  {
    assert FundsWereConfirmed(s) ==> Funded(s);
    if OneVerified(s.proofs) && s.status != FundingSubmitted && !FundsWereConfirmed(s) {
      var id :| SoleVerified(s.proofs, id);
      assert Presented(s.proofs[id]);
      assert false;
    }
  }

  lemma ReachableFundingEvidence(worlds: seq<World>, events: seq<Event>, i: nat)
    requires IsRun(worlds, events) && i < |worlds|
    ensures FundingEvidence(worlds[i].record)
  {
    RunKeeps(worlds, events, i);
    InvFundingEvidence(worlds[i].record);
  }

  // ----- Money -----

  /** Every record of the sent amount says what the sender asked for, every record of the payout what the accepted quote promised. */
  ghost predicate MoneyAgrees(s: Record, requested: Money) {
    && s.requested == requested
    && (forall i | 0 <= i < |s.quotes| :: s.quotes[i].send == requested)
    && (forall i | 0 <= i < |s.instructions| :: s.instructions[i].amount == requested && s.acceptedQuote == Some(s.instructions[i].quote))
    && (s.refund.Some? ==> s.refund.value.amount == requested)
    && (s.payoutCase.Some? ==> AcceptedQuote(s).Some? && s.payoutCase.value.amount == AcceptedQuote(s).value.receive)
    && (s.payoutCase.Some? && s.payoutCase.value.completed.Some? ==>
          s.payoutCase.value.completed.value.amount == AcceptedQuote(s).value.receive)
  }

  lemma InvMoneyAgrees(s: Record)
    requires Inv(s)
    ensures MoneyAgrees(s, s.requested)
  {
    assert ReportedOnce(s) || NotReported(s);
    if s.instructions != [] {
      if s.status == Cancelled && s.payoutCase.None? {
        assert AwaitingProof(s);
      } else if s.status == FundingPending {
        assert AwaitingProof(s);
      } else if s.status == FundingSubmitted {
        assert UnderReview(s);
      } else {
        assert Funded(s);
      }
    }
  }

  lemma {:induction false} RequestedNeverChanges(worlds: seq<World>, events: seq<Event>, i: nat)
    requires IsRun(worlds, events) && i < |worlds|
    ensures worlds[i].record.requested == worlds[0].record.requested
  {
    if i > 0 {
      RequestedNeverChanges(worlds, events, i - 1);
    }
  }

  lemma ReachableMoneyAgrees(worlds: seq<World>, events: seq<Event>, i: nat)
    requires IsRun(worlds, events) && i < |worlds|
    ensures MoneyAgrees(worlds[i].record, worlds[0].record.requested)
  {
    RunKeeps(worlds, events, i);
    InvMoneyAgrees(worlds[i].record);
    RequestedNeverChanges(worlds, events, i);
  }

  // ----- Where the money ends up -----

  datatype Ending = PaidOut | ReturnedToSender | StoppedByStaff | CancelledWhileHeld

  predicate EndsAs(s: Record, ending: Ending) {
    match ending
    case PaidOut => s.status == Completed && s.refund.None? && s.payoutCase.Some? && s.payoutCase.value.completed.Some?
    case ReturnedToSender => s.status == Refunded && s.refund.Some? && s.refund.value.status == RefundPaid && !CaseIs(s, CaseCompleted)
    case StoppedByStaff => s.status == Failed && s.refund.None? && CaseIs(s, CaseFailed)
    case CancelledWhileHeld => s.status == Cancelled && s.refund.None? && CaseIs(s, CaseOnHold)
  }

  /**
   A transfer whose funds were confirmed ends in exactly one of four ways, and only two of them settle
   the money: it is never both paid out and refunded, and a transfer cancelled while on hold keeps the
   sender's confirmed funds with no refund.
   */
  lemma FundedEndings(worlds: seq<World>, events: seq<Event>, i: nat)
    requires IsRun(worlds, events) && i < |worlds|
    requires Terminal(worlds[i].record.status)
    ensures FundsWereConfirmed(worlds[i].record) <==> exists ending :: EndsAs(worlds[i].record, ending)
    ensures forall a, b | EndsAs(worlds[i].record, a) && EndsAs(worlds[i].record, b) :: a == b
  {
    RunKeeps(worlds, events, i);
    hide IsRun;
    EndingsOf(worlds[i].record);
  }

  lemma EndingsOf(s: Record)
    requires Inv(s) && Terminal(s.status)
    ensures FundsWereConfirmed(s) <==> exists ending :: EndsAs(s, ending)
    ensures forall a, b | EndsAs(s, a) && EndsAs(s, b) :: a == b
  {
    hide QuotesOk, FundingOk;
    if FundsWereConfirmed(s) {
      assert EndsAs(s, match s.status
        case Completed => PaidOut
        case Refunded => ReturnedToSender
        case Failed => StoppedByStaff
        case _ => CancelledWhileHeld);
    }
  }
}
