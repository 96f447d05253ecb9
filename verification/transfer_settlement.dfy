/**
 Money that was received can always be settled: whatever happened to a transfer, its confirmed funds can still be
 paid out or given back in three steps, without the cancellation that would strand them.
 */
module TransferSettlement {
  import opened Common
  import opened TransferState
  import opened TransferRecords
  import opened TransferSteps
  import opened TransferInvariant
  import opened TransferProofs
  import opened TransferProgress
  import opened TransferRuns
  import opened TransferTheorems

  /** The recipient has been paid, or the sender has the money back. */
  predicate Settled(s: Record) {
    EndsAs(s, PaidOut) || EndsAs(s, ReturnedToSender)
  }

  predicate AllLegal(ops: seq<Op>) {
    forall k | 0 <= k < |ops| :: Legal(ops[k])
  }

  /** At most three steps, each successful, that settle the money. */
  predicate Settling(s: Record, ops: seq<Op>) {
    |ops| <= 3 && AllLegal(ops) && Play(s, ops).Done? && Settled(Play(s, ops).next)
  }

  lemma SettlesInOne(s: Record, op: Op)
    requires Legal(op) && Apply(s, op).Done? && Settled(Apply(s, op).next)
    ensures Settling(s, [op])
  {
    PlayCons(s, op, []);
    assert [op] + [] == [op];
  }

  lemma SettlesOneLater(s: Record, op: Op, ops: seq<Op>)
    requires Legal(op) && Apply(s, op).Done? && |ops| < 3 && Settling(Apply(s, op).next, ops)
    ensures Settling(s, [op] + ops)
  {
    hide Settled, Apply, Legal;
    PlayCons(s, op, ops);
  }

  /** A refund that is under way is paid. */
  lemma PayRefund(s: Record, now: Instant) returns (ops: seq<Op>)
    requires s.status == RefundPending && RefundIs(s, RefundUnderway) && ClockReady(s, now)
    ensures |ops| == 1 && Settling(s, ops)
  {
    var pay := DoConfirmRefund(s.refund.value.initiatedAt, now);
    SettlesInOne(s, pay);
    ops := [pay];
  }

  /** Confirmed funds, or a held payout, are refunded. */
  lemma RefundAndPay(s: Record, now: Instant) returns (ops: seq<Op>)
    requires s.refund.None? && AcceptedQuote(s).Some?
    requires (s.status == FundsConfirmed && s.payoutCase.None?) || (s.status == OnHold && CaseIs(s, CaseOnHold))
    ensures |ops| == 2 && Settling(s, ops)
  {
    var pay := PayRefund(Apply(s, DoStartRefund(now)).next, now);
    SettlesOneLater(s, DoStartRefund(now), pay);
    ops := [DoStartRefund(now)] + pay;
  }

  /** A verified proof is confirmed first. */
  lemma ConfirmAndRefund(s: Record, now: Instant) returns (ops: seq<Op>)
    requires s.status == FundingSubmitted && OneVerified(s.proofs) && Untouched(s) && AcceptedQuote(s).Some?
    ensures Settling(s, ops)
  {
    var id :| SoleVerified(s.proofs, id);
    var refund := RefundAndPay(ConfirmFunds(s, id).next, now);
    SettlesOneLater(s, DoConfirmFunds(id), refund);
    ops := [DoConfirmFunds(id)] + refund;
  }

  /** A running payout is held first. */
  lemma HoldAndRefund(s: Record, now: Instant) returns (ops: seq<Op>)
    requires s.status == PayoutInProgress && CaseIs(s, CaseInProgress) && s.refund.None? && AcceptedQuote(s).Some?
    ensures Settling(s, ops)
  {
    var refund := RefundAndPay(PlaceHold(s).next, now);
    SettlesOneLater(s, DoHold, refund);
    ops := [DoHold] + refund;
  }

  /** A reported payout is completed by an administrator. */
  lemma CompleteReported(s: Record) returns (ops: seq<Op>)
    requires (s.status == PayoutReported || s.status == ConfirmationPending) && CaseIs(s, CaseReported)
    requires ReportedOnce(s) && s.refund.None?
    ensures Settling(s, ops)
  {
    SettlesInOne(s, DoCompleteByAdmin);
    ops := [DoCompleteByAdmin];
  }

  /** A dispute is resolved by refunding the sender. */
  lemma RefundDispute(s: Record, now: Instant) returns (ops: seq<Op>)
    requires ResolutionOk(s) && s.status == Disputed && AcceptedQuote(s).Some?
    ensures Settling(s, ops)
  {
    var resolve := DoResolveDispute(|s.disputes| - 1, RefundSender, 0, now);
    assert LastDisputeActive(s);
    hide LastDisputeActive, Settling;
    var pay := PayRefund(Apply(s, resolve).next, now);
    SettlesOneLater(s, resolve, pay);
    ops := [resolve] + pay;
  }

  /** The sender's money is in staff hands: a proof is verified, or the funds were confirmed. */
  ghost predicate HoldsMoney(s: Record) {
    FundsWereConfirmed(s) || (s.status == FundingSubmitted && OneVerified(s.proofs))
  }

  lemma WayToSettle(s: Record, now: Instant) returns (ops: seq<Op>)
    requires Inv(s) && ClockReady(s, now) && !Terminal(s.status) && HoldsMoney(s)
    ensures Settling(s, ops)
  {
    assert AcceptedQuote(s).Some?;
    hide QuotesOk, FundingOk, Settling;
    if s.status == FundingSubmitted {
      ops := ConfirmAndRefund(s, now);
    } else if s.status == PayoutInProgress {
      ops := HoldAndRefund(s, now);
    } else if s.status == PayoutReported || s.status == ConfirmationPending {
      ops := CompleteReported(s);
    } else if s.status == Disputed {
      ops := RefundDispute(s, now);
    } else if s.status == RefundPending {
      ops := PayRefund(s, now);
    } else {
      ops := RefundAndPay(s, now);
    }
  }

  lemma {:induction false} TerminalStays(s: Record, ops: seq<Op>)
    requires Terminal(s.status) && AllLegal(ops) && Play(s, ops).Done?
    ensures Play(s, ops).next.status == s.status
    decreases |ops|
  {
    hide Apply, Legal;
    if ops != [] {
      OnTableIffNotRelease(s, ops[0]);
      TerminalIffAbsorbing(s.status);
      TerminalStays(Apply(s, ops[0]).next, ops[1..]);
    }
  }

  lemma AlreadySettled(s: Record)
    requires Inv(s) && (s.status == Completed || s.status == Refunded)
    ensures Settling(s, [])
  {
    hide QuotesOk, FundingOk;
  }

  /**
   In every reachable state in which the money was received, three steps or fewer settle it, unless staff already
   failed the transfer or it was cancelled; then no steps, however many, ever do.
   */
  lemma MoneyCanBeSettledUnlessGivenUp(worlds: seq<World>, events: seq<Event>, i: nat, now: Instant)
    requires IsRun(worlds, events) && i < |worlds|
    requires HoldsMoney(worlds[i].record) && ClockReady(worlds[i].record, now)
    ensures (exists ops :: Settling(worlds[i].record, ops)) <==>
            worlds[i].record.status != Failed && worlds[i].record.status != Cancelled
    ensures worlds[i].record.status == Failed || worlds[i].record.status == Cancelled ==>
              forall ops | AllLegal(ops) && Play(worlds[i].record, ops).Done? :: !Settled(Play(worlds[i].record, ops).next)
  {
    RunKeeps(worlds, events, i);
    hide IsRun, QuotesOk, FundingOk, ResolutionOk, HoldsMoney;
    var s := worlds[i].record;
    if s.status == Completed || s.status == Refunded {
      AlreadySettled(s);
    } else if s.status == Failed || s.status == Cancelled {
      forall ops | AllLegal(ops) && Play(s, ops).Done? ensures !Settled(Play(s, ops).next) {
        TerminalStays(s, ops);
      }
    } else {
      WaitingIsUnfunded(s);
      var ops := WayToSettle(s, now);
    }
  }

  lemma WaitingIsUnfunded(s: Record)
    requires HoldsMoney(s)
    ensures s.status != Declined && s.status != QuoteExpired
  {
  }
}
