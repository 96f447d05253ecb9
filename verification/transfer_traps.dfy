/** Three promises the services do not keep in general, each with the exact condition under which they do. */
module TransferTraps {
  import opened Common
  import opened TransferState
  import opened TransferRecords
  import opened TransferSteps
  import opened TransferInvariant
  import opened TransferProofs
  import opened TransferProgress

  // ----- An expired draft can be neither sent nor replaced -----

  predicate AwaitingQuote(status: TransferStatus) {
    status == Requested || status == NeedsInfo || status == Quoting
  }

  /** The only draft a transfer can have is its last quote. */
  predicate DraftExpired(s: Record, now: Instant) {
    s.quotes != [] && s.quotes[|s.quotes| - 1].status == Draft && s.quotes[|s.quotes| - 1].expiresAt <= now
  }

  /** The clock a quote step reads is not before `now`. */
  predicate NotBefore(op: Op, now: Instant) {
    (op.DoSendDraft? || op.DoCreateDraft? || op.DoExpire? || op.DoDecide?) ==> op.now >= now
  }

  predicate Schedule(ops: seq<Op>, now: Instant) {
    forall k | 0 <= k < |ops| :: Legal(ops[k]) && NotBefore(ops[k], now)
  }

  predicate Stuck(s: Record, now: Instant) {
    DraftExpired(s, now) && (AwaitingQuote(s.status) || s.status == Declined || s.status == Cancelled)
  }

  lemma CannotDraft(s: Record, input: DraftInput, supported: bool, clock: Instant, now: Instant)
    requires QuotesOk(s) && Stuck(s, now)
    ensures CreateDraft(s, input, supported, clock).Refused?
  {
    assert HasQuote(s.quotes, Draft);
    hide QuotesOk;
  }

  lemma CannotSend(s: Record, id: nat, clock: Instant, now: Instant)
    requires QuotesOk(s) && Stuck(s, now) && clock >= now
    ensures SendDraft(s, id, clock).Refused?
  {
  }

  lemma ExpireStaysStuck(s: Record, clock: Instant, now: Instant)
    requires QuotesOk(s) && Stuck(s, now)
    ensures ExpireIfNeeded(s, clock).Done? && Stuck(ExpireIfNeeded(s, clock).next, now)
  {
    hide QuoteRowsOk;
  }

  lemma QuoteStepStaysStuck(s: Record, op: Op, now: Instant)
    requires QuotesOk(s) && Stuck(s, now) && QuoteStep(op) && NotBefore(op, now) && Apply(s, op).Done?
    ensures Stuck(Apply(s, op).next, now)
  {
    if op.DoCreateDraft? {
      CannotDraft(s, op.draft, op.receiveSupported, op.now, now);
    } else if op.DoSendDraft? {
      CannotSend(s, op.quoteId, op.now, now);
    } else if op.DoExpire? {
      ExpireStaysStuck(s, op.now, now);
    }
    hide QuotesOk;
  }

  lemma StuckStaysStuck(s: Record, op: Op, now: Instant)
    requires Inv(s) && Stuck(s, now) && Legal(op) && NotBefore(op, now) && Apply(s, op).Done?
    ensures Stuck(Apply(s, op).next, now)
  {
    hide QuotesOk, FundingOk, ResolutionOk;
    if op.DoTransition? {
      TransitionSources(op.from, op.target);
    } else if QuoteStep(op) {
      QuoteStepStaysStuck(s, op, now);
    } else {
      NothingElseApplies(s, op);
    }
  }

  /** Before a quote is accepted only quote steps and `transition` succeed. */
  lemma NothingElseApplies(s: Record, op: Op)
    requires Inv(s) && (AwaitingQuote(s.status) || s.status == Declined || s.status == Cancelled)
    requires !QuoteStep(op) && !op.DoTransition?
    ensures Apply(s, op).Refused?
  {
    hide QuotesOk, FundingOk;
  }

  lemma {:induction false} StuckForever(s: Record, ops: seq<Op>, now: Instant)
    requires Inv(s) && Stuck(s, now) && Schedule(ops, now) && Play(s, ops).Done?
    ensures Stuck(Play(s, ops).next, now)
    decreases |ops|
  {
    hide Inv, Stuck, Apply, Legal;
    if ops != [] {
      StuckStaysStuck(s, ops[0], now);
      StepKeeps(s, ops[0]);
      StuckForever(Apply(s, ops[0]).next, ops[1..], now);
    }
  }

  /** Some schedule from `now` on puts a quote in front of the sender. */
  ghost predicate CanBeQuoted(s: Record, now: Instant) {
    exists ops :: Schedule(ops, now) && Play(s, ops).Done? && Play(s, ops).next.status == Quoted
  }

  function FreshDraft(s: Record, now: Instant): Op {
    DoCreateDraft(DraftInput(s.requested, 0, Money(1, s.requested.currency), now + 1, 5), true, now)
  }

  lemma QuotingCanBeQuoted(s: Record, now: Instant) returns (ops: seq<Op>)
    requires QuotesOk(s) && s.status == Quoting && !DraftExpired(s, now) && s.requested.minor <= MAX_BIGINT
    ensures Schedule(ops, now) && Play(s, ops).Done? && Play(s, ops).next.status == Quoted
  {
    if HasQuote(s.quotes, Draft) {
      ops := SendLast(s, now);
    } else {
      var create := FreshDraft(s, now);
      CreateDraftKeepsQuotes(s, create.draft, true, now);
      var send := SendLast(Apply(s, create).next, now);
      PlayCons(s, create, send);
      ops := [create] + send;
    }
  }

  lemma SendLast(s: Record, now: Instant) returns (ops: seq<Op>)
    requires s.quotes != [] && s.quotes[|s.quotes| - 1].status == Draft && s.quotes[|s.quotes| - 1].expiresAt > now
    requires s.status == Quoting
    ensures Schedule(ops, now) && Play(s, ops).Done? && Play(s, ops).next.status == Quoted
  {
    var send := DoSendDraft(|s.quotes| - 1, now);
    PlayCons(s, send, []);
    ops := [send] + [];
  }

  /** A transfer waiting for its quote can still get one if and only if it holds no draft that has expired. */
  lemma QuotableIffNoExpiredDraft(s: Record, now: Instant)
    requires Inv(s) && AwaitingQuote(s.status) && s.requested.minor <= MAX_BIGINT
    ensures CanBeQuoted(s, now) <==> !DraftExpired(s, now)
  {
    if DraftExpired(s, now) {
      forall ops | Schedule(ops, now) && Play(s, ops).Done?
        ensures Play(s, ops).next.status != Quoted
      {
        StuckForever(s, ops, now);
      }
    } else if s.status == Quoting {
      var ops := QuotingCanBeQuoted(s, now);
    } else {
      var start := DoTransition(s.status, Quoting);
      TransitionKeepsQuotes(s, Quoting);
      var rest := QuotingCanBeQuoted(Apply(s, start).next, now);
      PlayCons(s, start, rest);
      assert Schedule([start] + rest, now);
    }
  }

  // ----- Going back to quoting leaves the sent quote behind -----

  /** Of the ways `transition` leaves QUOTED, cancelling closes the sent quote and quoting again does not; it cannot be decided on meanwhile. */
  lemma SentStaysIffQuotedAgain(s: Record, target: TransferStatus)
    requires Inv(s) && s.status == Quoted && Allowed(Quoted, target) && target in TRANSITION_TARGETS
    ensures var next := Apply(s, DoTransition(Quoted, target)).next;
      && (HasQuote(next.quotes, Sent) <==> target == Quoting)
      && forall id, accept, now :: Decide(next, id, accept, now).Refused?
  {
    TransitionSources(Quoted, target);
    if target == Quoting {
      assert HasQuote(s.quotes, Sent);
    }
    hide QuotesOk, FundingOk, ResolutionOk;
  }

  /** So a transfer can be declined, for good, while a quote of it still counts as sent. */
  lemma DeclinedWithSentQuote(s: Record) returns (ops: seq<Op>)
    requires Inv(s) && s.status == Quoted
    ensures |ops| == 2 && forall k | 0 <= k < |ops| :: Legal(ops[k])
    ensures Play(s, ops).Done? && Play(s, ops).next.status == Declined && HasQuote(Play(s, ops).next.quotes, Sent)
  {
    var again, decline := DoTransition(Quoted, Quoting), DoTransition(Quoting, Declined);
    PlayCons(Apply(s, again).next, decline, []);
    PlayCons(s, again, [decline] + []);
    ops := [again] + ([decline] + []);
  }

  // ----- A cancelled transfer can leave its payout case open -----

  /** Cancelling closes everything the transfer has under way if and only if it was not on hold. */
  lemma CancelLeavesCaseIffHeld(s: Record, from: TransferStatus)
    requires Inv(s) && Allowed(from, Cancelled) && Transition(s, from, Cancelled).Done?
    ensures var next := Transition(s, from, Cancelled).next;
      CaseIs(next, CaseOnHold) <==> from == OnHold
    ensures var next := Transition(s, from, Cancelled).next;
      OneVerified(next.proofs) <==> from == OnHold
  {
    hide QuotesOk;
    var next := Transition(s, from, Cancelled).next;
    assert next.proofs == s.proofs && next.payoutCase == s.payoutCase;
    TransitionSources(from, Cancelled);
    if from == OnHold {
      assert Funded(s);
    } else if from == FundingPending {
      assert AwaitingProof(s);
      assert forall id :: !SoleVerified(s.proofs, id);
    } else {
      assert NotFunded(s);
    }
  }

  /** And such a transfer stays as it is: nothing can refund it, pay it out or close its case. */
  lemma CancelledWhileHeldIsFinal(s: Record, op: Op)
    requires Inv(s) && Legal(op) && s.status == Cancelled && CaseIs(s, CaseOnHold)
    ensures Apply(s, op).Done? ==>
      var next := Apply(s, op).next; next.status == Cancelled && next.payoutCase == s.payoutCase && next.refund.None?
  {
    hide QuotesOk, FundingOk;
    if op.DoTransition? {
      TransitionSources(op.from, op.target);
    }
  }

  lemma HoldThenCancel(s: Record) returns (ops: seq<Op>)
    requires CaseEditable(s)
    ensures |ops| == 2 && (forall k | 0 <= k < |ops| :: Legal(ops[k]) && (ops[k].DoHold? || ops[k].DoTransition?))
    ensures Play(s, ops).Done? && Play(s, ops).next.status == Cancelled && CaseIs(Play(s, ops).next, CaseOnHold)
  {
    var cancel := DoTransition(OnHold, Cancelled);
    PlayCons(Apply(s, DoHold).next, cancel, []);
    PlayCons(s, DoHold, [cancel] + []);
    ops := [DoHold] + ([cancel] + []);
  }

  /** It can happen to every transfer whose funds have been confirmed: start the payout, hold it, cancel. */
  lemma HeldCancellationHappens(s: Record, now: Instant) returns (ops: seq<Op>)
    requires Inv(s) && s.status == FundsConfirmed
    ensures Schedule(ops, now) && Play(s, ops).Done?
    ensures Play(s, ops).next.status == Cancelled && CaseIs(Play(s, ops).next, CaseOnHold)
  {
    hide FundingOk;
    var start := DoCreateCase(CaseInput(None, now + 1, None), true, true, now);
    var rest := HoldThenCancel(Apply(s, start).next);
    PlayCons(s, start, rest);
    ops := [start] + rest;
  }
}
