/** Which way a transfer can move: edges, phases, and that it can always be brought to an end. */
module TransferProgress {
  import opened Common
  import opened TransferState
  import opened TransferRecords
  import opened TransferSteps
  import opened TransferInvariant
  import opened TransferProofs
  import opened TransferRuns

  // ----- Edges of the table -----

  predicate OnTable(from: TransferStatus, to: TransferStatus) {
    to == from || Allowed(from, to)
  }

  /** A successful step moves along a table edge, or leaves the status alone, exactly when it is not a release. */
  lemma OnTableIffNotRelease(s: Record, op: Op)
    requires Legal(op) && Apply(s, op).Done?
    ensures OnTable(s.status, Apply(s, op).next.status) <==> !op.DoRelease?
    ensures op.DoRelease? ==> s.status == OnHold && Apply(s, op).next.status == PayoutInProgress
  {
  }

  /** In every interleaving, including checks made on a status that has since changed. */
  lemma EveryChangeIsAnEdge(worlds: seq<World>, events: seq<Event>, i: nat)
    requires IsRun(worlds, events) && i < |events|
    ensures var from, to := worlds[i].record.status, worlds[i + 1].record.status;
      OnTable(from, to) || (events[i] == Transact(DoRelease) && from == OnHold && to == PayoutInProgress)
  {
    RunKeeps(worlds, events, i);
    EffectIsLegal(worlds[i], events[i]);
    var effect := Effect(worlds[i], events[i]);
    if effect.Some? && Apply(worlds[i].record, effect.value).Done? {
      OnTableIffNotRelease(worlds[i].record, effect.value);
    }
  }

  lemma {:induction false} TerminalForever(worlds: seq<World>, events: seq<Event>, i: nat, j: nat)
    requires IsRun(worlds, events) && i <= j < |worlds| && Terminal(worlds[i].record.status)
    ensures worlds[j].record.status == worlds[i].record.status
  {
    if i < j {
      TerminalForever(worlds, events, i, j - 1);
      EveryChangeIsAnEdge(worlds, events, j - 1);
      TerminalIffAbsorbing(worlds[i].record.status);
    }
  }

  // ----- Phases -----

  function PhaseOf(status: TransferStatus): nat {
    match status
    case Requested => 0 case NeedsInfo => 0 case Quoting => 0 case Quoted => 0
    case QuoteAccepted => 1
    case FundingPending => 2 case FundingSubmitted => 2
    case FundsConfirmed => 3
    case PayoutInProgress => 4 case OnHold => 4
    case PayoutReported => 5 case ConfirmationPending => 5
    case Disputed => 5
    case RefundPending => 6
    case _ => 7
  }

  /** Unquoted, accepted, funding, funds confirmed, paying out, reported, refunding, over. A disputed transfer stands where it was disputed. */
  function Phase(s: Record): nat {
    if s.status == Disputed && s.disputes != [] then PhaseOf(s.disputes[|s.disputes| - 1].previous) else PhaseOf(s.status)
  }

  lemma StepNeverLowersPhase(s: Record, op: Op)
    requires Inv(s) && Legal(op) && Apply(s, op).Done?
    ensures Phase(s) <= Phase(Apply(s, op).next)
  {
    if DisputeStep(op) {
      DisputeStepNeverLowersPhase(s, op);
    } else {
      OrdinaryStepNeverLowersPhase(s, op);
    }
  }

  lemma OrdinaryStepNeverLowersPhase(s: Record, op: Op)
    requires Legal(op) && !DisputeStep(op) && Apply(s, op).Done?
    ensures Phase(s) <= Phase(Apply(s, op).next)
  {
    if op.DoTransition? {
      TransitionSources(op.from, op.target);
    }
  }

  lemma DisputeStepNeverLowersPhase(s: Record, op: Op)
    requires ResolutionOk(s) && DisputeStep(op) && Apply(s, op).Done?
    ensures Phase(s) <= Phase(Apply(s, op).next)
  {
    if op.DoOpenDispute? {
      hide ResolutionOk;
    } else {
      DisputeWorkNeverLowersPhase(s, op);
    }
  }

  lemma DisputeWorkNeverLowersPhase(s: Record, op: Op)
    requires ResolutionOk(s) && (op.DoTakeDispute? || op.DoResolveDispute?) && Apply(s, op).Done?
    ensures Phase(s) <= Phase(Apply(s, op).next)
  {
    ActiveIsLast(s, op.disputeId);
    hide ResolutionOk;
  }

  lemma ActiveIsLast(s: Record, id: nat)
    requires ResolutionOk(s) && id < |s.disputes| && ActiveDispute(s.disputes[id])
    ensures s.status == Disputed && id == |s.disputes| - 1
  {
  }

  /** Progress is never undone: confirmed funds stay confirmed, a started payout stays started. */
  lemma {:induction false} ProgressIsNeverUndone(worlds: seq<World>, events: seq<Event>, i: nat, j: nat)
    requires IsRun(worlds, events) && i <= j < |worlds|
    ensures Phase(worlds[i].record) <= Phase(worlds[j].record)
  {
    hide Inv, Apply, Legal, Phase;
    if i < j {
      ProgressIsNeverUndone(worlds, events, i, j - 1);
      RunKeeps(worlds, events, j - 1);
      var w, e := worlds[j - 1], events[j - 1];
      EffectIsLegal(w, e);
      if Effect(w, e).Some? && Apply(w.record, Effect(w, e).value).Done? {
        StepNeverLowersPhase(w.record, Effect(w, e).value);
      }
    }
  }

  /** The phase that a decisive step reaches; other steps reach none. */
  function Milestone(op: Op): nat {
    match op
    case DoDecide(_, accept, _) => if accept then 1 else 0
    case DoPublish(_, _, _) => 2
    case DoConfirmFunds(_) => 3
    case DoCreateCase(_, _, _, _) => 4
    case DoReportPayout(_, _, _) => 5
    case DoStartRefund(_) => 6
    case DoResolveDispute(_, action, _, _) => if action == RefundSender then 6 else 0
    case DoConfirmRefund(_, _) => 7
    case _ => 0
  }

  lemma MilestoneCrossed(s: Record, op: Op)
    requires ResolutionOk(s) && Apply(s, op).Done? && Milestone(op) > 0
    ensures Phase(s) < Milestone(op) <= Phase(Apply(s, op).next)
  {
    if op.DoResolveDispute? {
      RefundDecided(s, op.disputeId, op.staff, op.now);
    } else {
      ServiceMilestoneCrossed(s, op);
    }
  }

  lemma ServiceMilestoneCrossed(s: Record, op: Op)
    requires Apply(s, op).Done? && Milestone(op) > 0 && !op.DoResolveDispute?
    ensures Phase(s) < Milestone(op) <= Phase(Apply(s, op).next)
  {
  }

  /** A dispute's resolution starts a refund from a phase before it. */
  lemma RefundDecided(s: Record, id: nat, staff: nat, now: Instant)
    requires ResolutionOk(s) && ResolveDispute(s, id, RefundSender, staff, now).Done?
    ensures Phase(s) < 6 && ResolveDispute(s, id, RefundSender, staff, now).next.status == RefundPending
  {
    ActiveIsLast(s, id);
  }

  /**
   A quote is accepted, an instruction published, funds confirmed, a case opened, a payout reported, a refund
   started (by itself or by a dispute's resolution) and a refund paid at most once each in the life of a transfer.
   */
  lemma MilestonesHappenOnce(worlds: seq<World>, events: seq<Event>, i: nat, j: nat, a: Op, b: Op)
    requires IsRun(worlds, events) && i < j < |events|
    requires Effect(worlds[i], events[i]) == Some(a) && Apply(worlds[i].record, a).Done?
    requires Effect(worlds[j], events[j]) == Some(b) && Milestone(b) == Milestone(a) > 0
    ensures Apply(worlds[j].record, b).Refused?
  {
    hide QuotesOk, FundingOk, ResolutionOk, Phase, Milestone, Legal;
    RunKeeps(worlds, events, i);
    RunKeeps(worlds, events, j);
    EffectIsLegal(worlds[i], events[i]);
    MilestoneCrossed(worlds[i].record, a);
    ProgressIsNeverUndone(worlds, events, i + 1, j);
    hide Apply;
    if Apply(worlds[j].record, b).Done? {
      MilestoneCrossed(worlds[j].record, b);
    }
  }

  // ----- No dead ends -----

  /** The steps run one after the other with nothing in between; each must succeed. */
  function Play(s: Record, ops: seq<Op>): Outcome
    decreases |ops|
  {
    if ops == [] then Done(s)
    else
      var first := Apply(s, ops[0]);
      if first.Done? then Play(first.next, ops[1..]) else first
  }

  /** The steps can be taken one after the other, and the last one ends the transfer. */
  predicate Ends(s: Record, ops: seq<Op>) {
    && |ops| <= 3
    && (forall k | 0 <= k < |ops| :: Legal(ops[k]))
    && Play(s, ops).Done? && Terminal(Play(s, ops).next.status)
  }

  lemma PlayCons(s: Record, op: Op, ops: seq<Op>)
    ensures Play(s, [op] + ops) == if Apply(s, op).Done? then Play(Apply(s, op).next, ops) else Apply(s, op)
  {
    assert ([op] + ops)[1..] == ops;
  }

  lemma EndsInOne(s: Record, op: Op)
    requires Legal(op) && Apply(s, op).Done? && Terminal(Apply(s, op).next.status)
    ensures Ends(s, [op])
  {
    PlayCons(s, op, []);
    assert [op] + [] == [op];
  }

  lemma EndsOneLater(s: Record, op: Op, ops: seq<Op>)
    requires Legal(op) && Apply(s, op).Done? && Ends(Apply(s, op).next, ops) && |ops| < 3
    ensures Ends(s, [op] + ops)
  {
    PlayCons(s, op, ops);
  }

  /** The clock is at most the five minutes of tolerance behind the start of a refund in progress. */
  predicate ClockReady(s: Record, now: Instant) {
    s.refund.Some? ==> s.refund.value.initiatedAt <= now + 5 * MINUTE
  }

  /** Confirmed funds can be refunded at once. */
  lemma RefundEnds(s: Record, now: Instant) returns (ops: seq<Op>)
    requires s.status == FundsConfirmed && s.refund.None? && AcceptedQuote(s).Some?
    ensures |ops| == 2 && Ends(s, ops)
  {
    EndsInOne(Apply(s, DoStartRefund(now)).next, DoConfirmRefund(now, now));
    EndsOneLater(s, DoStartRefund(now), [DoConfirmRefund(now, now)]);
    ops := [DoStartRefund(now)] + [DoConfirmRefund(now, now)];
  }

  /** A proof under review is sent back and the transfer cancelled; a verified one is confirmed and refunded. */
  lemma ReviewEnds(s: Record, now: Instant) returns (ops: seq<Op>)
    requires QuotesOk(s) && s.refund.None? && s.status == FundingSubmitted && UnderReview(s)
    ensures Ends(s, ops)
  {
    var id :| SolePresented(s.proofs, id);
    if s.proofs[id].status == Submitted {
      EndsInOne(Apply(s, DoReviewProof(id, RejectProof, now)).next, DoTransition(FundingPending, Cancelled));
      EndsOneLater(s, DoReviewProof(id, RejectProof, now), [DoTransition(FundingPending, Cancelled)]);
      ops := [DoReviewProof(id, RejectProof, now)] + [DoTransition(FundingPending, Cancelled)];
    } else {
      var refund := RefundEnds(Apply(s, DoConfirmFunds(id)).next, now);
      EndsOneLater(s, DoConfirmFunds(id), refund);
      ops := [DoConfirmFunds(id)] + refund;
    }
  }

  predicate Cancellable(status: TransferStatus) {
    Allowed(status, Cancelled)
  }

  lemma CancelEnds(s: Record)
    requires Cancellable(s.status)
    ensures Ends(s, [DoTransition(s.status, Cancelled)])
  {
    EndsInOne(s, DoTransition(s.status, Cancelled));
  }

  lemma PayoutEnds(s: Record, now: Instant) returns (ops: seq<Op>)
    requires ResolutionOk(s) && ClockReady(s, now)
    requires s.status in {PayoutInProgress, PayoutReported, ConfirmationPending, Disputed, RefundPending}
    ensures Ends(s, ops)
  {
    if s.status == PayoutInProgress {
      CancelEnds(Apply(s, DoHold).next);
      EndsOneLater(s, DoHold, [DoTransition(OnHold, Cancelled)]);
      ops := [DoHold] + [DoTransition(OnHold, Cancelled)];
    } else {
      var op :=
        if s.status == Disputed then DoResolveDispute(|s.disputes| - 1, Fail, 0, now)
        else if s.status == RefundPending then DoConfirmRefund(s.refund.value.initiatedAt, now)
        else DoCompleteByAdmin;
      EndsInOne(s, op);
      ops := [op];
    }
  }

  /** A way out of every state, for an administrator and the sender together at time `now`. */
  lemma WayOut(s: Record, now: Instant) returns (ops: seq<Op>)
    requires Inv(s) && ClockReady(s, now)
    ensures Ends(s, ops)
  {
    if Terminal(s.status) {
      ops := [];
    } else if Cancellable(s.status) {
      CancelEnds(s);
      ops := [DoTransition(s.status, Cancelled)];
    } else if s.status == FundingSubmitted {
      ops := ReviewEnds(s, now);
    } else if s.status == FundsConfirmed {
      ops := RefundEnds(s, now);
    } else {
      ops := PayoutEnds(s, now);
    }
  }

  /** No dead ends: from every reachable state three successful steps or fewer end the transfer. */
  lemma NoDeadEnds(worlds: seq<World>, events: seq<Event>, i: nat, now: Instant)
    requires IsRun(worlds, events) && i < |worlds| && ClockReady(worlds[i].record, now)
    ensures exists ops :: Ends(worlds[i].record, ops)
  {
    RunKeeps(worlds, events, i);
    var ops := WayOut(worlds[i].record, now);
  }

  /** From a verified proof the only step that changes the status is the confirmation. */
  lemma VerifiedStep(s: Record, op: Op)
    requires UnderReview(s) && s.status == FundingSubmitted && OneVerified(s.proofs)
    requires Legal(op) && Apply(s, op).Done?
    ensures Apply(s, op).next.status == FundingSubmitted || Apply(s, op).next.status == FundsConfirmed
  {
    var id :| SoleVerified(s.proofs, id);
    assert Presented(s.proofs[id]);
    var sole :| SolePresented(s.proofs, sole);
    assert sole == id;
    if op.DoTransition? {
      TransitionSources(op.from, op.target);
    }
  }

  /** Three is needed: once a proof is verified, no two steps end the transfer. */
  lemma VerifiedNeedsThree(s: Record, first: Op, second: Op)
    requires Inv(s) && s.status == FundingSubmitted && OneVerified(s.proofs)
    requires Legal(first) && Legal(second) && Apply(s, first).Done? && Apply(Apply(s, first).next, second).Done?
    ensures !Terminal(Apply(Apply(s, first).next, second).next.status)
  {
    hide QuotesOk, ResolutionOk, OneVerified;
    var s1 := Apply(s, first).next;
    assert UnderReview(s);
    VerifiedStep(s, first);
    if s1.status == FundingSubmitted {
      VerifiedStays(s, first);
      VerifiedStep(s1, second);
    } else {
      ConfirmedStep(s1, second);
    }
  }

  lemma ConfirmedStep(s: Record, op: Op)
    requires s.status == FundsConfirmed && Legal(op) && Apply(s, op).Done?
    ensures !Terminal(Apply(s, op).next.status)
  {
    OnTableIffNotRelease(s, op);
  }

  lemma VerifiedStays(s: Record, op: Op)
    requires Inv(s) && s.status == FundingSubmitted && OneVerified(s.proofs)
    requires Legal(op) && Apply(s, op).Done? && Apply(s, op).next.status == FundingSubmitted
    ensures UnderReview(Apply(s, op).next) && OneVerified(Apply(s, op).next.proofs)
  {
    hide QuotesOk, ResolutionOk;
    StepKeeps(s, op);
    assert UnderReview(s);
    ProofsStay(s, op);
  }

  lemma ProofsStay(s: Record, op: Op)
    requires UnderReview(s) && OneVerified(s.proofs) && s.status == FundingSubmitted && Apply(s, op).Done?
    ensures Apply(s, op).next.proofs == s.proofs
  {
    var id :| SoleVerified(s.proofs, id);
    assert Presented(s.proofs[id]);
    var sole :| SolePresented(s.proofs, sole);
    assert sole == id;
  }
}
