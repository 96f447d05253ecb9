/**
 Runs from the creation of a transfer that reach the states the traps are about: an expired draft, a refusal with the
 quote still sent, confirmed funds, a release, a cancellation on hold. They work for every transfer whose amount creation accepts.
 */
module TransferWitnesses {
  import opened Common
  import opened TransferState
  import opened TransferRecords
  import opened TransferSteps
  import opened TransferInvariant
  import opened TransferRuns
  import opened TransferTheorems
  import opened TransferTraps

  /** A run of `requested` whose last state is `record`, with no `transition` between its two halves. */
  ghost predicate Reaches(worlds: seq<World>, events: seq<Event>, requested: Money, record: Record) {
    && IsRun(worlds, events) && worlds[0].record.requested == requested
    && worlds[|events|] == World(record, map[])
  }

  lemma Extended(worlds: seq<World>, events: seq<Event>, e: Event) returns (more: seq<World>)
    requires IsRun(worlds, events) && LegalEvent(e)
    ensures IsRun(more, events + [e]) && |more| == |events| + 2 && more[0] == worlds[0] && worlds == more[..|events| + 1]
    ensures more[|events| + 1] == Next(worlds[|events|], e)
  {
    hide Next;
    more := worlds + [Next(worlds[|events|], e)];
  }

  lemma Took(worlds: seq<World>, events: seq<Event>, requested: Money, s: Record, op: Op)
    returns (more: seq<World>, moreEvents: seq<Event>)
    requires Reaches(worlds, events, requested, s) && !op.DoTransition? && Apply(s, op).Done?
    ensures Reaches(more, moreEvents, requested, Apply(s, op).next)
    ensures moreEvents == events + [Transact(op)]
  {
    hide IsRun, Apply;
    more := Extended(worlds, events, Transact(op));
    moreEvents := events + [Transact(op)];
  }

  /** Both halves of `transition` with nothing in between. */
  lemma Moved(worlds: seq<World>, events: seq<Event>, requested: Money, s: Record, target: TransferStatus)
    returns (more: seq<World>, moreEvents: seq<Event>)
    requires Reaches(worlds, events, requested, s) && Allowed(s.status, target) && target in TRANSITION_TARGETS
    ensures Reaches(more, moreEvents, requested, Transition(s, s.status, target).next)
  {
    hide IsRun;
    var read := Extended(worlds, events, ReadStatus(0, target));
    more := Extended(read, events + [ReadStatus(0, target)], CommitTransition(0));
    moreEvents := events + [ReadStatus(0, target)] + [CommitTransition(0)];
    assert map[0 := Ticket(s.status, target)] - {0} == map[];
  }

  lemma QuotingHappens(requested: Money) returns (worlds: seq<World>, events: seq<Event>)
    ensures Reaches(worlds, events, requested, NewRecord(requested).(status := Quoting))
  {
    worlds, events := [World(NewRecord(requested), map[])], [];
    worlds, events := Moved(worlds, events, requested, NewRecord(requested), Quoting);
  }

  /** A transfer being quoted, with a draft that is valid for five minutes from time 0. */
  lemma DraftHappens(requested: Money) returns (worlds: seq<World>, events: seq<Event>, s: Record)
    requires requested.minor <= MAX_BIGINT
    ensures Reaches(worlds, events, requested, s)
    ensures s.status == Quoting && |s.quotes| == 1 && s.quotes[0].status == Draft && s.quotes[0].expiresAt == 5 * MINUTE
  {
    worlds, events := QuotingHappens(requested);
    s := NewRecord(requested).(status := Quoting);
    var create := FreshDraft(s, 0);
    worlds, events := Took(worlds, events, requested, s, create);
    s := Apply(s, create).next;
  }

  /** So the expired draft is reached: nothing has to go wrong but the clock. From there the transfer can never be quoted. */
  lemma ExpiredDraftHappens(requested: Money) returns (worlds: seq<World>, events: seq<Event>)
    requires requested.minor <= MAX_BIGINT
    ensures IsRun(worlds, events) && worlds[0].record == NewRecord(requested)
    ensures var s := worlds[|events|].record;
            AwaitingQuote(s.status) && DraftExpired(s, 5 * MINUTE) && !CanBeQuoted(s, 5 * MINUTE)
  {
    var s;
    worlds, events, s := DraftHappens(requested);
    RunKeeps(worlds, events, |events|);
    RequestedNeverChanges(worlds, events, |events|);
    hide Inv, IsRun, CanBeQuoted;
    QuotableIffNoExpiredDraft(s, 5 * MINUTE);
  }

  lemma QuotedHappens(requested: Money) returns (worlds: seq<World>, events: seq<Event>, s: Record)
    requires requested.minor <= MAX_BIGINT
    ensures Reaches(worlds, events, requested, s)
    ensures s.status == Quoted && |s.quotes| == 1 && s.quotes[0].status == Sent && s.quotes[0].expiresAt == 5 * MINUTE
  {
    worlds, events, s := DraftHappens(requested);
    worlds, events := Took(worlds, events, requested, s, DoSendDraft(0, 0));
    s := SendDraft(s, 0, 0).next;
  }

  /** Quoted, quoted again, declined: the transfer has ended, and its quote still counts as sent. */
  lemma DeclinedWithSentQuoteIsReached(requested: Money) returns (worlds: seq<World>, events: seq<Event>)
    requires requested.minor <= MAX_BIGINT
    ensures IsRun(worlds, events) && worlds[0].record == NewRecord(requested)
    ensures var s := worlds[|events|].record; s.status == Declined && HasQuote(s.quotes, Sent)
  {
    var s;
    worlds, events, s := QuotedHappens(requested);
    worlds, events := Moved(worlds, events, requested, s, Quoting);
    s := s.(status := Quoting);
    worlds, events := Moved(worlds, events, requested, s, Declined);
    HeadOfRun(worlds, events);
  }

  lemma AcceptedHappens(requested: Money) returns (worlds: seq<World>, events: seq<Event>, s: Record)
    requires requested.minor <= MAX_BIGINT
    ensures Reaches(worlds, events, requested, s) && s.status == QuoteAccepted
  {
    worlds, events, s := QuotedHappens(requested);
    worlds, events := Took(worlds, events, requested, s, DoDecide(0, true, 0));
    s := Decide(s, 0, true, 0).next;
  }

  lemma FundingSubmittedHappens(requested: Money) returns (worlds: seq<World>, events: seq<Event>, s: Record)
    requires requested.minor <= MAX_BIGINT
    ensures Reaches(worlds, events, requested, s)
    ensures s.status == FundingSubmitted && 0 in s.proofs && s.proofs[0].status == Submitted
  {
    worlds, events, s := AcceptedHappens(requested);
    RunKeeps(worlds, events, |events|);
    assert QuotesOk(s) && NotFunded(s);
    hide IsRun;
    var publish := DoPublish(Some(Template(true, s.quotes[s.acceptedQuote.value].send.currency)), None, 0);
    worlds, events := Took(worlds, events, requested, s, publish);
    s := Apply(s, publish).next;
    var submit := DoSubmitProof(0, ProofInput(None, None), 0);
    worlds, events := Took(worlds, events, requested, s, submit);
    s := Apply(s, submit).next;
  }

  lemma FundsConfirmedHappens(requested: Money) returns (worlds: seq<World>, events: seq<Event>, s: Record)
    requires requested.minor <= MAX_BIGINT
    ensures Reaches(worlds, events, requested, s) && s.status == FundsConfirmed
  {
    worlds, events, s := FundingSubmittedHappens(requested);
    worlds, events := Took(worlds, events, requested, s, DoReviewProof(0, Verify, 0));
    s := ReviewProof(s, 0, Verify, 0).next;
    worlds, events := Took(worlds, events, requested, s, DoConfirmFunds(0));
    s := ConfirmFunds(s, 0).next;
  }

  lemma PayoutHappens(requested: Money) returns (worlds: seq<World>, events: seq<Event>, s: Record)
    requires requested.minor <= MAX_BIGINT
    ensures Reaches(worlds, events, requested, s) && s.status == PayoutInProgress && CaseIs(s, CaseInProgress)
  {
    worlds, events, s := FundsConfirmedHappens(requested);
    RunKeeps(worlds, events, |events|);
    assert QuotesOk(s) && Untouched(s);
    hide IsRun, FundingOk;
    var start := DoCreateCase(CaseInput(None, 1, None), true, true, 0);
    worlds, events := Took(worlds, events, requested, s, start);
    s := Apply(s, start).next;
  }

  /** A held payout. */
  lemma HoldHappens(requested: Money) returns (worlds: seq<World>, events: seq<Event>, s: Record)
    requires requested.minor <= MAX_BIGINT
    ensures Reaches(worlds, events, requested, s) && s.status == OnHold && CaseIs(s, CaseOnHold)
  {
    worlds, events, s := PayoutHappens(requested);
    hide IsRun;
    worlds, events := Took(worlds, events, requested, s, DoHold);
    s := PlaceHold(s).next;
  }

  /** A release succeeds and takes the edge that the table does not have. */
  lemma ReleaseHappens(requested: Money) returns (worlds: seq<World>, events: seq<Event>)
    requires requested.minor <= MAX_BIGINT
    ensures IsRun(worlds, events) && worlds[0].record == NewRecord(requested) && |events| > 0
    ensures var n := |events|;
            && events[n - 1] == Transact(DoRelease)
            && worlds[n - 1].record.status == OnHold && worlds[n].record.status == PayoutInProgress
            && !Allowed(OnHold, PayoutInProgress)
  {
    var s;
    worlds, events, s := HoldHappens(requested);
    var more := Extended(worlds, events, Transact(DoRelease));
    assert more[|events|] == worlds[|events|];
    worlds, events := more, events + [Transact(DoRelease)];
  }

  /** And a held transfer is cancelled with its funds confirmed and its case open. */
  lemma HeldCancellationIsReached(requested: Money) returns (worlds: seq<World>, events: seq<Event>)
    requires requested.minor <= MAX_BIGINT
    ensures IsRun(worlds, events) && worlds[0].record == NewRecord(requested)
    ensures var s := worlds[|events|].record;
            s.status == Cancelled && CaseIs(s, CaseOnHold) && OneVerified(s.proofs) && s.refund.None?
  {
    var s;
    worlds, events, s := HoldHappens(requested);
    RunKeeps(worlds, events, |events|);
    assert Funded(s) && s.refund.None?;
    hide Inv, IsRun;
    worlds, events := Moved(worlds, events, requested, s, Cancelled);
    HeadOfRun(worlds, events);
  }

  lemma HeadOfRun(worlds: seq<World>, events: seq<Event>)
    requires IsRun(worlds, events)
    ensures worlds[0].record == NewRecord(worlds[0].record.requested)
  {
  }
}
