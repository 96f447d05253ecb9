/** What holds of transfer creation in every interleaving of requests, retries and status changes. */
module CreationTheorems {
  import opened Common
  import opened TransferState
  import opened TransferCreation

  lemma {:induction false} RunKeeps(worlds: seq<World>, events: seq<Event>, limits: Limits, i: nat)
    requires IsRun(worlds, events, limits) && i < |worlds|
    ensures Inv(worlds[i], limits)
  {
    if i == 0 {
      assert forall sender, from :: WindowOk([], sender, from, limits);
    } else {
      RunKeeps(worlds, events, limits, i - 1);
      assert worlds[i] == Next(worlds[i - 1], events[i - 1], limits);
      hide Next, Inv;
      EventKeeps(worlds[i - 1], events[i - 1], limits);
    }
  }

  /** Transfers are never lost and an entry is never rewritten. */
  lemma {:induction false} NothingIsRewritten(worlds: seq<World>, events: seq<Event>, limits: Limits, i: nat, j: nat)
    requires IsRun(worlds, events, limits) && i <= j < |worlds|
    ensures Grows(worlds[i].store, worlds[j].store)
    decreases j
  {
    if i < j {
      NothingIsRewritten(worlds, events, limits, i, j - 1);
      RunKeeps(worlds, events, limits, j - 1);
      assert worlds[j] == Next(worlds[j - 1], events[j - 1], limits);
      hide Next, Inv, Grows;
      EventKeeps(worlds[j - 1], events[j - 1], limits);
      GrowsTransitive(worlds[i].store, worlds[j - 1].store, worlds[j].store);
    }
  }

  lemma GrowsTransitive(a: Store, b: Store, c: Store)
    requires Grows(a, b) && Grows(b, c)
    ensures Grows(a, c)
  {
    forall i | 0 <= i < |a.transfers| ensures c.transfers[i].(status := a.transfers[i].status) == a.transfers[i] {
      assert b.transfers[i].(status := a.transfers[i].status) == a.transfers[i];
      assert c.transfers[i].(status := b.transfers[i].status) == b.transfers[i];
    }
  }

  /** However many requests carry a key, at the same time or one after another, at most one transfer is made under it. */
  lemma OneTransferPerKey(worlds: seq<World>, events: seq<Event>, limits: Limits, i: nat, a: nat, b: nat)
    requires IsRun(worlds, events, limits) && i < |worlds|
    requires a < |worlds[i].store.transfers| && b < |worlds[i].store.transfers|
    requires var ts := worlds[i].store.transfers;
             ts[a].sender == ts[b].sender && ts[a].key == ts[b].key && ts[a].key.Some?
    ensures a == b
  {
    RunKeeps(worlds, events, limits, i);
    hide QuotasOk;
    assert KeysOk(worlds[i].store);
  }

  /** All successes under one key, whenever they were answered, name the same transfer and came from the same fields. */
  lemma SuccessesAgree(worlds: seq<World>, events: seq<Event>, limits: Limits, i: nat, j: nat, a: nat, b: nat)
    requires IsRun(worlds, events, limits) && i <= j < |worlds|
    requires a in worlds[i].requests && worlds[i].requests[a].Answered? && worlds[i].requests[a].answer.Success?
    requires b in worlds[j].requests && worlds[j].requests[b].Answered? && worlds[j].requests[b].answer.Success?
    requires worlds[i].requests[a].submission.key.Some?
    requires worlds[i].requests[a].submission.sender == worlds[j].requests[b].submission.sender
    requires worlds[i].requests[a].submission.key == worlds[j].requests[b].submission.key
    ensures worlds[i].requests[a].answer.transfer == worlds[j].requests[b].answer.transfer
    ensures worlds[i].requests[a].submission.fingerprint == worlds[j].requests[b].submission.fingerprint
  {
    RunKeeps(worlds, events, limits, i);
    RunKeeps(worlds, events, limits, j);
    NothingIsRewritten(worlds, events, limits, i, j);
    hide QuotasOk, IsRun;
    assert AnswerOk(worlds[i].store, worlds[i].requests[a]) && AnswerOk(worlds[j].store, worlds[j].requests[b]);
  }

  /** Once a key stands for a transfer, a request with other fields is told so, at its lookup or at its attempt. */
  lemma OtherFieldsAreRefused(w: World, submission: Submission, valid: bool, now: Instant, reference: nat, limits: Limits, request: nat)
    requires submission.key.Some? && (submission.sender, submission.key.value) in w.store.entries
    requires w.store.entries[(submission.sender, submission.key.value)].fingerprint != submission.fingerprint
    ensures request !in w.requests ==>
              Next(w, Arrive(request, submission, valid, now), limits).requests[request] == Answered(submission, KeyReused)
    ensures request in w.requests && w.requests[request].Trying? && w.requests[request].submission == submission ==>
              && Next(w, Try(request, reference), limits).requests[request] == Answered(submission, KeyReused)
              && Next(w, Try(request, reference), limits).store == w.store
  {
  }

  /** No sender ever has more live transfers than the limit, whatever path each of them took. */
  lemma ActiveNeverExceeds(worlds: seq<World>, events: seq<Event>, limits: Limits, i: nat, sender: nat)
    requires IsRun(worlds, events, limits) && i < |worlds|
    ensures ActiveCount(worlds[i].store.transfers, sender) <= limits.active
  {
    RunKeeps(worlds, events, limits, i);
  }

  /**
   No closed interval as long as the window holds more creations than the maximum, although a request's clock
   reading may be older than that of a request committed before it.
   */
  lemma WindowNeverExceeds(worlds: seq<World>, events: seq<Event>, limits: Limits, i: nat, sender: nat, from: Instant, to: Instant)
    requires IsRun(worlds, events, limits) && i < |worlds| && to <= from + limits.window
    ensures CreatedWithin(worlds[i].store.transfers, sender, from, to) <= limits.maximum
  {
    RunKeeps(worlds, events, limits, i);
    assert WindowOk(worlds[i].store.transfers, sender, from, limits);
    ShorterHoldsLess(worlds[i].store.transfers, sender, from, to, from + limits.window);
  }

  lemma {:induction false} ShorterHoldsLess(transfers: seq<Transfer>, sender: nat, from: Instant, to: Instant, later: Instant)
    requires to <= later
    ensures CreatedWithin(transfers, sender, from, to) <= CreatedWithin(transfers, sender, from, later)
  {
    if transfers != [] {
      ShorterHoldsLess(transfers[..|transfers| - 1], sender, from, to, later);
    }
  }

  /** A status change can only free a place: the active count never grows without a creation. */
  lemma OnlyCreationAdds(w: World, e: Event, limits: Limits, sender: nat)
    requires !e.Try?
    ensures ActiveCount(Next(w, e, limits).store.transfers, sender) <= ActiveCount(w.store.transfers, sender)
  {
    if e.Move? && e.transfer < |w.store.transfers| && CanMove(w.store.transfers[e.transfer].status, e.to) {
      MoveCounts(w.store.transfers, e.transfer, e.to, sender, 0, 0);
    }
  }

  // ----- The method -----

  /** createTransfer as it runs: one store, statements in order, up to three attempts. */
  class TransferService {
    const limits: Limits
    var transfers: seq<Transfer>
    var entries: map<(nat, nat), Entry>

    /** Keys stand for transfers one to one, references differ, and both quotas hold for every sender. */
    ghost predicate Valid()
      reads this
    {
      KeysOk(Rows()) && ReferencesOk(Rows()) && QuotasOk(Rows(), limits)
    }

    constructor (limits: Limits)
      ensures Valid() && this.limits == limits && transfers == [] && entries == map[]
    {
      this.limits := limits;
      transfers, entries := [], map[];
      new;
      assert forall sender, from :: WindowOk([], sender, from, limits);
    }

    function Rows(): Store
      reads this
    {
      Store(transfers, entries)
    }

    /** One transaction. */
    method TryOnce(submission: Submission, now: Instant, reference: nat) returns (answer: Option<Answer>)
      requires Valid()
      modifies this
      ensures Valid() && Grows(old(Rows()), Rows())
      ensures (Rows(), answer) == Attempt(old(Rows()), submission, now, reference, limits)
    {
      hide KeysOk, ReferencesOk, QuotasOk, ActiveCount, RecentCount;
      AttemptKeeps(Rows(), submission, now, reference, limits);
      hide Grows;
      if submission.key.Some? && (submission.sender, submission.key.value) in entries {
        var existing := entries[(submission.sender, submission.key.value)];
        if existing.fingerprint != submission.fingerprint {
          return Some(KeyReused);
        }
        return Some(Success(existing.transfer, true));
      }
      var windowStartedAt := now - limits.window;
      var active := ActiveCount(transfers, submission.sender);
      var recent := RecentCount(transfers, submission.sender, windowStartedAt);
      if active >= limits.active {
        return Some(ActiveLimitReached);
      }
      if recent >= limits.maximum {
        return Some(RateLimited);
      }
      if ReferenceTaken(Rows(), reference) {
        return None;
      }
      transfers := transfers + [Transfer(submission.sender, reference, Requested, now, submission.key)];
      if submission.key.Some? {
        entries := entries[(submission.sender, submission.key.value) := Entry(submission.fingerprint, |transfers| - 1)];
      }
      answer := Some(Success(|transfers| - 1, false));
    }

    /**
     The whole call, with the references the factory will produce. It does what the request's events do one
     after the other with nothing in between.
     */
    method CreateTransfer(submission: Submission, valid: bool, now: Instant, references: seq<nat>) returns (answer: Answer)
      requires Valid() && |references| == MAX_ATTEMPTS
      modifies this
      ensures Valid() && Grows(old(Rows()), Rows())
      ensures (Rows(), answer) == Uninterrupted(old(Rows()), submission, valid, now, references, limits)
    {
      assert Grows(Rows(), Rows());
      hide KeysOk, ReferencesOk, QuotasOk, Grows;
      if submission.key.Some? && (submission.sender, submission.key.value) in entries {
        var existing := entries[(submission.sender, submission.key.value)];
        return if existing.fingerprint != submission.fingerprint then KeyReused else Success(existing.transfer, true);
      }
      if !valid {
        return Rejected;
      }
      for attempt := 0 to MAX_ATTEMPTS
        invariant Valid() && Grows(old(Rows()), Rows())
        invariant Attempts(old(Rows()), submission, now, references, limits) ==
                  Attempts(Rows(), submission, now, references[attempt..], limits)
      {
        ghost var before := Rows();
        var settled := TryOnce(submission, now, references[attempt]);
        GrowsTransitive(old(Rows()), before, Rows());
        if settled.Some? {
          return settled.value;
        }
        assert references[attempt..][1..] == references[attempt + 1..];
      }
      answer := ReferenceFailed;
    }
  }

  /** Attempts with these references until one settles. */
  function Attempts(s: Store, submission: Submission, now: Instant, references: seq<nat>, limits: Limits): (Store, Answer) {
    if references == [] then (s, ReferenceFailed)
    else
      var (after, answer) := Attempt(s, submission, now, references[0], limits);
      if answer.Some? then (after, answer.value) else Attempts(after, submission, now, references[1..], limits)
  }

  function Uninterrupted(s: Store, submission: Submission, valid: bool, now: Instant, references: seq<nat>, limits: Limits): (Store, Answer) {
    if LookUp(s, submission).Some? then (s, LookUp(s, submission).value)
    else if !valid then (s, Rejected)
    else Attempts(s, submission, now, references, limits)
  }

  /** Calling again with the same key and fields after a success changes nothing and returns the same transfer. */
  lemma RetryIsReplay(
      s: Store, submission: Submission, valid: bool, now: Instant, references: seq<nat>,
      validLater: bool, later: Instant, more: seq<nat>, limits: Limits)
    requires submission.key.Some?
    requires Uninterrupted(s, submission, valid, now, references, limits).1.Success?
    ensures var (after, answer) := Uninterrupted(s, submission, valid, now, references, limits);
            Uninterrupted(after, submission, validLater, later, more, limits) == (after, Success(answer.transfer, true))
  {
    if LookUp(s, submission).None? {
      SuccessIsRecorded(s, submission, now, references, limits);
    }
  }

  lemma {:induction false} SuccessIsRecorded(s: Store, submission: Submission, now: Instant, references: seq<nat>, limits: Limits)
    requires submission.key.Some? && Attempts(s, submission, now, references, limits).1.Success?
    ensures var (after, answer) := Attempts(s, submission, now, references, limits);
            LookUp(after, submission) == Some(Success(answer.transfer, true))
  {
    var (after, answer) := Attempt(s, submission, now, references[0], limits);
    if answer.None? {
      SuccessIsRecorded(after, submission, now, references[1..], limits);
    }
  }
}
