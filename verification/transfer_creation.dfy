/**
 Creating transfers (transfers/service.ts createTransfer): the submission key that makes a retry safe,
 and the two quotas. A request first looks its key up outside any transaction; if nothing is there it
 makes up to three attempts, each one transaction that looks again, counts, and creates.

 Senders, keys and references are numbers. A fingerprint is a hash of the request's fields, taken as
 injective, so it is those fields themselves. `key` in a transfer row is history: the source keeps it in the separate table `entries`.
 */
module TransferCreation {
  import opened Common
  import opened TransferState

  datatype Transfer = Transfer(sender: nat, reference: nat, status: TransferStatus, createdAt: Instant, key: Option<nat>)

  /** The fields that transferRequestFingerprint hashes, in its order. */
  datatype Fingerprint = Fingerprint(
    recipient: string, originCountry: string, destinationCountry: string, amount: string,
    currency: string, payoutMethod: string, note: Option<string>)

  /** A row of TransferCreationIdempotency. */
  datatype Entry = Entry(fingerprint: Fingerprint, transfer: nat)

  datatype Store = Store(transfers: seq<Transfer>, entries: map<(nat, nat), Entry>)

  datatype Limits = Limits(active: nat, window: nat, maximum: nat)

  /** What a request asks for. */
  datatype Submission = Submission(sender: nat, key: Option<nat>, fingerprint: Fingerprint)

  datatype Answer =
    | Success(transfer: nat, replayed: bool)
    | KeyReused
    | Rejected
    | ActiveLimitReached
    | RateLimited
    | ReferenceFailed

  // ----- Counting -----

  function ActiveCount(transfers: seq<Transfer>, sender: nat): nat {
    if transfers == [] then 0
    else
      var last := transfers[|transfers| - 1];
      ActiveCount(transfers[..|transfers| - 1], sender) + if last.sender == sender && !Terminal(last.status) then 1 else 0
  }

  /** The transfers of a sender created at or after `since`. */
  function RecentCount(transfers: seq<Transfer>, sender: nat, since: Instant): nat {
    if transfers == [] then 0
    else
      var last := transfers[|transfers| - 1];
      RecentCount(transfers[..|transfers| - 1], sender, since) + if last.sender == sender && last.createdAt >= since then 1 else 0
  }

  /** The transfers of a sender created between two instants, both included. */
  function CreatedWithin(transfers: seq<Transfer>, sender: nat, from: Instant, to: Instant): nat {
    if transfers == [] then 0
    else
      var last := transfers[|transfers| - 1];
      CreatedWithin(transfers[..|transfers| - 1], sender, from, to) +
      if last.sender == sender && from <= last.createdAt <= to then 1 else 0
  }

  // ----- The transaction -----

  /** The lookup made before and inside the transaction: what an earlier use of this key says. */
  function LookUp(s: Store, submission: Submission): Option<Answer> {
    if submission.key.None? || (submission.sender, submission.key.value) !in s.entries then None
    else
      var entry := s.entries[(submission.sender, submission.key.value)];
      Some(if entry.fingerprint == submission.fingerprint then Success(entry.transfer, true) else KeyReused)
  }

  predicate ReferenceTaken(s: Store, reference: nat) {
    exists i | 0 <= i < |s.transfers| :: s.transfers[i].reference == reference
  }

  /** The insert of the transfer and of the entry for its key. */
  function Insert(s: Store, submission: Submission, now: Instant, reference: nat): Store {
    Store(
      s.transfers + [Transfer(submission.sender, reference, Requested, now, submission.key)],
      if submission.key.None? then s.entries
      else s.entries[(submission.sender, submission.key.value) := Entry(submission.fingerprint, |s.transfers|)])
  }

  /** One attempt. No answer means the reference was taken, which rolls back and is tried again. */
  function Attempt(s: Store, submission: Submission, now: Instant, reference: nat, limits: Limits): (Store, Option<Answer>) {
    if LookUp(s, submission).Some? then (s, LookUp(s, submission))
    else if ActiveCount(s.transfers, submission.sender) >= limits.active then (s, Some(ActiveLimitReached))
    else if RecentCount(s.transfers, submission.sender, now - limits.window) >= limits.maximum then (s, Some(RateLimited))
    else if ReferenceTaken(s, reference) then (s, None)
    else (Insert(s, submission, now, reference), Some(Success(|s.transfers|, false)))
  }

  const MAX_ATTEMPTS := 3

  // ----- Interleaved runs -----

  /** A request to createTransfer: not yet past its first lookup, between attempts, or answered. */
  datatype Request =
    | Trying(submission: Submission, now: Instant, attempts: nat)
    | Answered(submission: Submission, answer: Answer)

  datatype World = World(store: Store, requests: map<nat, Request>)

  datatype Event =
    | Arrive(request: nat, submission: Submission, valid: bool, now: Instant)
    | Try(request: nat, reference: nat)
    | Move(transfer: nat, to: TransferStatus)

  /** The table's edges and the one move made outside it. */
  predicate CanMove(from: TransferStatus, to: TransferStatus) {
    Allowed(from, to) || (from == OnHold && to == PayoutInProgress)
  }

  function Next(w: World, e: Event, limits: Limits): World {
    match e
    case Arrive(request, submission, valid, now) =>
      if request in w.requests then w
      else
        var found := LookUp(w.store, submission);
        var begun :=
          if found.Some? then Answered(submission, found.value)
          else if !valid then Answered(submission, Rejected)
          else Trying(submission, now, 0);
        w.(requests := w.requests[request := begun])
    case Try(request, reference) =>
      if request !in w.requests || !w.requests[request].Trying? then w
      else
        var r := w.requests[request];
        var (store, answer) := Attempt(w.store, r.submission, r.now, reference, limits);
        var after :=
          if answer.Some? then Answered(r.submission, answer.value)
          else if r.attempts + 1 == MAX_ATTEMPTS then Answered(r.submission, ReferenceFailed)
          else r.(attempts := r.attempts + 1);
        World(store, w.requests[request := after])
    case Move(transfer, to) =>
      if transfer >= |w.store.transfers| || !CanMove(w.store.transfers[transfer].status, to) then w
      else
        w.(store := w.store.(transfers := w.store.transfers[transfer := w.store.transfers[transfer].(status := to)]))
  }

  const EMPTY := World(Store([], map[]), map[])

  ghost predicate IsRun(worlds: seq<World>, events: seq<Event>, limits: Limits) {
    && |worlds| == |events| + 1
    && worlds[0] == EMPTY
    && (forall i | 0 <= i < |events| :: worlds[i + 1] == Next(worlds[i], events[i], limits))
  }

  // ----- The invariant -----

  /** Keys and transfers made under a key correspond one to one. */
  predicate KeysOk(s: Store) {
    && (forall at | at in s.entries ::
          var t := s.entries[at].transfer;
          t < |s.transfers| && s.transfers[t].sender == at.0 && s.transfers[t].key == Some(at.1))
    && (forall t | 0 <= t < |s.transfers| && s.transfers[t].key.Some? ::
          var at := (s.transfers[t].sender, s.transfers[t].key.value);
          at in s.entries && s.entries[at].transfer == t)
  }

  predicate ReferencesOk(s: Store) {
    forall i, j | 0 <= i < j < |s.transfers| :: s.transfers[i].reference != s.transfers[j].reference
  }

  /** A success names the transfer its key stands for, or without a key some transfer of its sender. */
  predicate AnswerOk(s: Store, request: Request) {
    request.Answered? && request.answer.Success? ==>
      && request.answer.transfer < |s.transfers|
      && s.transfers[request.answer.transfer].sender == request.submission.sender
      && (request.submission.key.Some? ==>
            var at := (request.submission.sender, request.submission.key.value);
            at in s.entries && s.entries[at] == Entry(request.submission.fingerprint, request.answer.transfer))
  }

  predicate AnswersOk(w: World) {
    forall request | request in w.requests :: AnswerOk(w.store, w.requests[request])
  }

  predicate WindowOk(transfers: seq<Transfer>, sender: nat, from: Instant, limits: Limits) {
    CreatedWithin(transfers, sender, from, from + limits.window) <= limits.maximum
  }

  ghost predicate QuotasOk(s: Store, limits: Limits) {
    && (forall sender :: ActiveCount(s.transfers, sender) <= limits.active)
    && (forall sender, from :: WindowOk(s.transfers, sender, from, limits))
  }

  ghost predicate Inv(w: World, limits: Limits) {
    KeysOk(w.store) && ReferencesOk(w.store) && AnswersOk(w) && QuotasOk(w.store, limits)
  }

  // ----- Counting lemmas -----

  lemma {:induction false} WithinIsRecent(transfers: seq<Transfer>, sender: nat, since: Instant, from: Instant, to: Instant)
    requires since <= from
    ensures CreatedWithin(transfers, sender, from, to) <= RecentCount(transfers, sender, since)
  {
    if transfers != [] {
      WithinIsRecent(transfers[..|transfers| - 1], sender, since, from, to);
    }
  }

  /** A status change: no count grows unless a terminal transfer comes back to life, which no edge allows. */
  lemma {:induction false} MoveCounts(transfers: seq<Transfer>, t: nat, to: TransferStatus, sender: nat, from: Instant, until: Instant)
    requires t < |transfers| && CanMove(transfers[t].status, to)
    ensures var moved := transfers[t := transfers[t].(status := to)];
            && ActiveCount(moved, sender) <= ActiveCount(transfers, sender)
            && CreatedWithin(moved, sender, from, until) == CreatedWithin(transfers, sender, from, until)
  {
    var n := |transfers| - 1;
    var moved := transfers[t := transfers[t].(status := to)];
    if t == n {
      assert moved[..n] == transfers[..n];
      TerminalIffAbsorbing(transfers[t].status);
    } else {
      assert moved[..n] == transfers[..n][t := transfers[t].(status := to)];
      MoveCounts(transfers[..n], t, to, sender, from, until);
    }
  }

  lemma InsertCounts(s: Store, submission: Submission, now: Instant, reference: nat, sender: nat, from: Instant, to: Instant)
    ensures var after := Insert(s, submission, now, reference).transfers;
            && ActiveCount(after, sender) == ActiveCount(s.transfers, sender) + (if sender == submission.sender then 1 else 0)
            && CreatedWithin(after, sender, from, to) ==
               CreatedWithin(s.transfers, sender, from, to) + (if sender == submission.sender && from <= now <= to then 1 else 0)
  {
    var after := Insert(s, submission, now, reference).transfers;
    assert after[..|after| - 1] == s.transfers;
  }

  // ----- Preservation -----

  lemma InsertKeepsQuotas(s: Store, submission: Submission, now: Instant, reference: nat, limits: Limits)
    requires QuotasOk(s, limits)
    requires ActiveCount(s.transfers, submission.sender) < limits.active
    requires RecentCount(s.transfers, submission.sender, now - limits.window) < limits.maximum
    ensures QuotasOk(Insert(s, submission, now, reference), limits)
  {
    var after := Insert(s, submission, now, reference);
    forall sender, from
      ensures ActiveCount(after.transfers, sender) <= limits.active && WindowOk(after.transfers, sender, from, limits)
    {
      assert WindowOk(s.transfers, sender, from, limits);
      InsertCounts(s, submission, now, reference, sender, from, from + limits.window);
      if sender == submission.sender && from <= now <= from + limits.window {
        WithinIsRecent(s.transfers, sender, now - limits.window, from, from + limits.window);
      }
    }
  }

  lemma MoveKeepsQuotas(s: Store, t: nat, to: TransferStatus, limits: Limits)
    requires QuotasOk(s, limits) && t < |s.transfers| && CanMove(s.transfers[t].status, to)
    ensures QuotasOk(s.(transfers := s.transfers[t := s.transfers[t].(status := to)]), limits)
  {
    var moved := s.transfers[t := s.transfers[t].(status := to)];
    forall sender ensures ActiveCount(moved, sender) <= limits.active {
      MoveCounts(s.transfers, t, to, sender, 0, 0);
    }
    forall sender, from ensures WindowOk(moved, sender, from, limits) {
      assert WindowOk(s.transfers, sender, from, limits);
      MoveCounts(s.transfers, t, to, sender, from, from + limits.window);
    }
  }

  /** Entries and senders are for good; only statuses of existing transfers change. */
  predicate Grows(s: Store, t: Store) {
    && |s.transfers| <= |t.transfers|
    && (forall i | 0 <= i < |s.transfers| ::
          t.transfers[i].(status := s.transfers[i].status) == s.transfers[i])
    && (forall at | at in s.entries :: at in t.entries && t.entries[at] == s.entries[at])
  }

  lemma GrowsKeepsAnswers(w: World, t: Store)
    requires AnswersOk(w) && Grows(w.store, t)
    ensures forall request | request in w.requests :: AnswerOk(t, w.requests[request])
  {
    forall request | request in w.requests ensures AnswerOk(t, w.requests[request]) {
      assert AnswerOk(w.store, w.requests[request]);
      if w.requests[request].Answered? && w.requests[request].answer.Success? {
        var i := w.requests[request].answer.transfer;
        assert t.transfers[i].(status := w.store.transfers[i].status) == w.store.transfers[i];
      }
    }
  }

  lemma TryKeeps(w: World, request: nat, reference: nat, limits: Limits)
    requires Inv(w, limits) && request in w.requests && w.requests[request].Trying?
    ensures Inv(Next(w, Try(request, reference), limits), limits)
    ensures Grows(w.store, Next(w, Try(request, reference), limits).store)
  {
    var r := w.requests[request];
    var (store, answer) := Attempt(w.store, r.submission, r.now, reference, limits);
    hide KeysOk, ReferencesOk, QuotasOk, ActiveCount, RecentCount, AnswersOk;
    if answer == Some(Success(|w.store.transfers|, false)) {
      InsertKeepsRows(w.store, r.submission, r.now, reference);
      InsertKeepsQuotas(w.store, r.submission, r.now, reference, limits);
    }
    AnswersKept(w, request, reference, limits);
  }

  lemma InsertKeepsRows(s: Store, submission: Submission, now: Instant, reference: nat)
    requires KeysOk(s) && ReferencesOk(s) && LookUp(s, submission).None? && !ReferenceTaken(s, reference)
    ensures var after := Insert(s, submission, now, reference);
            KeysOk(after) && ReferencesOk(after) && Grows(s, after)
  {
  }

  lemma AnswersKept(w: World, request: nat, reference: nat, limits: Limits)
    requires KeysOk(w.store) && AnswersOk(w) && request in w.requests && w.requests[request].Trying?
    requires Grows(w.store, Next(w, Try(request, reference), limits).store)
    ensures AnswersOk(Next(w, Try(request, reference), limits))
  {
    hide ActiveCount, RecentCount, ReferenceTaken;
    GrowsKeepsAnswers(w, Next(w, Try(request, reference), limits).store);
  }

  /** One attempt's transaction keeps the rows consistent and both quotas. */
  lemma AttemptKeeps(s: Store, submission: Submission, now: Instant, reference: nat, limits: Limits)
    requires KeysOk(s) && ReferencesOk(s) && QuotasOk(s, limits)
    ensures var t := Attempt(s, submission, now, reference, limits).0;
            KeysOk(t) && ReferencesOk(t) && QuotasOk(t, limits) && Grows(s, t)
  {
    hide KeysOk, ReferencesOk, QuotasOk, ActiveCount, RecentCount;
    if Attempt(s, submission, now, reference, limits).1 == Some(Success(|s.transfers|, false)) {
      InsertKeepsRows(s, submission, now, reference);
      InsertKeepsQuotas(s, submission, now, reference, limits);
    }
  }

  lemma EventKeeps(w: World, e: Event, limits: Limits)
    requires Inv(w, limits)
    ensures Inv(Next(w, e, limits), limits) && Grows(w.store, Next(w, e, limits).store)
  {
    match e
    case Arrive(request, submission, valid, now) =>
      hide QuotasOk;
    case Try(request, reference) =>
      if request in w.requests && w.requests[request].Trying? {
        TryKeeps(w, request, reference, limits);
      }
    case Move(t, to) =>
      if t < |w.store.transfers| && CanMove(w.store.transfers[t].status, to) {
        MoveKeepsQuotas(w.store, t, to, limits);
        hide QuotasOk;
        GrowsKeepsAnswers(w, Next(w, e, limits).store);
      }
  }
}
