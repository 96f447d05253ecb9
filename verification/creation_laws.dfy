/** Exactly who gets a transfer: the answers of an attempt and of a whole call, with the rows that count named one by one. */
module CreationLaws {
  import opened Common
  import opened TransferState
  import opened TransferCreation
  import opened CreationTheorems

  import TransferProgress
  import TransferRuns

  predicate HasWayOut(status: TransferStatus) {
    exists next :: next in Transitions(status)
  }

  /** The sender's transfers that can still change. */
  function ActiveOf(transfers: seq<Transfer>, sender: nat): set<nat> {
    set i | 0 <= i < |transfers| && transfers[i].sender == sender && HasWayOut(transfers[i].status)
  }

  lemma ActiveIffWayOut(status: TransferStatus)
    ensures HasWayOut(status) <==> !Terminal(status)
  {
    TerminalIffAbsorbing(status);
    hide Transitions, Terminal;
    if Transitions(status) != {} {
      var next :| next in Transitions(status);
    }
  }

  /** The sender's transfers created in the window that ends now. */
  function RecentOf(transfers: seq<Transfer>, sender: nat, now: Instant, window: nat): set<nat> {
    set i | 0 <= i < |transfers| && transfers[i].sender == sender && now <= transfers[i].createdAt + window
  }

  lemma ActiveGrows(front: seq<Transfer>, last: Transfer, sender: nat)
    ensures ActiveOf(front + [last], sender) ==
            ActiveOf(front, sender) + if last.sender == sender && HasWayOut(last.status) then {|front|} else {}
  {
    hide HasWayOut;
  }

  lemma {:induction false} ActiveCountIsSize(transfers: seq<Transfer>, sender: nat)
    ensures ActiveCount(transfers, sender) == |ActiveOf(transfers, sender)|
  {
    hide HasWayOut, Terminal;
    if transfers != [] {
      var front, last := transfers[..|transfers| - 1], transfers[|transfers| - 1];
      ActiveCountIsSize(front, sender);
      ActiveIffWayOut(last.status);
      ActiveGrows(front, last, sender);
      assert transfers == front + [last];
    }
  }

  lemma {:induction false} RecentCountIsSize(transfers: seq<Transfer>, sender: nat, now: Instant, window: nat)
    ensures RecentCount(transfers, sender, now - window) == |RecentOf(transfers, sender, now, window)|
  {
    if transfers != [] {
      var n := |transfers| - 1;
      RecentCountIsSize(transfers[..n], sender, now, window);
      var more := if transfers[n].sender == sender && now <= transfers[n].createdAt + window then {n} else {};
      assert RecentOf(transfers, sender, now, window) == RecentOf(transfers[..n], sender, now, window) + more;
    }
  }

  predicate KeyKnown(s: Store, submission: Submission) {
    submission.key.Some? && (submission.sender, submission.key.value) in s.entries
  }

  /** A transfer for this submission is there, behind all the others, with an entry for its key; nothing else changed. */
  predicate Created(s: Store, t: Store, submission: Submission, now: Instant, reference: nat) {
    var n := |s.transfers|;
    && |t.transfers| == n + 1 && (forall i | 0 <= i < n :: t.transfers[i] == s.transfers[i])
    && (t.transfers[n].sender, t.transfers[n].reference, t.transfers[n].key) == (submission.sender, reference, submission.key)
    && t.transfers[n].status == Requested && t.transfers[n].createdAt == now
    && (forall at | at in s.entries :: at in t.entries && t.entries[at] == s.entries[at])
    && (forall at | at in t.entries && at !in s.entries :: submission.key.Some? && at == (submission.sender, submission.key.value))
    && (submission.key.Some? ==>
          var at := (submission.sender, submission.key.value);
          at in t.entries && t.entries[at].transfer == n && t.entries[at].fingerprint == submission.fingerprint)
  }

  /** There is room for one more under both quotas. */
  predicate HasRoom(s: Store, sender: nat, now: Instant, limits: Limits) {
    |ActiveOf(s.transfers, sender)| < limits.active && |RecentOf(s.transfers, sender, now, limits.window)| < limits.maximum
  }

  /** An attempt under a new key, or none. */
  lemma AttemptLaw(s: Store, submission: Submission, now: Instant, reference: nat, limits: Limits)
    requires !KeyKnown(s, submission)
    ensures var (t, answer) := Attempt(s, submission, now, reference, limits);
            var active, recent := |ActiveOf(s.transfers, submission.sender)|, |RecentOf(s.transfers, submission.sender, now, limits.window)|;
            var taken := exists i | 0 <= i < |s.transfers| :: s.transfers[i].reference == reference;
            && (answer == Some(ActiveLimitReached) <==> active >= limits.active)
            && (answer == Some(RateLimited) <==> active < limits.active && recent >= limits.maximum)
            && (answer == None <==> HasRoom(s, submission.sender, now, limits) && taken)
            && (answer == Some(Success(|s.transfers|, false)) <==> HasRoom(s, submission.sender, now, limits) && !taken)
            && if answer == Some(Success(|s.transfers|, false)) then Created(s, t, submission, now, reference) else t == s
  {
    ActiveCountIsSize(s.transfers, submission.sender);
    RecentCountIsSize(s.transfers, submission.sender, now, limits.window);
    hide ActiveCount, RecentCount, ActiveOf, RecentOf;
  }

  /** An attempt under a key that was used: the same fields get the same transfer, other fields a refusal, whatever the quotas say. */
  lemma KnownKeyLaw(s: Store, submission: Submission, now: Instant, reference: nat, limits: Limits)
    requires KeyKnown(s, submission)
    ensures var entry := s.entries[(submission.sender, submission.key.value)];
            Attempt(s, submission, now, reference, limits) ==
            (s, Some(if entry.fingerprint == submission.fingerprint then Success(entry.transfer, true) else KeyReused))
  {
  }

  predicate Taken(s: Store, reference: nat) {
    exists i | 0 <= i < |s.transfers| :: s.transfers[i].reference == reference
  }

  /** With room under the quotas the first free reference makes the transfer. */
  lemma {:induction false} AttemptsLaw(s: Store, submission: Submission, now: Instant, references: seq<nat>, limits: Limits)
    requires !KeyKnown(s, submission) && HasRoom(s, submission.sender, now, limits)
    ensures var (t, answer) := Attempts(s, submission, now, references, limits);
            if forall i | 0 <= i < |references| :: Taken(s, references[i]) then t == s && answer == ReferenceFailed
            else
              && answer == Success(|s.transfers|, false)
              && exists i | 0 <= i < |references| ::
                   && !Taken(s, references[i]) && (forall j | 0 <= j < i :: Taken(s, references[j]))
                   && Created(s, t, submission, now, references[i])
  {
    if references != [] {
      AttemptLaw(s, submission, now, references[0], limits);
      hide HasRoom, Attempt, Created;
      if Taken(s, references[0]) {
        AttemptsLaw(s, submission, now, references[1..], limits);
        var t := Attempts(s, submission, now, references[1..], limits).0;
        if k :| 0 <= k < |references[1..]| && !Taken(s, references[1..][k]) &&
                (forall j | 0 <= j < k :: Taken(s, references[1..][j])) && Created(s, t, submission, now, references[1..][k])
        {
          FirstFree(s, references, k);
        }
        assert forall j | 0 < j < |references| :: references[j] == references[1..][j - 1];
      }
    }
  }

  lemma FirstFree(s: Store, references: seq<nat>, k: nat)
    requires references != [] && Taken(s, references[0]) && k < |references| - 1
    requires !Taken(s, references[1..][k]) && forall j | 0 <= j < k :: Taken(s, references[1..][j])
    ensures !Taken(s, references[k + 1]) && forall j | 0 <= j < k + 1 :: Taken(s, references[j])
  {
    forall j | 0 <= j < k + 1 ensures Taken(s, references[j]) {
      if j > 0 {
        assert references[j] == references[1..][j - 1];
      }
    }
  }

  /**
   A whole call with nothing in between. A known key is answered at once; otherwise a request that is not valid is
   rejected, a full quota refuses, and the first free one of three references makes the transfer.
   */
  lemma CallLaw(s: Store, submission: Submission, valid: bool, now: Instant, references: seq<nat>, limits: Limits)
    requires |references| == 3
    ensures var (t, answer) := Uninterrupted(s, submission, valid, now, references, limits);
            if KeyKnown(s, submission) then
              var entry := s.entries[(submission.sender, submission.key.value)];
              t == s && answer == if entry.fingerprint == submission.fingerprint then Success(entry.transfer, true) else KeyReused
            else if !valid then t == s && answer == Rejected
            else if |ActiveOf(s.transfers, submission.sender)| >= limits.active then t == s && answer == ActiveLimitReached
            else if |RecentOf(s.transfers, submission.sender, now, limits.window)| >= limits.maximum then t == s && answer == RateLimited
            else if forall i | 0 <= i < 3 :: Taken(s, references[i]) then t == s && answer == ReferenceFailed
            else
              && answer == Success(|s.transfers|, false)
              && exists i | 0 <= i < 3 ::
                   && !Taken(s, references[i]) && (forall j | 0 <= j < i :: Taken(s, references[j]))
                   && Created(s, t, submission, now, references[i])
  {
    hide ActiveOf, RecentOf, Attempt, Created, Taken;
    if !KeyKnown(s, submission) && valid {
      AttemptLaw(s, submission, now, references[0], limits);
      if HasRoom(s, submission.sender, now, limits) {
        AttemptsLaw(s, submission, now, references, limits);
      }
    }
  }

  /** The two halves of a call as the interleaving has them: the first look, and each attempt with its count. */
  lemma RequestLaw(w: World, request: nat, submission: Submission, valid: bool, now: Instant, reference: nat, limits: Limits)
    ensures request !in w.requests ==>
              var t := Next(w, Arrive(request, submission, valid, now), limits);
              && t.store == w.store && request in t.requests && t.requests == w.requests[request := t.requests[request]]
              && (KeyKnown(w.store, submission) ==>
                    t.requests[request] == Answered(submission, Attempt(w.store, submission, now, reference, limits).1.value))
              && (!KeyKnown(w.store, submission) && !valid ==> t.requests[request] == Answered(submission, Rejected))
              && (!KeyKnown(w.store, submission) && valid ==> t.requests[request] == Trying(submission, now, 0))
    ensures request in w.requests && w.requests[request].Trying? ==>
              var t, r := Next(w, Try(request, reference), limits), w.requests[request];
              var (store, answer) := Attempt(w.store, r.submission, r.now, reference, limits);
              && t.store == store && request in t.requests && t.requests == w.requests[request := t.requests[request]]
              && (answer.Some? ==> t.requests[request] == Answered(r.submission, answer.value))
              && (answer.None? && r.attempts == 2 ==> t.requests[request] == Answered(r.submission, ReferenceFailed))
              && (answer.None? && r.attempts < 2 ==> t.requests[request] == Trying(r.submission, r.now, r.attempts + 1))
  {
    hide ActiveCount, RecentCount, ReferenceTaken;
  }

  /** The status changes that the counts are about are those of the lifecycle: in each of its runs every one of them is a move. */
  lemma LifecycleMoves(worlds: seq<TransferRuns.World>, events: seq<TransferRuns.Event>, i: nat)
    requires TransferRuns.IsRun(worlds, events) && i < |events|
    requires worlds[i + 1].record.status != worlds[i].record.status
    ensures CanMove(worlds[i].record.status, worlds[i + 1].record.status)
  {
    TransferProgress.EveryChangeIsAnEdge(worlds, events, i);
  }
}
