/** What a client that retries can rely on, and exactly when it cannot. */
module SubmissionTheorems {
  import opened Common
  import opened TransferState
  import opened TransferCreation
  import opened SubmissionClient

  lemma {:induction false} RunKeeps(systems: seq<System>, steps: seq<Step>, limits: Limits, i: nat)
    requires SubmissionClient.IsRun(systems, steps, limits) && i < |systems|
    ensures SubmissionClient.Inv(systems[i]) && TransferCreation.Inv(systems[i].server, limits)
  {
    if i == 0 {
      assert forall sender, from :: WindowOk([], sender, from, limits);
    } else {
      RunKeeps(systems, steps, limits, i - 1);
      assert systems[i] == SubmissionClient.Next(systems[i - 1], steps[i - 1], limits);
      hide SubmissionClient.Inv, TransferCreation.Inv, SubmissionClient.IsRun;
      StepKeeps(systems[i - 1], steps[i - 1], limits);
      ServerStep(systems[i - 1], steps[i - 1], limits);
    }
  }

  lemma ServerStep(s: System, step: Step, limits: Limits)
    requires TransferCreation.Inv(s.server, limits)
    ensures TransferCreation.Inv(SubmissionClient.Next(s, step, limits).server, limits)
  {
    hide TransferCreation.Inv, TransferCreation.Next;
    if step.Deliver? && step.request in s.sent {
      EventKeeps(s.server, Arrive(step.request, SubmissionOf(s.sent[step.request]), step.valid, step.now), limits);
    } else if step.Serve? {
      EventKeeps(s.server, step.event, limits);
    }
  }

  /** The client's requests are never refused as reusing a key, whatever others do and however often it retries. */
  lemma NeverRefusedForReuse(systems: seq<System>, steps: seq<Step>, limits: Limits, i: nat, request: nat)
    requires SubmissionClient.IsRun(systems, steps, limits) && i < |systems|
    requires request in systems[i].sent && request in systems[i].server.requests
    ensures systems[i].server.requests[request].Answered? ==> systems[i].server.requests[request].answer != KeyReused
  {
    RunKeeps(systems, steps, limits, i);
  }

  // ----- When a retry keeps its key -----

  /** This step drops the key kept for `form`: a success or 4xx reaches the client, or another form is sent. */
  predicate Drops(s: System, step: Step, form: Form) {
    match step
    case Hear =>
      && s.client.inFlight.Some? && s.client.inFlight.value in s.server.requests
      && s.server.requests[s.client.inFlight.value].Answered?
      && Settles(s.server.requests[s.client.inFlight.value].answer)
    case Refuse => s.client.inFlight.Some?
    case PressSend(other, _, _) => Effective(s, step) && other != form
    case _ => false
  }

  ghost predicate Dropped(systems: seq<System>, steps: seq<Step>, i: nat, j: nat, form: Form)
    requires |systems| == |steps| + 1 && j < |systems|
  {
    exists k :: i < k < j && Drops(systems[k], steps[k], form)
  }

  predicate Holds(c: Client, form: Form, key: nat) {
    c.pending == Some(Pending(form, key))
  }

  lemma HeldStep(s: System, step: Step, limits: Limits, form: Form, key: nat)
    requires SubmissionClient.Inv(s) && Holds(s.client, form, key)
    ensures key in SubmissionClient.Next(s, step, limits).stamps
    ensures var after := SubmissionClient.Next(s, step, limits).client;
            if Drops(s, step, form) then after.pending.Some? ==> after.pending.value.key != key
            else Holds(after, form, key)
  {
    if step.PressSend? && Effective(s, step) {
      SameCanonicalSameRequest(form, step.form);
    }
    hide Canonical, Clean, TransferCreation.Next;
  }

  /** A key that is no longer kept never comes back. */
  lemma GoneStep(s: System, step: Step, limits: Limits, key: nat)
    requires key in s.stamps && (s.client.pending.Some? ==> s.client.pending.value.key != key)
    ensures var t := SubmissionClient.Next(s, step, limits);
            key in t.stamps && (t.client.pending.Some? ==> t.client.pending.value.key != key)
  {
    hide Canonical, Clean, TransferCreation.Next;
  }

  /** After form and key are first kept together at `i`, they are kept exactly until something drops them. */
  lemma {:induction false} KeptUntilDropped(systems: seq<System>, steps: seq<Step>, limits: Limits, i: nat, j: nat, form: Form, key: nat)
    requires SubmissionClient.IsRun(systems, steps, limits) && i < j < |systems|
    requires Holds(systems[i + 1].client, form, key)
    ensures key in systems[j].stamps
    ensures if Dropped(systems, steps, i, j, form)
            then systems[j].client.pending.Some? ==> systems[j].client.pending.value.key != key
            else Holds(systems[j].client, form, key)
    decreases j
  {
    if j == i + 1 {
      RunKeeps(systems, steps, limits, j);
    } else {
      KeptUntilDropped(systems, steps, limits, i, j - 1, form, key);
      RunKeeps(systems, steps, limits, j - 1);
      assert systems[j] == SubmissionClient.Next(systems[j - 1], steps[j - 1], limits);
      hide SubmissionClient.Inv, TransferCreation.Inv, SubmissionClient.IsRun, SubmissionClient.Next, Drops;
      if Dropped(systems, steps, i, j - 1, form) {
        GoneStep(systems[j - 1], steps[j - 1], limits, key);
      } else {
        HeldStep(systems[j - 1], steps[j - 1], limits, form, key);
      }
    }
  }

  /** The key under which the press at `i` was sent. */
  function KeySent(systems: seq<System>, steps: seq<Step>, i: nat): nat
    requires |systems| == |steps| + 1 && i < |steps| && Effective(systems[i], steps[i])
  {
    KeyFor(systems[i].client, steps[i].form, steps[i].newKey)
  }

  /**
   A later press goes out under the same key exactly when it sends the same form and nothing in between dropped
   the key: no success, no 4xx, and no other form sent.
   */
  lemma SameKeyIffNothingDropped(systems: seq<System>, steps: seq<Step>, limits: Limits, i: nat, j: nat)
    requires SubmissionClient.IsRun(systems, steps, limits) && i < j < |steps|
    requires Effective(systems[i], steps[i]) && Effective(systems[j], steps[j])
    ensures KeySent(systems, steps, i) == KeySent(systems, steps, j) <==>
            steps[i].form == steps[j].form && !Dropped(systems, steps, i, j, steps[i].form)
  {
    var form, key := steps[i].form, KeySent(systems, steps, i);
    RunKeeps(systems, steps, limits, i);
    PressHolds(systems[i], steps[i], limits);
    KeptUntilDropped(systems, steps, limits, i, j, form, key);
    hide SubmissionClient.IsRun, SubmissionClient.Inv, TransferCreation.Inv, Dropped;
    SameCanonicalSameRequest(form, steps[j].form);
  }

  lemma PressHolds(s: System, step: Step, limits: Limits)
    requires SubmissionClient.Inv(s) && Effective(s, step)
    ensures var t := SubmissionClient.Next(s, step, limits);
            && Holds(t.client, step.form, KeyFor(s.client, step.form, step.newKey))
            && step.request in t.sent
            && t.sent[step.request] == Sent(step.form, KeyFor(s.client, step.form, step.newKey))
  {
    if s.client.pending.Some? {
      SameCanonicalSameRequest(s.client.pending.value.form, step.form);
    }
  }

  /** Requests the client sent under one key can only ever succeed with one and the same transfer. */
  lemma RetriesMakeOneTransfer(systems: seq<System>, steps: seq<Step>, limits: Limits, i: nat, a: nat, b: nat)
    requires SubmissionClient.IsRun(systems, steps, limits) && i < |systems|
    requires a in systems[i].sent && b in systems[i].sent && systems[i].sent[a].key == systems[i].sent[b].key
    requires forall r | r in [a, b] ::
               && r in systems[i].server.requests
               && systems[i].server.requests[r].Answered? && systems[i].server.requests[r].answer.Success?
    ensures systems[i].server.requests[a].answer.transfer == systems[i].server.requests[b].answer.transfer
  {
    RunKeeps(systems, steps, limits, i);
    hide SubmissionClient.IsRun, QuotasOk, ClientOk, NeverReused;
    var w := systems[i].server;
    assert AnswerOk(w.store, w.requests[a]) && AnswerOk(w.store, w.requests[b]);
  }

  /** What was sent stays on record. */
  lemma {:induction false} SentStays(systems: seq<System>, steps: seq<Step>, limits: Limits, i: nat, n: nat, request: nat)
    requires SubmissionClient.IsRun(systems, steps, limits) && i <= n < |systems| && request in systems[i].sent
    ensures request in systems[n].sent && systems[n].sent[request] == systems[i].sent[request]
    decreases n
  {
    if i < n {
      SentStays(systems, steps, limits, i, n - 1, request);
      assert systems[n] == SubmissionClient.Next(systems[n - 1], steps[n - 1], limits);
      hide SubmissionClient.IsRun, TransferCreation.Next;
    }
  }

  /** Two successes of this client name one transfer exactly if they were sent under one key. */
  lemma OneTransferIffOneKey(s: System, limits: Limits, a: nat, b: nat)
    requires SubmissionClient.Inv(s) && TransferCreation.Inv(s.server, limits) && a in s.sent && b in s.sent
    requires forall r | r in [a, b] ::
               r in s.server.requests && s.server.requests[r].Answered? && s.server.requests[r].answer.Success?
    ensures s.server.requests[a].answer.transfer == s.server.requests[b].answer.transfer <==> s.sent[a].key == s.sent[b].key
  {
    hide QuotasOk, ReferencesOk, ClientOk, NeverReused;
    assert a in [a, b] && b in [a, b];
    var w := s.server;
    assert w.requests[a].submission == SubmissionOf(s.sent[a]) && w.requests[b].submission == SubmissionOf(s.sent[b]);
    assert AnswerOk(w.store, w.requests[a]) && AnswerOk(w.store, w.requests[b]);
    assert w.store.transfers[w.requests[a].answer.transfer].key == Some(s.sent[a].key);
    assert w.store.transfers[w.requests[b].answer.transfer].key == Some(s.sent[b].key);
  }

  /**
   Two presses that both succeed have made one transfer if and only if they sent the same form and nothing in between
   dropped the key: no success, no 4xx, and no other form. Otherwise they have made two.
   */
  lemma OneTransferIffNothingDropped(systems: seq<System>, steps: seq<Step>, limits: Limits, i: nat, j: nat, n: nat)
    requires SubmissionClient.IsRun(systems, steps, limits) && i < j < |steps| && j < n < |systems|
    requires Effective(systems[i], steps[i]) && Effective(systems[j], steps[j])
    requires forall r | r in [steps[i].request, steps[j].request] ::
               && r in systems[n].server.requests
               && systems[n].server.requests[r].Answered? && systems[n].server.requests[r].answer.Success?
    ensures systems[n].server.requests[steps[i].request].answer.transfer ==
            systems[n].server.requests[steps[j].request].answer.transfer <==>
            steps[i].form == steps[j].form && !Dropped(systems, steps, i, j, steps[i].form)
  {
    RunKeeps(systems, steps, limits, i);
    RunKeeps(systems, steps, limits, j);
    RunKeeps(systems, steps, limits, n);
    assert systems[i + 1] == SubmissionClient.Next(systems[i], steps[i], limits);
    assert systems[j + 1] == SubmissionClient.Next(systems[j], steps[j], limits);
    hide SubmissionClient.IsRun, SubmissionClient.Inv, TransferCreation.Inv, SubmissionClient.Next, Dropped;
    PressHolds(systems[i], steps[i], limits);
    PressHolds(systems[j], steps[j], limits);
    SentStays(systems, steps, limits, i + 1, n, steps[i].request);
    SentStays(systems, steps, limits, j + 1, n, steps[j].request);
    SameKeyIffNothingDropped(systems, steps, limits, i, j);
    OneTransferIffOneKey(systems[n], limits, steps[i].request, steps[j].request);
  }

  // ----- Where the promise ends -----

  function Play(s: System, steps: seq<Step>, limits: Limits): seq<System>
    decreases |steps|
  {
    if steps == [] then [s] else [s] + Play(SubmissionClient.Next(s, steps[0], limits), steps[1..], limits)
  }

  lemma {:induction false} PlayIsRun(s: System, steps: seq<Step>, limits: Limits)
    ensures var systems := Play(s, steps, limits);
            && |systems| == |steps| + 1 && systems[0] == s
            && forall i | 0 <= i < |steps| :: systems[i + 1] == SubmissionClient.Next(systems[i], steps[i], limits)
    decreases |steps|
  {
    if steps != [] {
      PlayIsRun(SubmissionClient.Next(s, steps[0], limits), steps[1..], limits);
    }
  }

  /** The first submission creates its transfer but its answer is lost; the retry is met with a 401; the form is sent once more. */
  function LostThenRefused(form: Form): seq<Step> {
    [PressSend(form, 7, 1), Deliver(1, true, 0), Serve(Try(1, 100)), Lose,
     PressSend(form, 8, 2), Refuse,
     PressSend(form, 9, 3), Deliver(3, true, 0), Serve(Try(3, 101))]
  }

  predicate Follows(systems: seq<System>, steps: seq<Step>, limits: Limits) {
    && |systems| == |steps| + 1 && systems[0] == START
    && forall i | 0 <= i < |steps| :: systems[i + 1] == SubmissionClient.Next(systems[i], steps[i], limits)
  }

  lemma FirstSucceeds(form: Form, limits: Limits, systems: seq<System>)
    requires Clean(form) && limits.active >= 2 && limits.maximum >= 2 && Follows(systems, LostThenRefused(form), limits)
    ensures var store := Store([Transfer(ME, 100, Requested, 0, Some(7))], map[(ME, 7) := Entry(OnTheWire(form), 0)]);
            && systems[4] == System(
                 World(store, map[1 := Answered(Submission(ME, Some(7), OnTheWire(form)), Success(0, false))]),
                 Client(Some(Pending(form, 7)), None), map[1 := Sent(form, 7)], map[7 := OnTheWire(form)], {})
  {
    hide Clean, OnTheWire;
    assert systems[1] == SubmissionClient.Next(systems[0], PressSend(form, 7, 1), limits);
    assert systems[2] == SubmissionClient.Next(systems[1], Deliver(1, true, 0), limits);
    assert systems[3] == SubmissionClient.Next(systems[2], Serve(Try(1, 100)), limits);
    assert systems[4] == SubmissionClient.Next(systems[3], Lose, limits);
  }

  lemma OneCountsOnce(t: Transfer, sender: nat, since: Instant)
    ensures ActiveCount([t], sender) <= 1 && RecentCount([t], sender, since) <= 1
  {
    assert [t][..0] == [];
  }

  lemma SecondSucceeds(form: Form, limits: Limits, systems: seq<System>)
    requires Clean(form) && limits.active >= 2 && limits.maximum >= 2 && Follows(systems, LostThenRefused(form), limits)
    ensures 1 in systems[9].sent && 3 in systems[9].sent && systems[9].sent[1].form == systems[9].sent[3].form == form
    ensures var w := systems[9].server;
            && |w.store.transfers| == 2 && 1 in w.requests && 3 in w.requests
            && w.requests[1] == Answered(Submission(ME, Some(7), OnTheWire(form)), Success(0, false))
            && w.requests[3] == Answered(Submission(ME, Some(9), OnTheWire(form)), Success(1, false))
  {
    FirstSucceeds(form, limits, systems);
    hide Clean, OnTheWire;
    assert systems[5] == SubmissionClient.Next(systems[4], PressSend(form, 8, 2), limits);
    assert systems[6] == SubmissionClient.Next(systems[5], Refuse, limits);
    assert systems[7] == SubmissionClient.Next(systems[6], PressSend(form, 9, 3), limits);
    assert systems[8] == SubmissionClient.Next(systems[7], Deliver(3, true, 0), limits);
    OneCountsOnce(Transfer(ME, 100, Requested, 0, Some(7)), ME, 0 - limits.window);
    assert systems[9] == SubmissionClient.Next(systems[8], Serve(Try(3, 101)), limits);
  }

  /** A 4xx that is not about the submission itself drops the key of a transfer that exists, and the same form makes a second one. */
  lemma RefusalAfterLostSuccessDuplicates(form: Form, limits: Limits) returns (systems: seq<System>)
    requires Clean(form) && limits.active >= 2 && limits.maximum >= 2
    ensures SubmissionClient.IsRun(systems, LostThenRefused(form), limits)
    ensures 1 in systems[9].sent && 3 in systems[9].sent && systems[9].sent[1].form == systems[9].sent[3].form == form
    ensures var w := systems[9].server;
            && |w.store.transfers| == 2 && 1 in w.requests && 3 in w.requests
            && w.requests[1] == Answered(Submission(ME, Some(7), OnTheWire(form)), Success(0, false))
            && w.requests[3] == Answered(Submission(ME, Some(9), OnTheWire(form)), Success(1, false))
  {
    systems := Play(START, LostThenRefused(form), limits);
    PlayIsRun(START, LostThenRefused(form), limits);
    SecondSucceeds(form, limits, systems);
  }
}
