/**
 The session service together with the Android client: a refresh token that reaches the server at
 most once never looks like a replay, and the client sends each of its tokens at most once.
 */
module SessionComposition {
  import opened Common
  import opened Sessions
  import opened SessionRuns
  import opened SessionProofs
  import opened SessionTheorems
  import Android = AndroidSession

  /** Event `k` presents a refresh token of this family, and the right one. */
  predicate Presents(w: World, e: Event, family: nat) {
    && e.ReadRefresh?
    && e.session in w.store.sessions && w.store.sessions[e.session].family == family
    && w.store.sessions[e.session].secret == e.secret
  }

  /** No session's refresh token of this family reaches the server a second time. */
  ghost predicate EachPresentedOnce(worlds: seq<World>, events: seq<Event>, family: nat)
    requires |worlds| == |events| + 1
  {
    forall i, j | 0 <= i < j < |events| && Presents(worlds[i], events[i], family) && Presents(worlds[j], events[j], family) ::
      events[i].session != events[j].session
  }

  /** The sessions presented by the first `i` events. */
  function Sent(worlds: seq<World>, events: seq<Event>, family: nat, i: nat): (sent: set<nat>)
    requires |worlds| == |events| + 1 && i <= |events|
    ensures forall id | id in sent :: exists k: nat :: k < i && Presents(worlds[k], events[k], family) && events[k].session == id
  {
    if i == 0 then {}
    else if Presents(worlds[i - 1], events[i - 1], family) then Sent(worlds, events, family, i - 1) + {events[i - 1].session}
    else Sent(worlds, events, family, i - 1)
  }

  predicate InFamily(s: Store, id: nat, family: nat) {
    id in s.sessions && s.sessions[id].family == family
  }

  /**
   A session that was rotated or has a request in flight was presented, a rotated one has no request in
   flight any more, no session has two, and no replay was detected.
   */
  ghost predicate Undisturbed(w: World, family: nat, sent: set<nat>) {
    && (forall id | InFamily(w.store, id, family) :: w.store.sessions[id].replayDetectedAt.None?)
    && (forall id | InFamily(w.store, id, family) && WasRotated(w.store.sessions[id]) :: id in sent)
    && (forall request | request in w.flights && InFamily(w.store, w.flights[request].session, family) ::
          && w.flights[request].session in sent
          && !WasRotated(w.store.sessions[w.flights[request].session]))
    && (forall a, b | a in w.flights && b in w.flights && w.flights[a].session == w.flights[b].session &&
                      InFamily(w.store, w.flights[a].session, family) :: a == b)
  }

  /** In this family nothing is rotated, flagged or started; sessions may appear, be revoked otherwise, or requests end. */
  ghost predicate Quiet(w: World, w': World, family: nat) {
    && (forall request | request in w'.flights && InFamily(w'.store, w'.flights[request].session, family) ::
          request in w.flights && w'.flights[request].session == w.flights[request].session)
    && (forall id | id in w.store.sessions :: id in w'.store.sessions && w'.store.sessions[id].family == w.store.sessions[id].family)
    && (forall id | InFamily(w'.store, id, family) :: QuietRow(w, w'.store.sessions[id], id))
  }

  predicate QuietRow(w: World, b: Session, id: nat) {
    if id in w.store.sessions then
      && (WasRotated(b) <==> WasRotated(w.store.sessions[id]))
      && b.replayDetectedAt == w.store.sessions[id].replayDetectedAt
    else
      !WasRotated(b) && b.replayDetectedAt.None?
  }

  lemma QuietUndisturbed(w: World, w': World, family: nat, sent: set<nat>)
    requires FlightsOk(w) && Undisturbed(w, family, sent) && Quiet(w, w', family)
    ensures Undisturbed(w', family, sent)
  {
    forall request | request in w.flights ensures FlightOk(w.store, w.flights[request]) {}
  }

  /** The only two events that touch the condition: a presentation, and a rotation. A replay cannot be claimed. */
  lemma OtherEventsAreQuiet(w: World, e: Event, ttl: Lifetimes, family: nat, sent: set<nat>)
    requires Undisturbed(w, family, sent) && !Presents(w, e, family)
    requires Wins(w, e) ==> !InFamily(w.store, w.flights[e.request].session, family)
    ensures Quiet(w, Next(w, e, ttl), family)
  {
    if e.FinishReplay? {
      ReplayElsewhere(w, e, ttl, family, sent);
    } else {
      hide Undisturbed, NewSession;
      if e.CommitRotation? {
        RotationElsewhere(w, e, ttl, family);
      } else if e.ReadRefresh? {
        hide Wins;
      } else {
        PlainEventsAreQuiet(w, e, ttl, family);
      }
    }
  }

  lemma PlainEventsAreQuiet(w: World, e: Event, ttl: Lifetimes, family: nat)
    requires !e.FinishReplay? && !e.CommitRotation? && !e.ReadRefresh?
    ensures Quiet(w, Next(w, e, ttl), family)
  {
    hide Rotate, RevokeForReplay;
  }

  lemma ReplayElsewhere(w: World, e: Event, ttl: Lifetimes, family: nat, sent: set<nat>)
    requires Undisturbed(w, family, sent) && e.FinishReplay?
    ensures Quiet(w, Next(w, e, ttl), family)
  {
    if e.request in w.flights && w.flights[e.request].Replaying? {
      var session := w.flights[e.request].session;
      assert InFamily(w.store, session, family) ==> !ClaimsReplay(w.store, session);
    }
  }

  lemma RotationElsewhere(w: World, e: Event, ttl: Lifetimes, family: nat)
    requires e.CommitRotation?
    requires Wins(w, e) ==> !InFamily(w.store, w.flights[e.request].session, family)
    ensures Quiet(w, Next(w, e, ttl), family)
  {
  }

  lemma PresentationKeeps(w: World, e: Event, ttl: Lifetimes, family: nat, sent: set<nat>)
    requires Undisturbed(w, family, sent) && Presents(w, e, family) && e.session !in sent
    ensures Undisturbed(Next(w, e, ttl), family, sent + {e.session})
  {
  }

  lemma RotationKeeps(w: World, e: Event, ttl: Lifetimes, family: nat, sent: set<nat>)
    requires FlightsOk(w) && Undisturbed(w, family, sent) && Wins(w, e)
    requires InFamily(w.store, w.flights[e.request].session, family)
    ensures Undisturbed(Next(w, e, ttl), family, sent)
  {
    forall request | request in w.flights ensures FlightOk(w.store, w.flights[request]) {}
  }

  lemma StepUndisturbed(w: World, e: Event, ttl: Lifetimes, family: nat, sent: set<nat>)
    requires Inv(w) && Undisturbed(w, family, sent)
    requires Presents(w, e, family) ==> e.session !in sent
    ensures Undisturbed(Next(w, e, ttl), family, if Presents(w, e, family) then sent + {e.session} else sent)
  {
    hide StoreOk, IssuedOk, FlightsOk, Undisturbed, Next, Quiet;
    if Presents(w, e, family) {
      PresentationKeeps(w, e, ttl, family, sent);
    } else if Wins(w, e) && InFamily(w.store, w.flights[e.request].session, family) {
      RotationKeeps(w, e, ttl, family, sent);
    } else {
      OtherEventsAreQuiet(w, e, ttl, family, sent);
      QuietUndisturbed(w, Next(w, e, ttl), family, sent);
    }
  }

  lemma NotSentBefore(worlds: seq<World>, events: seq<Event>, family: nat, i: nat)
    requires |worlds| == |events| + 1 && i < |events| && EachPresentedOnce(worlds, events, family)
    requires Presents(worlds[i], events[i], family)
    ensures events[i].ReadRefresh? && events[i].session !in Sent(worlds, events, family, i)
  {
  }

  lemma {:induction false} RunUndisturbed(worlds: seq<World>, events: seq<Event>, ttl: Lifetimes, family: nat, i: nat)
    requires IsRun(worlds, events, ttl) && i <= |events| && EachPresentedOnce(worlds, events, family)
    ensures Undisturbed(worlds[i], family, Sent(worlds, events, family, i))
  {
    hide Inv, Next, Presents, EachPresentedOnce;
    if i > 0 {
      assert worlds[i] == Next(worlds[i - 1], events[i - 1], ttl);
      hide IsRun, Undisturbed;
      RunUndisturbed(worlds, events, ttl, family, i - 1);
      RunKeeps(worlds, events, ttl, i - 1);
      if Presents(worlds[i - 1], events[i - 1], family) {
        NotSentBefore(worlds, events, family, i - 1);
      }
      StepUndisturbed(worlds[i - 1], events[i - 1], ttl, family, Sent(worlds, events, family, i - 1));
    }
  }

  /** A family whose refresh tokens are each presented at most once is never taken for replayed. */
  lemma NoFalseReplay(worlds: seq<World>, events: seq<Event>, ttl: Lifetimes, family: nat, i: nat, id: nat)
    requires IsRun(worlds, events, ttl) && i < |worlds| && EachPresentedOnce(worlds, events, family)
    requires InFamily(worlds[i].store, id, family)
    ensures worlds[i].store.sessions[id].replayDetectedAt == None
  {
    RunUndisturbed(worlds, events, ttl, family, i);
  }

  /**
   Every refresh of this family that reaches the server is one that the client sent: `sentAs` says which, and
   no request is delivered twice.
   */
  ghost predicate OnlyFrom(worlds: seq<World>, events: seq<Event>, family: nat, presented: seq<nat>, sentAs: map<nat, nat>)
    requires |worlds| == |events| + 1
  {
    && (forall i: nat | i < |events| && Presents(worlds[i], events[i], family) ::
          i in sentAs && sentAs[i] < |presented| && presented[sentAs[i]] == events[i].session)
    && (forall i, j | i in sentAs && j in sentAs && i != j :: sentAs[i] != sentAs[j])
  }

  /** A client that follows HawellyRepository and does not crash never triggers replay detection, however many calls it has going. */
  lemma ClientNeverLooksLikeReplay(
      worlds: seq<World>, events: seq<Event>, ttl: Lifetimes,
      clients: seq<Android.Client>, steps: seq<Android.Step>,
      family: nat, sentAs: map<nat, nat>, i: nat, id: nat)
    requires IsRun(worlds, events, ttl) && Android.IsRun(clients, steps)
    requires OnlyFrom(worlds, events, family, clients[|clients| - 1].presented, sentAs)
    requires i < |worlds| && InFamily(worlds[i].store, id, family)
    ensures worlds[i].store.sessions[id].replayDetectedAt == None
  {
    Android.SingleFlight(clients, steps, |clients| - 1);
    hide IsRun, Android.IsRun;
    assert EachPresentedOnce(worlds, events, family);
    NoFalseReplay(worlds, events, ttl, family, i, id);
  }
}
