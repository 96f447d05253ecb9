/**
 What holds of sessions in every run, whatever the interleaving of requests.
 */
module SessionTheorems {
  import opened Common
  import opened Sessions
  import opened SessionRuns
  import opened SessionProofs

  lemma {:induction false} RunKeeps(worlds: seq<World>, events: seq<Event>, ttl: Lifetimes, i: nat)
    requires IsRun(worlds, events, ttl) && i < |worlds|
    ensures Inv(worlds[i])
  {
    if i > 0 {
      RunKeeps(worlds, events, ttl, i - 1);
      hide Next, Inv;
      EventKeeps(worlds[i - 1], events[i - 1], ttl);
    }
  }

  lemma LaterTransitive(a: Store, b: Store, c: Store)
    requires Later(a, b) && Later(b, c)
    ensures Later(a, c)
  {
    forall id | id in a.sessions ensures id in c.sessions && RowLater(a.sessions[id], c.sessions[id]) {
      assert RowLater(a.sessions[id], b.sessions[id]) && RowLater(b.sessions[id], c.sessions[id]);
    }
  }

  /** Identities, expiries, revocations, successors, detected replays and version bumps are for good. */
  lemma {:induction false} NothingIsTakenBack(worlds: seq<World>, events: seq<Event>, ttl: Lifetimes, i: nat, j: nat)
    requires IsRun(worlds, events, ttl) && i <= j < |worlds|
    ensures Later(worlds[i].store, worlds[j].store)
    decreases j
  {
    if i < j {
      NothingIsTakenBack(worlds, events, ttl, i, j - 1);
      RunKeeps(worlds, events, ttl, j - 1);
      hide Next, Inv, Later;
      EventKeeps(worlds[j - 1], events[j - 1], ttl);
      LaterTransitive(worlds[i].store, worlds[j - 1].store, worlds[j].store);
    }
  }

  /** The families of a reachable store, without mention of the recorded chains. */
  lemma FamiliesAreChains(worlds: seq<World>, events: seq<Event>, ttl: Lifetimes, i: nat, a: nat, b: nat)
    requires IsRun(worlds, events, ttl) && i < |worlds|
    requires a in worlds[i].store.sessions && b in worlds[i].store.sessions
    requires worlds[i].store.sessions[a].family == worlds[i].store.sessions[b].family
    ensures var s := worlds[i].store.sessions;
            // A session has a successor exactly when it was rotated, and the successor is of the same family.
            && (s[a].replacedBy.Some? <==> WasRotated(s[a]))
            && (s[a].replacedBy.Some? ==> s[a].replacedBy.value in s && s[s[a].replacedBy.value].family == s[a].family)
            // The chain does not branch, and only one session of a family can be without a successor, so only one live.
            && (a != b && s[a].replacedBy.Some? ==> s[a].replacedBy != s[b].replacedBy)
            && (a != b ==> s[a].replacedBy.Some? || s[b].replacedBy.Some?)
            && (a != b ==> !Live(s[a]) || !Live(s[b]))
            // One absolute expiry, which no expiry exceeds, and one user.
            && s[a].expiresAt <= s[a].absoluteExpiresAt == s[b].absoluteExpiresAt
            && s[a].user == s[b].user
            // After a detected replay nothing of the family is live.
            && (s[a].replayDetectedAt.Some? ==> !Live(s[b]))
  {
    RunKeeps(worlds, events, ttl, i);
    hide IsRun, FlightsOk, IssuedOk;
    var s := worlds[i].store;
    assert RowOk(s, s.sessions[a]) && RowOk(s, s.sessions[b]) && SameFamilyOk(s.sessions[a], s.sessions[b]);
    ChainPair(s, a, b);
  }

  /** A family is one chain: a sequence of exactly its sessions, each replaced by the next and the last by none. */
  lemma FamilyIsOneChain(worlds: seq<World>, events: seq<Event>, ttl: Lifetimes, i: nat, family: nat)
    requires IsRun(worlds, events, ttl) && i < |worlds|
    requires exists id :: id in worlds[i].store.sessions && worlds[i].store.sessions[id].family == family
    ensures var s := worlds[i].store.sessions;
            exists chain ::
              ChainOk(s, family, chain) && forall id :: id in chain <==> id in s && s[id].family == family
  {
    RunKeeps(worlds, events, ttl, i);
    hide IsRun, RowsOk, FamiliesOk, FlightsOk, IssuedOk;
    var s := worlds[i].store;
    assert family in s.chains && ChainOk(s.sessions, family, s.chains[family]);
    assert forall id :: id in s.chains[family] <==> id in s.sessions && s.sessions[id].family == family;
  }

  lemma ChainPair(s: Store, a: nat, b: nat)
    requires ChainsOk(s) && a in s.sessions && b in s.sessions && s.sessions[a].family == s.sessions[b].family
    ensures s.sessions[a].replacedBy.Some? ==>
              && s.sessions[a].replacedBy.value in s.sessions
              && s.sessions[s.sessions[a].replacedBy.value].family == s.sessions[a].family
    ensures a != b && s.sessions[a].replacedBy.Some? ==> s.sessions[a].replacedBy != s.sessions[b].replacedBy
    ensures a != b ==> s.sessions[a].replacedBy.Some? || s.sessions[b].replacedBy.Some?
  {
    var family := s.sessions[a].family;
    var chain := s.chains[family];
    assert ChainOk(s.sessions, family, chain);
    var j :| 0 <= j < |chain| && chain[j] == a;
    var k :| 0 <= k < |chain| && chain[k] == b;
    assert j + 1 < |chain| ==> s.sessions[chain[j + 1 - 1]].replacedBy == Some(chain[j + 1]);
    assert k + 1 < |chain| ==> s.sessions[chain[k + 1 - 1]].replacedBy == Some(chain[k + 1]);
  }

  /** Of any number of refreshes of one session, however they interleave, at most one goes through. */
  lemma AtMostOneRefreshWins(worlds: seq<World>, events: seq<Event>, ttl: Lifetimes, i: nat, j: nat)
    requires IsRun(worlds, events, ttl) && i < j < |events|
    requires Wins(worlds[i], events[i]) && Wins(worlds[j], events[j])
    ensures worlds[i].flights[events[i].request].session != worlds[j].flights[events[j].request].session
  {
    var session := worlds[i].flights[events[i].request].session;
    assert worlds[i + 1] == Next(worlds[i], events[i], ttl);
    assert !Live(worlds[i + 1].store.sessions[session]);
    NothingIsTakenBack(worlds, events, ttl, i + 1, j);
    assert RowLater(worlds[i + 1].store.sessions[session], worlds[j].store.sessions[session]);
  }

  /**
   Once a replay of any session of a family was detected, no session of that family is live in any later
   world, however long ago its refresh had read it and even if the session did not exist yet.
   */
  lemma ReplayEndsFamilyForever(worlds: seq<World>, events: seq<Event>, ttl: Lifetimes, i: nat, j: nat, stolen: nat, other: nat)
    requires IsRun(worlds, events, ttl) && i <= j < |worlds|
    requires stolen in worlds[i].store.sessions && worlds[i].store.sessions[stolen].replayDetectedAt.Some?
    requires other in worlds[j].store.sessions
    requires worlds[j].store.sessions[other].family == worlds[i].store.sessions[stolen].family
    ensures !Live(worlds[j].store.sessions[other])
  {
    NothingIsTakenBack(worlds, events, ttl, i, j);
    assert RowLater(worlds[i].store.sessions[stolen], worlds[j].store.sessions[stolen]);
    FamiliesAreChains(worlds, events, ttl, j, stolen, other);
  }

  /**
   How a refresh that did not go through ends: if its session had been rotated, the replay is on record and its
   family is dead; if not (it expired, was revoked otherwise, or a conflict aborted it), nothing changed.
   */
  lemma LosingRefreshEnds(worlds: seq<World>, events: seq<Event>, ttl: Lifetimes, i: nat)
    requires IsRun(worlds, events, ttl) && i < |events|
    requires events[i].FinishReplay?
    requires events[i].request in worlds[i].flights && worlds[i].flights[events[i].request].Replaying?
    ensures var session := worlds[i].flights[events[i].request].session;
            var before, after := worlds[i].store, worlds[i + 1].store;
            && session in before.sessions && session in after.sessions
            && if WasRotated(before.sessions[session])
               then after.sessions[session].replayDetectedAt.Some? &&
                    forall id | id in after.sessions && after.sessions[id].family == after.sessions[session].family ::
                      !Live(after.sessions[id])
               else after == before
  {
    RunKeeps(worlds, events, ttl, i);
    var flight := worlds[i].flights[events[i].request];
    assert worlds[i + 1].store == RevokeForReplay(worlds[i].store, flight.session, flight.now);
    assert FlightOk(worlds[i].store, flight);
    hide IsRun, Next, FlightsOk, IssuedOk, StoreOk, RevokeForReplay;
    ReplayEnds(worlds[i].store, flight.session, flight.now);
  }

  lemma ReplayEnds(s: Store, id: nat, now: Instant)
    requires StoreOk(s) && id in s.sessions
    ensures var after := RevokeForReplay(s, id, now);
            && id in after.sessions
            && if WasRotated(s.sessions[id])
               then after.sessions[id].replayDetectedAt.Some? &&
                    forall other | other in after.sessions && after.sessions[other].family == after.sessions[id].family ::
                      !Live(after.sessions[other])
               else after == s
  {
    hide ChainsOk;
    ReplayKeeps(s, id, now);
    assert RowOk(s, s.sessions[id]);
    if WasRotated(s.sessions[id]) {
      ReplayOnRecord(s, id, now);
      hide RevokeForReplay, RowsOk, Later;
      var after := RevokeForReplay(s, id, now);
      forall other | other in after.sessions && after.sessions[other].family == after.sessions[id].family
        ensures !Live(after.sessions[other])
      {
        assert SameFamilyOk(after.sessions[id], after.sessions[other]);
      }
    }
  }

  lemma ReplayOnRecord(s: Store, id: nat, now: Instant)
    requires id in s.sessions && s.sessions[id].user in s.users && WasRotated(s.sessions[id])
    ensures id in RevokeForReplay(s, id, now).sessions
    ensures RevokeForReplay(s, id, now).sessions[id].replayDetectedAt.Some?
  {
  }

  // ----- Access tokens -----

  /** The events that raise a user's session version: sign out everywhere, a password change, a claimed replay, a staff access change. */
  predicate Invalidates(w: World, e: Event, user: nat) {
    match e
    case DoLogOutAll(u, _) => u == user && u in w.store.users
    case DoChangePassword(u, checked, _, _) => u == user && CanChangePassword(w.store, u, checked)
    case DoChangeStaff(u, _, _, _) => u == user && u in w.store.users
    case FinishReplay(request) =>
      && request in w.flights && w.flights[request].Replaying?
      && ClaimsReplay(w.store, w.flights[request].session)
      && w.store.sessions[w.flights[request].session].user == user
    case _ => false
  }

  lemma InvalidationBumps(w: World, e: Event, ttl: Lifetimes, user: nat)
    requires Invalidates(w, e, user)
    ensures user in w.store.users && user in Next(w, e, ttl).store.users
    ensures Next(w, e, ttl).store.users[user].version == w.store.users[user].version + 1
  {
    hide RevokeFamily, RevokeUser;
  }

  /**
   At the moment of an invalidation no token issued so far, and no refresh that has already read its
   version, carries more than the current version; and in every later world every token with at most
   that version is refused.
   */
  lemma InvalidationRefusesEarlierTokens(worlds: seq<World>, events: seq<Event>, ttl: Lifetimes, i: nat, j: nat, user: nat)
    requires IsRun(worlds, events, ttl) && i < |events| && i < j < |worlds| && Invalidates(worlds[i], events[i], user)
    ensures user in worlds[i].store.users
    ensures var version := worlds[i].store.users[user].version;
            && (forall token | token in worlds[i].issued && token.user == user :: token.version <= version)
            && (forall request | request in worlds[i].flights ::
                  var flight := worlds[i].flights[request];
                  flight.Rotating? && flight.user == user ==> flight.version <= version)
            && (forall token: AccessToken, now | token.user == user && token.version <= version ::
                  !Authenticates(worlds[j].store, token, now))
  {
    RunKeeps(worlds, events, ttl, i);
    InvalidationBumps(worlds[i], events[i], ttl, user);
    assert worlds[i + 1] == Next(worlds[i], events[i], ttl);
    hide Next, Invalidates;
    NothingIsTakenBack(worlds, events, ttl, i + 1, j);
    hide IsRun, StoreOk, SessionsLater, HistoryLater;
    forall request | request in worlds[i].flights
      ensures var flight := worlds[i].flights[request];
              flight.Rotating? && flight.user == user ==> flight.version <= worlds[i].store.users[user].version
    {
      assert FlightOk(worlds[i].store, worlds[i].flights[request]);
    }
  }

  // ----- Where a live session comes from -----

  /** This event registered or logged in `user` with this password hash and opened `family`. */
  predicate Opens(w: World, e: Event, family: nat, user: nat, hash: nat) {
    || (e.DoRegister? && (e.ids.family, e.user, e.hash) == (family, user, hash) && CanRegister(w.store, user, e.ids))
    || (e.DoLogIn? && (e.ids.family, e.user, e.hash) == (family, user, hash) && CanLogIn(w.store, user, hash, e.ids))
  }

  lemma {:induction false} OriginsAreLogins(worlds: seq<World>, events: seq<Event>, ttl: Lifetimes, i: nat, family: nat)
    requires IsRun(worlds, events, ttl) && i < |worlds| && family in worlds[i].store.origins
    ensures var origin := worlds[i].store.origins[family];
            exists k: nat :: k < i && Opens(worlds[k], events[k], family, origin.user, origin.hash)
  {
    if i > 0 {
      var before, e, origin := worlds[i - 1], events[i - 1], worlds[i].store.origins[family];
      assert worlds[i] == Next(before, e, ttl);
      if Opens(before, e, family, origin.user, origin.hash) {
      } else {
        assert origin == before.store.origins[family];
        OriginsAreLogins(worlds, events, ttl, i - 1, family);
      }
    }
  }

  /** Every live session's family began with a login or registration of its user, with the password that is stored now. */
  lemma LiveMeansCurrentPassword(worlds: seq<World>, events: seq<Event>, ttl: Lifetimes, i: nat, id: nat)
    requires IsRun(worlds, events, ttl) && i < |worlds|
    requires id in worlds[i].store.sessions && Live(worlds[i].store.sessions[id])
    ensures var row := worlds[i].store.sessions[id];
            && row.user in worlds[i].store.users
            && exists k: nat :: k < i &&
                 Opens(worlds[k], events[k], row.family, row.user, worlds[i].store.users[row.user].passwordHash)
  {
    RunKeeps(worlds, events, ttl, i);
    assert RowOk(worlds[i].store, worlds[i].store.sessions[id]);
    OriginsAreLogins(worlds, events, ttl, i, worlds[i].store.sessions[id].family);
  }
}
