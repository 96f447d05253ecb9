/**
 What each request to the session service gets, and what it does to the rows, said of the rows themselves. On a
 consistent store a session was rotated exactly if it has a successor, and its expiry never lies behind its family's.
 */
module SessionLaws {
  import opened Common
  import opened Sessions
  import opened SessionRuns
  import opened SessionProofs
  import opened SessionTheorems

  // ----- Presenting a refresh token -----

  /** The refresh token of this session, with the right secret. */
  predicate Presentable(s: Store, id: nat, secret: nat) {
    id in s.sessions && s.sessions[id].secret == secret
  }

  /** The session can be refreshed: nothing ended it, it has not run out, and its owner may use the service. */
  predicate Refreshable(s: Store, id: nat, now: Instant) {
    && id in s.sessions && s.sessions[id].revoked.None? && now < s.sessions[id].expiresAt
    && s.sessions[id].user in s.users && s.users[s.sessions[id].user].active && s.users[s.sessions[id].user].operational
  }

  /** Reading changes nothing; it decides by the row whether to rotate, to hunt a replay, or to refuse. */
  lemma ReadLaw(w: World, request: nat, id: nat, secret: nat, now: Instant, ttl: Lifetimes)
    requires StoreOk(w.store) && request !in w.flights
    ensures var t := Next(w, ReadRefresh(request, id, secret, now), ttl);
            && t.store == w.store && t.issued == w.issued
            && (Presentable(w.store, id, secret) && w.store.sessions[id].replacedBy.Some? ==>
                  t.flights == w.flights[request := Replaying(id, now)])
            && (Presentable(w.store, id, secret) && Refreshable(w.store, id, now) ==>
                  var user := w.store.sessions[id].user;
                  t.flights == w.flights[request := Rotating(id, user, w.store.users[user].version, now)])
            && (!Presentable(w.store, id, secret) || (w.store.sessions[id].replacedBy.None? && !Refreshable(w.store, id, now)) ==>
                  t.flights == w.flights)
  {
    hide ChainsOk, FamiliesOk;
    if id in w.store.sessions {
      assert RowOk(w.store, w.store.sessions[id]);
    }
  }

  /** A request that hunts a replay goes on doing so until it finishes. */
  lemma {:induction false} HuntGoesOn(worlds: seq<World>, events: seq<Event>, ttl: Lifetimes, i: nat, k: nat, request: nat)
    requires IsRun(worlds, events, ttl) && i <= k < |worlds|
    requires request in worlds[i].flights && worlds[i].flights[request].Replaying?
    requires forall m | i <= m < k :: events[m] != FinishReplay(request)
    ensures request in worlds[k].flights && worlds[k].flights[request] == worlds[i].flights[request]
    decreases k
  {
    if i < k {
      HuntGoesOn(worlds, events, ttl, i, k - 1, request);
      assert worlds[k] == Next(worlds[k - 1], events[k - 1], ttl);
      hide Register, LogIn, CreateStaff, Rotate, RevokeForReplay, LogOut, LogOutAll, ChangePassword, ChangeStaff, Read;
    }
  }

  /**
   Presenting the token of a session that has been replaced ends its family: from the moment the request finishes, whatever
   happened in between and whatever happens later, the replay is on record and no session of the family is live.
   */
  lemma ReplacedTokenEndsFamily(
      worlds: seq<World>, events: seq<Event>, ttl: Lifetimes, i: nat, k: nat, j: nat,
      request: nat, id: nat, secret: nat, now: Instant, other: nat)
    requires IsRun(worlds, events, ttl) && i < k < |events| && k < j < |worlds|
    requires events[i] == ReadRefresh(request, id, secret, now) && request !in worlds[i].flights
    requires Presentable(worlds[i].store, id, secret) && worlds[i].store.sessions[id].replacedBy.Some?
    requires events[k] == FinishReplay(request) && forall m | i < m < k :: events[m] != FinishReplay(request)
    ensures id in worlds[j].store.sessions && worlds[j].store.sessions[id].replayDetectedAt.Some?
    ensures other in worlds[j].store.sessions && worlds[j].store.sessions[other].family == worlds[i].store.sessions[id].family ==>
              worlds[j].store.sessions[other].revoked.Some?
  {
    RunKeeps(worlds, events, ttl, i);
    assert worlds[i + 1] == Next(worlds[i], events[i], ttl);
    ReadLaw(worlds[i], request, id, secret, now, ttl);
    HuntGoesOn(worlds, events, ttl, i + 1, k, request);
    NothingIsTakenBack(worlds, events, ttl, i, k);
    NothingIsTakenBack(worlds, events, ttl, k, k + 1);
    NothingIsTakenBack(worlds, events, ttl, k + 1, j);
    RunKeeps(worlds, events, ttl, k);
    assert RowLater(worlds[i].store.sessions[id], worlds[k].store.sessions[id]);
    assert RowOk(worlds[k].store, worlds[k].store.sessions[id]);
    LosingRefreshEnds(worlds, events, ttl, k);
    assert RowLater(worlds[k].store.sessions[id], worlds[k + 1].store.sessions[id]);
    assert RowLater(worlds[k + 1].store.sessions[id], worlds[j].store.sessions[id]);
    hide IsRun, Next, Later, StoreOk;
    if other in worlds[j].store.sessions && worlds[j].store.sessions[other].family == worlds[i].store.sessions[id].family {
      ReplayEndsFamilyForever(worlds, events, ttl, k + 1, j, id, other);
    }
  }

  /** The claim of a replay: it needs a successor and no earlier claim, and it raises the owner's version by one and no other's. */
  lemma ClaimLaw(s: Store, id: nat, now: Instant)
    requires StoreOk(s) && id in s.sessions
    ensures var t := RevokeForReplay(s, id, now); var row := s.sessions[id];
            if row.replacedBy.Some? && row.replayDetectedAt.None? then
              && t.users.Keys == s.users.Keys && row.user in s.users
              && t.users[row.user].version == s.users[row.user].version + 1
              && t.users[row.user].(version := s.users[row.user].version) == s.users[row.user]
              && (forall user | user in s.users && user != row.user :: t.users[user] == s.users[user])
              && t.sessions.Keys == s.sessions.Keys && t.sessions[id].replayDetectedAt == Some(now)
              && (forall other | other in s.sessions && (s.sessions[other].family != row.family || s.sessions[other].revoked.Some?) && other != id ::
                    t.sessions[other] == s.sessions[other])
              && (forall other | other in s.sessions && s.sessions[other].family == row.family && s.sessions[other].revoked.None? ::
                    t.sessions[other] == s.sessions[other].(revoked := Some(Revocation(now, ReplayFound))))
            else t == s
  {
    hide ChainsOk, FamiliesOk;
    assert RowOk(s, s.sessions[id]);
  }

  /** What a refresh with nothing in between meets: it rotates what can be used, and hunts a replay of what was replaced. */
  lemma RefreshOutcome(s: Store, id: nat, secret: nat, now: Instant)
    requires StoreOk(s)
    ensures var flight := Read(s, id, secret, now);
            && (flight.Some? && flight.value.Rotating? <==> Presentable(s, id, secret) && Refreshable(s, id, now))
            && (Presentable(s, id, secret) && s.sessions[id].replacedBy.Some? ==>
                  var t, row := RevokeForReplay(s, id, now), s.sessions[id];
                  && flight == Some(Replaying(id, now))
                  && id in t.sessions && t.sessions[id].replayDetectedAt.Some?
                  && (forall other | other in t.sessions && t.sessions[other].family == row.family :: t.sessions[other].revoked.Some?)
                  && row.user in s.users && row.user in t.users
                  && t.users[row.user].version == s.users[row.user].version + if row.replayDetectedAt.None? then 1 else 0)
  {
    hide ChainsOk;
    if id in s.sessions {
      assert RowOk(s, s.sessions[id]);
      hide FamiliesOk, RowsOk;
      if s.sessions[id].replacedBy.Some? {
        ReplayEnds(s, id, now);
        ClaimLaw(s, id, now);
        hide RevokeForReplay;
      }
    }
  }

  // ----- Opening a session -----

  /** A session as it begins: its refresh token lasts its time, but no longer than the family. */
  predicate Begins(row: Session, family: nat, user: nat, secret: nat, lasts: nat, now: Instant, familyEnds: Instant) {
    && (row.family, row.user, row.secret) == (family, user, secret)
    && row.absoluteExpiresAt == familyEnds
    && row.expiresAt <= now + lasts && row.expiresAt <= familyEnds && (row.expiresAt == now + lasts || row.expiresAt == familyEnds)
    && row.revoked.None? && row.replacedBy.None? && row.replayDetectedAt.None?
  }

  predicate OthersAlone(s: Store, t: Store, id: nat) {
    && t.sessions.Keys == s.sessions.Keys + {id}
    && forall other | other in s.sessions && other != id :: t.sessions[other] == s.sessions[other]
  }

  /** The token opens the session for as long as the session lasts. */
  ghost predicate OpensUntil(s: Store, token: AccessToken) {
    token.session in s.sessions && forall t: Instant :: Authenticates(s, token, t) <==> t < s.sessions[token.session].expiresAt
  }

  /** A login with the right password of a user who may use the service opens a session, and no other login does anything. */
  lemma LogInLaw(w: World, user: nat, password: nat, ids: NewIds, now: Instant, ttl: Lifetimes)
    requires FreshIds(w.store, ids)
    ensures var t := Next(w, DoLogIn(user, password, ids, now), ttl);
            if user in w.store.users && w.store.users[user].passwordHash == password
               && w.store.users[user].active && w.store.users[user].operational
            then
              var token := AccessToken(user, ids.session, w.store.users[user].version);
              && t.store.users == w.store.users && OthersAlone(w.store, t.store, ids.session)
              && Begins(t.store.sessions[ids.session], ids.family, user, ids.secret, ttl.refresh, now, now + ttl.absolute)
              && t.issued == w.issued + {token} && OpensUntil(t.store, token)
            else t == w
  {
  }

  /** A registration makes a user who may use the service and logs them in at once; a taken identity changes nothing. */
  lemma RegisterLaw(w: World, user: nat, hash: nat, ids: NewIds, now: Instant, ttl: Lifetimes)
    requires FreshIds(w.store, ids)
    ensures var t := Next(w, DoRegister(user, hash, ids, now), ttl);
            if user !in w.store.users
            then
              && t.store.users.Keys == w.store.users.Keys + {user} && OthersAlone(w.store, t.store, ids.session)
              && (forall other | other in w.store.users :: t.store.users[other] == w.store.users[other])
              && t.store.users[user].passwordHash == hash
              && Begins(t.store.sessions[ids.session], ids.family, user, ids.secret, ttl.refresh, now, now + ttl.absolute)
              && t.issued == w.issued + {AccessToken(user, ids.session, t.store.users[user].version)}
              && OpensUntil(t.store, AccessToken(user, ids.session, t.store.users[user].version))
            else t == w
  {
  }

  /** A member of staff is created without a session, able to log in. */
  lemma CreateStaffLaw(w: World, user: nat, hash: nat, ids: NewIds, now: Instant, ttl: Lifetimes)
    requires FreshIds(w.store, ids)
    ensures var t := Next(w, DoCreateStaff(user, hash), ttl);
            if user !in w.store.users
            then
              && t.store.users.Keys == w.store.users.Keys + {user} && t.store.sessions == w.store.sessions && t.issued == w.issued
              && (forall other | other in w.store.users :: t.store.users[other] == w.store.users[other])
              && exists token: AccessToken :: Next(t, DoLogIn(user, hash, ids, now), ttl).issued == t.issued + {token} && token.user == user
            else t == w
  {
    var t := Next(w, DoCreateStaff(user, hash), ttl);
    if user !in w.store.users {
      assert Next(t, DoLogIn(user, hash, ids, now), ttl).issued == t.issued + {AccessToken(user, ids.session, 0)};
    }
  }

  // ----- Rotating -----

  /** The session is consumed, and its successor takes over under the same end of the family. */
  predicate Rotates(s: Store, t: Store, id: nat, successor: nat, secret: nat, lasts: nat, now: Instant) {
    && id in s.sessions && t.users == s.users && t.sessions.Keys == s.sessions.Keys + {successor}
    && (forall other | other in s.sessions && other != id :: t.sessions[other] == s.sessions[other])
    && t.sessions[id].revoked == Some(Revocation(now, Rotated)) && t.sessions[id].replacedBy == Some(successor)
    && t.sessions[id].(revoked := None, replacedBy := None) == s.sessions[id]
    && Begins(t.sessions[successor], s.sessions[id].family, s.sessions[id].user, secret, lasts, now, s.sessions[id].absoluteExpiresAt)
  }

  lemma CanRotateIff(s: Store, id: nat, successor: nat, now: Instant)
    requires StoreOk(s) && id in s.sessions
    ensures CanRotate(s, id, successor, now) <==>
            successor !in s.sessions && s.sessions[id].revoked.None? && now < s.sessions[id].expiresAt
    ensures s.sessions[id].revoked.None? ==> s.sessions[id].replacedBy.None?
  {
    hide FamiliesOk;
    assert RowOk(s, s.sessions[id]);
  }

  lemma RotateEffect(s: Store, id: nat, successor: nat, secret: nat, ttl: Lifetimes, now: Instant)
    requires CanRotate(s, id, successor, now) && s.sessions[id].replacedBy.None?
    ensures Rotates(s, Rotate(s, id, successor, secret, ttl, now), id, successor, secret, ttl.refresh, now)
  {
  }

  lemma NewTokenOpens(s: Store, t: Store, id: nat, successor: nat, secret: nat, lasts: nat, now: Instant, token: AccessToken)
    requires Rotates(s, t, id, successor, secret, lasts, now) && token.session == successor && token.user == s.sessions[id].user
    requires token.user in s.users && s.users[token.user].version == token.version
    requires s.users[token.user].active && s.users[token.user].operational
    ensures OpensUntil(t, token)
  {
  }

  lemma CommitOutcome(w: World, request: nat, successor: nat, secret: nat, conflict: bool, ttl: Lifetimes)
    requires request in w.flights && w.flights[request].Rotating?
    ensures var t := Next(w, CommitRotation(request, successor, secret, conflict), ttl); var flight := w.flights[request];
            if successor in w.store.sessions then t == w.(flights := w.flights - {request})
            else if conflict || !CanRotate(w.store, flight.session, successor, flight.now)
            then t == w.(flights := w.flights[request := Replaying(flight.session, flight.now)])
            else t == World(Rotate(w.store, flight.session, successor, secret, ttl, flight.now), w.flights - {request},
                            w.issued + {AccessToken(flight.user, successor, flight.version)})
  {
    hide CanRotate, Rotate;
  }

  /**
   The commit of a refresh that read this session as its owner's. It goes through if the session can still be used and
   there is no conflict; then the session is rotated, and the token carries the version that was read, so it opens the new
   session unless the version was raised meanwhile. A clash of the new identifier ends the request; otherwise it hunts a replay.
   */
  lemma RotationLaw(w: World, request: nat, successor: nat, secret: nat, conflict: bool, ttl: Lifetimes)
    requires StoreOk(w.store) && request in w.flights && w.flights[request].Rotating? && FlightOk(w.store, w.flights[request])
    ensures var t := Next(w, CommitRotation(request, successor, secret, conflict), ttl);
            var flight := w.flights[request]; var row := w.store.sessions[flight.session]; var owner := w.store.users[flight.user];
            if successor in w.store.sessions then t == w.(flights := w.flights - {request})
            else if conflict || row.revoked.Some? || row.expiresAt <= flight.now
            then t == w.(flights := w.flights[request := Replaying(flight.session, flight.now)])
            else
              && t.flights == w.flights - {request}
              && Rotates(w.store, t.store, flight.session, successor, secret, ttl.refresh, flight.now)
              && t.issued == w.issued + {AccessToken(flight.user, successor, flight.version)}
              && (owner.version == flight.version && owner.active && owner.operational ==>
                    OpensUntil(t.store, AccessToken(flight.user, successor, flight.version)))
  {
    var t, flight := Next(w, CommitRotation(request, successor, secret, conflict), ttl), w.flights[request];
    CanRotateIff(w.store, flight.session, successor, flight.now);
    CommitOutcome(w, request, successor, secret, conflict, ttl);
    hide Next, StoreOk, CanRotate, Rotate, Rotates, OpensUntil;
    if CanRotate(w.store, flight.session, successor, flight.now) && !conflict {
      RotateEffect(w.store, flight.session, successor, secret, ttl, flight.now);
      var owner := w.store.users[flight.user];
      if owner.version == flight.version && owner.active && owner.operational {
        NewTokenOpens(w.store, t.store, flight.session, successor, secret, ttl.refresh, flight.now,
                      AccessToken(flight.user, successor, flight.version));
      }
    }
  }

  // ----- Ending sessions -----

  /** Of this user no session is left that was live; each was ended now for this reason, and nobody else's changed. */
  predicate EndsSessionsOf(s: Store, t: Store, user: nat, reason: Reason, now: Instant) {
    && t.sessions.Keys == s.sessions.Keys
    && (forall id | id in s.sessions && s.sessions[id].user == user && s.sessions[id].revoked.None? ::
          t.sessions[id] == s.sessions[id].(revoked := Some(Revocation(now, reason))))
    && (forall id | id in s.sessions && (s.sessions[id].user != user || s.sessions[id].revoked.Some?) :: t.sessions[id] == s.sessions[id])
  }

  /** Only this user's row changes, and its version goes up by one. */
  predicate RaisesVersion(s: Store, t: Store, user: nat) {
    && user in s.users && t.users.Keys == s.users.Keys && t.users[user].version == s.users[user].version + 1
    && forall other | other in s.users && other != user :: t.users[other] == s.users[other]
  }

  /** The right token ends its own live session and nothing else; any other token changes nothing. */
  lemma LogOutLaw(s: Store, id: nat, secret: nat, now: Instant)
    ensures var t := LogOut(s, id, secret, now);
            if Presentable(s, id, secret) && s.sessions[id].revoked.None?
            then
              && t.users == s.users && OthersAlone(s, t, id)
              && t.sessions[id] == s.sessions[id].(revoked := Some(Revocation(now, LoggedOut)))
              && !exists token: AccessToken, at :: token.session == id && Authenticates(t, token, at)
            else t == s
  {
  }

  lemma LogOutAllLaw(s: Store, user: nat, now: Instant)
    requires user in s.users
    ensures var t := LogOutAll(s, user, now);
            && EndsSessionsOf(s, t, user, LoggedOutAll, now) && RaisesVersion(s, t, user)
            && t.users[user].(version := s.users[user].version) == s.users[user]
  {
  }

  /**
   A password change goes through if the user is active and the stored hash is still the one that was checked. Then the
   new password logs in, the old one does not, every session of the user ends, and so does every token.
   */
  lemma ChangePasswordLaw(s: Store, user: nat, checked: nat, newHash: nat, now: Instant)
    ensures var t := ChangePassword(s, user, checked, newHash, now);
            if user in s.users && s.users[user].active && s.users[user].passwordHash == checked
            then
              && EndsSessionsOf(s, t, user, LoggedOutAll, now) && RaisesVersion(s, t, user)
              && t.users[user] == User(newHash, s.users[user].version + 1, true, s.users[user].operational)
              && (forall ids | FreshIds(t, ids) :: CanLogIn(t, user, newHash, ids) <==> s.users[user].operational)
              && (checked != newHash ==> forall ids :: !CanLogIn(t, user, checked, ids))
              && !exists token: AccessToken, at :: token.user == user && Authenticates(t, token, at)
            else t == s
  {
  }

  /** After a change of access every session of that member of staff has ended, whatever the new access is. */
  lemma ChangeStaffLaw(s: Store, user: nat, active: bool, operational: bool, now: Instant)
    requires user in s.users
    ensures var t := ChangeStaff(s, user, active, operational, now);
            && EndsSessionsOf(s, t, user, AdminRevoked, now) && RaisesVersion(s, t, user)
            && t.users[user] == User(s.users[user].passwordHash, s.users[user].version + 1, active, operational)
            && !exists token: AccessToken, at :: token.user == user && Authenticates(t, token, at)
  {
  }

  /**
   Which tokens open a session on a consistent store: the one that names a session's owner and the owner's version,
   while nothing ended the session and its refresh token has not run out.
   */
  lemma AuthenticationLaw(s: Store, token: AccessToken, now: Instant)
    requires StoreOk(s)
    ensures Authenticates(s, token, now) <==>
            && Refreshable(s, token.session, now)
            && token == AccessToken(s.sessions[token.session].user, token.session, s.users[s.sessions[token.session].user].version)
  {
    hide ChainsOk, FamiliesOk;
    if token.session in s.sessions {
      assert RowOk(s, s.sessions[token.session]);
    }
  }
}
