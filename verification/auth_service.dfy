/**
 The session service as it runs (auth/service.ts and the session part of admin/service.ts): one
 method per transaction, updating the rows statement by statement. Every method keeps the invariant of
 the store, takes nothing back, and does to the database exactly what its function in `Sessions` says.
 */
module AuthServices {
  import opened Common
  import opened Sessions
  import opened SessionRuns
  import opened SessionProofs
  import opened SessionLaws

  class AuthService {
    const ttl: Lifetimes
    var users: map<nat, User>
    var sessions: map<nat, Session>
    ghost var chains: map<nat, seq<nat>>
    ghost var origins: map<nat, Origin>

    /** The invariant of the store. It holds before and after every transaction, so after any sequence of calls whatever. */
    ghost predicate Valid()
      reads this
    {
      StoreOk(Rows())
    }

    constructor (ttl: Lifetimes)
      ensures Valid() && Rows() == EMPTY.store && this.ttl == ttl
    {
      this.ttl := ttl;
      users, sessions, chains, origins := map[], map[], map[], map[];
    }

    /** The committed database. */
    ghost function Rows(): Store
      reads this
    {
      Store(users, sessions, chains, origins)
    }

    /** The insert shared by registerSender and login, which closes their transactions. */
    method CreateSession(ids: NewIds, user: nat, hash: nat, now: Instant)
      requires Valid() && FreshIds(Rows(), ids) && user in users && users[user].passwordHash == hash
      modifies this`sessions, this`chains, this`origins
      ensures Valid() && Later(old(Rows()), Rows())
      ensures Rows() == OpenFamily(old(Rows()), ids, user, hash, ttl, now)
    {
      hide ChainsOk, RowsOk, FamiliesOk, UsersLater, SessionsLater, HistoryLater;
      OpenFamilyKeeps(Rows(), ids, user, hash, ttl, now);
      hide StoreOk, Later;
      var absoluteExpiresAt := now + ttl.absolute;
      var expiresAt := now + ttl.refresh;
      if absoluteExpiresAt < expiresAt {
        expiresAt := absoluteExpiresAt;
      }
      sessions := sessions[ids.session :=
        Session(ids.family, user, ids.secret, expiresAt, absoluteExpiresAt, None, None, None)];
      chains := chains[ids.family := [ids.session]];
      origins := origins[ids.family := Origin(user, hash)];
    }

    method RegisterSender(user: nat, hash: nat, ids: NewIds, now: Instant) returns (token: Option<AccessToken>)
      requires ids.family !in chains
      requires Valid()
      modifies this
      ensures Valid() && Later(old(Rows()), Rows())
      ensures Rows() == Register(old(Rows()), user, hash, ids, ttl, now)
      ensures token == if CanRegister(old(Rows()), user, ids) then Some(AccessToken(user, ids.session, 0)) else None
    {
      hide ChainsOk, RowsOk, FamiliesOk, UsersLater, SessionsLater, HistoryLater;
      RegisterKeeps(Rows(), user, hash, ids, ttl, now);
      hide StoreOk, Later;
      if user in users || ids.session in sessions {
        return None;
      }
      AddUserKeeps(Rows(), user, hash);
      users := users[user := User(hash, 0, true, true)];
      CreateSession(ids, user, hash, now);
      token := Some(AccessToken(user, ids.session, 0));
    }

    method Login(user: nat, password: nat, ids: NewIds, now: Instant) returns (token: Option<AccessToken>)
      requires ids.family !in chains
      requires Valid()
      modifies this
      ensures Valid() && Later(old(Rows()), Rows())
      ensures Rows() == LogIn(old(Rows()), user, password, ids, ttl, now)
      ensures token ==
              if CanLogIn(old(Rows()), user, password, ids)
              then Some(AccessToken(user, ids.session, old(users)[user].version)) else None
    {
      hide ChainsOk, RowsOk, FamiliesOk, UsersLater, SessionsLater, HistoryLater;
      LogInKeeps(Rows(), user, password, ids, ttl, now);
      hide StoreOk, Later;
      if user !in users {
        return None;
      }
      var row := users[user];
      var passwordMatches := row.passwordHash == password;
      if !row.active || !row.operational || !passwordMatches || ids.session in sessions {
        return None;
      }
      CreateSession(ids, user, password, now);
      token := Some(AccessToken(user, ids.session, row.version));
    }

    /** The first half of refresh: read the session and decide, committing nothing. */
    method ReadForRefresh(session: nat, secret: nat, now: Instant) returns (flight: Option<Flight>)
      requires Valid()
      ensures flight == Read(Rows(), session, secret, now)
    {
      if session !in sessions || sessions[session].secret != secret || sessions[session].user !in users {
        return None;
      }
      var existing := sessions[session];
      var owner := users[existing.user];
      if existing.revoked.Some? || existing.expiresAt <= now || existing.absoluteExpiresAt <= now
         || !owner.active || !owner.operational
      {
        if existing.revoked.Some? && existing.revoked.value.reason == Rotated {
          return Some(Replaying(session, now));
        }
        return None;
      }
      flight := Some(Rotating(session, existing.user, owner.version, now));
    }

    /** The second half: consume the old session under guard, create its successor, link the two. */
    method ConsumeAndReplace(session: nat, successor: nat, secret: nat, now: Instant) returns (replaced: bool)
      requires Valid()
      modifies this
      ensures Valid() && Later(old(Rows()), Rows())
      ensures replaced <==> CanRotate(old(Rows()), session, successor, now)
      ensures replaced ==> Rows() == Rotate(old(Rows()), session, successor, secret, ttl, now)
      ensures !replaced ==> Rows() == old(Rows())
    {
      hide ChainsOk, RowsOk, FamiliesOk, UsersLater, SessionsLater, HistoryLater;
      if CanRotate(Rows(), session, successor, now) {
        RotateKeeps(Rows(), session, successor, secret, ttl, now);
      }
      LaterReflexive(Rows());
      if session in sessions {
        RowLinks(Rows(), session);
      }
      hide StoreOk, Later;
      if session !in sessions || successor in sessions {
        return false;
      }
      var existing := sessions[session];
      if existing.revoked.Some? || !(existing.expiresAt > now) || !(existing.absoluteExpiresAt > now) {
        return false;
      }
      sessions := sessions[session := existing.(revoked := Some(Revocation(now, Rotated)))];
      var expiresAt := now + ttl.refresh;
      if existing.absoluteExpiresAt < expiresAt {
        expiresAt := existing.absoluteExpiresAt;
      }
      sessions := sessions[successor :=
        Session(existing.family, existing.user, secret, expiresAt, existing.absoluteExpiresAt, None, None, None)];
      sessions := sessions[session := sessions[session].(replacedBy := Some(successor))];
      chains := chains[existing.family := chains[existing.family] + [successor]];
      assert sessions == Rotate(old(Rows()), session, successor, secret, ttl, now).sessions;
      replaced := true;
    }

    /** Claim the replay once, revoke what is left of the family, and refuse its user's access tokens. */
    method RevokeFamilyForReplay(session: nat, now: Instant)
      requires Valid()
      modifies this`sessions, this`users
      ensures Valid() && Later(old(Rows()), Rows())
      ensures Rows() == RevokeForReplay(old(Rows()), session, now)
    {
      hide ChainsOk, RowsOk, FamiliesOk, UsersLater, SessionsLater, HistoryLater;
      ReplayKeeps(Rows(), session, now);
      if session in sessions {
        RowLinks(Rows(), session);
      }
      hide StoreOk, Later;
      if session !in sessions {
        return;
      }
      var row := sessions[session];
      if !(row.revoked.Some? && row.revoked.value.reason == Rotated) || row.replayDetectedAt.Some? {
        return;
      }
      sessions := sessions[session := row.(replayDetectedAt := Some(now))];
      sessions := RevokeFamily(sessions, row.family, now);
      users := users[row.user := users[row.user].(version := users[row.user].version + 1)];
    }

    /**
     The whole refresh with nothing in between; `conflict` is a serialization failure of its second transaction.
     A live session in time is replaced, a rotated one costs its family, and any other is refused.
     */
    method Refresh(session: nat, secret: nat, successor: nat, newSecret: nat, now: Instant, conflict: bool)
      returns (token: Option<AccessToken>)
      requires Valid()
      modifies this
      ensures Valid() && Later(old(Rows()), Rows())
      ensures match Read(old(Rows()), session, secret, now)
              case None => Rows() == old(Rows()) && token == None
              case Some(Replaying(_, _)) => Rows() == RevokeForReplay(old(Rows()), session, now) && token == None
              case Some(Rotating(_, user, version, _)) =>
                if successor in old(sessions) || conflict then Rows() == old(Rows()) && token == None
                else
                  && Rows() == Rotate(old(Rows()), session, successor, newSecret, ttl, now)
                  && token == Some(AccessToken(user, successor, version))
      // A token comes back exactly for a session that can be used.
      ensures token.Some? <==>
              && session in old(sessions) && old(sessions)[session].secret == secret && Refreshable(old(Rows()), session, now)
              && successor !in old(sessions) && !conflict
      // The right secret of a replaced session leaves nothing of its family, and raises the version unless that was done before.
      ensures session in old(sessions) && old(sessions)[session].secret == secret && old(sessions)[session].replacedBy.Some? ==>
                var row := old(sessions)[session];
                && session in sessions && sessions[session].replayDetectedAt.Some?
                && (forall id | id in sessions && sessions[id].family == row.family :: sessions[id].revoked.Some?)
                && row.user in old(users) && row.user in users
                && users[row.user].version == old(users)[row.user].version + if row.replayDetectedAt.None? then 1 else 0
    {
      RefreshOutcome(Rows(), session, secret, now);
      hide ChainsOk, RowsOk, FamiliesOk, UsersLater, SessionsLater, HistoryLater;
      LaterReflexive(Rows());
      if session in sessions {
        RowLinks(Rows(), session);
      }
      hide StoreOk, Later;
      token := None;
      var flight := ReadForRefresh(session, secret, now);
      if flight.None? || successor in sessions {
        if flight.Some? && flight.value.Replaying? {
          RevokeFamilyForReplay(session, now);
        }
        return;
      }
      var replaced := false;
      if flight.value.Rotating? && !conflict {
        replaced := ConsumeAndReplace(session, successor, newSecret, now);
      }
      if replaced {
        token := Some(AccessToken(flight.value.user, successor, flight.value.version));
      } else {
        RevokeFamilyForReplay(session, now);
      }
    }

    method Logout(session: nat, secret: nat, now: Instant)
      requires Valid()
      modifies this`sessions
      ensures Valid() && Later(old(Rows()), Rows())
      ensures Rows() == LogOut(old(Rows()), session, secret, now)
    {
      hide ChainsOk, RowsOk, FamiliesOk, UsersLater, SessionsLater, HistoryLater;
      LogOutKeeps(Rows(), session, secret, now);
      hide StoreOk, Later;
      if session !in sessions || sessions[session].secret != secret || sessions[session].revoked.Some? {
        return;
      }
      sessions := sessions[session := sessions[session].(revoked := Some(Revocation(now, LoggedOut)))];
    }

    method LogoutAll(user: nat, now: Instant)
      requires user in users
      requires Valid()
      modifies this`sessions, this`users
      ensures Valid() && Later(old(Rows()), Rows())
      ensures Rows() == LogOutAll(old(Rows()), user, now)
    {
      hide ChainsOk, RowsOk, FamiliesOk, UsersLater, SessionsLater, HistoryLater;
      LogOutAllKeeps(Rows(), user, now);
      hide StoreOk, Later;
      sessions := RevokeUser(sessions, user, LoggedOutAll, now);
      users := users[user := users[user].(version := users[user].version + 1)];
    }

    method ChangeUserPassword(user: nat, checked: nat, newHash: nat, now: Instant) returns (changed: bool)
      requires Valid()
      modifies this`sessions, this`users
      ensures Valid() && Later(old(Rows()), Rows())
      ensures changed <==> CanChangePassword(old(Rows()), user, checked)
      ensures Rows() == ChangePassword(old(Rows()), user, checked, newHash, now)
    {
      hide ChainsOk, RowsOk, FamiliesOk, UsersLater, SessionsLater, HistoryLater;
      ChangePasswordKeeps(Rows(), user, checked, newHash, now);
      hide StoreOk, Later;
      if user !in users || !users[user].active || users[user].passwordHash != checked {
        return false;
      }
      users := users[user := users[user].(passwordHash := newHash, version := users[user].version + 1)];
      assert users == ChangePassword(old(Rows()), user, checked, newHash, now).users;
      sessions := RevokeUser(sessions, user, LoggedOutAll, now);
      changed := true;
    }

    /** updateStaff and the two capability changes: the new access, then invalidateStaffSessions. */
    method ChangeStaffAccess(user: nat, active: bool, operational: bool, now: Instant)
      requires user in users
      requires Valid()
      modifies this`sessions, this`users
      ensures Valid() && Later(old(Rows()), Rows())
      ensures Rows() == ChangeStaff(old(Rows()), user, active, operational, now)
    {
      hide ChainsOk, RowsOk, FamiliesOk, UsersLater, SessionsLater, HistoryLater;
      ChangeStaffKeeps(Rows(), user, active, operational, now);
      hide StoreOk, Later;
      users := users[user := users[user].(active := active, operational := operational)];
      users := users[user := users[user].(version := users[user].version + 1)];
      assert users == ChangeStaff(old(Rows()), user, active, operational, now).users;
      sessions := RevokeUser(sessions, user, AdminRevoked, now);
    }

    /** An accepted token belongs to the last session of its family, which began under the password stored now. */
    method Authenticate(token: AccessToken, now: Instant) returns (accepted: bool)
      requires Valid()
      ensures accepted <==> Authenticates(Rows(), token, now)
      ensures accepted ==>
                var row := sessions[token.session];
                && row.replacedBy == None && row.family in origins
                && origins[row.family] == Origin(token.user, users[token.user].passwordHash)
    {
      if token.session in sessions {
        assert RowOk(Rows(), sessions[token.session]);
      }
      if token.session !in sessions {
        return false;
      }
      var session := sessions[token.session];
      if session.user != token.user || session.user !in users {
        return false;
      }
      var owner := users[session.user];
      accepted := session.revoked.None? && session.expiresAt > now && session.absoluteExpiresAt > now
        && owner.active && owner.operational && owner.version == token.version;
    }
  }
}
