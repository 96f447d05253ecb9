/**
 Login sessions and their refresh tokens (auth/service.ts, and the session invalidation of
 admin/service.ts). A `Store` is the committed database; each function is one transaction.

 Hashing is abstract: a password hash or token hash is a number, and a token matches when the
 numbers are equal. Identifiers generated at random are arguments, and a clash with an existing
 row is refused as the primary key would refuse it. `chains` and `origins` are history: the order
 in which a family's sessions replaced one another, and the user and password hash of its first login. No transaction reads them.
 */
module Sessions {
  import opened Common

  datatype Reason = LoggedOut | LoggedOutAll | Rotated | ReplayFound | AdminRevoked

  datatype Revocation = Revocation(at: Instant, reason: Reason)

  datatype Session = Session(
    family: nat,
    user: nat,
    secret: nat,
    expiresAt: Instant,
    absoluteExpiresAt: Instant,
    revoked: Option<Revocation>,
    replacedBy: Option<nat>,
    replayDetectedAt: Option<Instant>)

  /** `operational` is hasOperationalAccess: always true of senders, and of staff with an active profile. */
  datatype User = User(passwordHash: nat, version: nat, active: bool, operational: bool)

  /** Whose family it is, and the password hash it began with. */
  datatype Origin = Origin(user: nat, hash: nat)

  datatype Store = Store(
    users: map<nat, User>,
    sessions: map<nat, Session>,
    chains: map<nat, seq<nat>>,
    origins: map<nat, Origin>)

  /** What an access token says. */
  datatype AccessToken = AccessToken(user: nat, session: nat, version: nat)

  datatype Lifetimes = Lifetimes(refresh: nat, absolute: nat)

  datatype NewIds = NewIds(session: nat, family: nat, secret: nat)

  predicate Live(session: Session) {
    session.revoked.None?
  }

  predicate WasRotated(session: Session) {
    session.revoked.Some? && session.revoked.value.reason == Rotated
  }

  predicate InTime(session: Session, now: Instant) {
    session.expiresAt > now && session.absoluteExpiresAt > now
  }

  function Earlier(a: Instant, b: Instant): Instant {
    if a <= b then a else b
  }

  /** prepareSession: a refresh token lasts at most until its family's absolute expiry. */
  function NewSession(ids: NewIds, user: nat, absolute: Instant, ttl: Lifetimes, now: Instant): Session {
    Session(ids.family, user, ids.secret, Earlier(now + ttl.refresh, absolute), absolute, None, None, None)
  }

  /** The first session of a new family. */
  function OpenFamily(s: Store, ids: NewIds, user: nat, hash: nat, ttl: Lifetimes, now: Instant): Store {
    s.(sessions := s.sessions[ids.session := NewSession(ids, user, now + ttl.absolute, ttl, now)],
       chains := s.chains[ids.family := [ids.session]],
       origins := s.origins[ids.family := Origin(user, hash)])
  }

  predicate FreshIds(s: Store, ids: NewIds) {
    ids.session !in s.sessions && ids.family !in s.chains
  }

  predicate CanRegister(s: Store, user: nat, ids: NewIds) {
    user !in s.users && FreshIds(s, ids)
  }

  /** registerSender, once admitted. */
  function Register(s: Store, user: nat, hash: nat, ids: NewIds, ttl: Lifetimes, now: Instant): Store {
    if !CanRegister(s, user, ids) then s
    else OpenFamily(s.(users := s.users[user := User(hash, 0, true, true)]), ids, user, hash, ttl, now)
  }

  /** createStaff. */
  function CreateStaff(s: Store, user: nat, hash: nat): Store {
    if user in s.users then s else s.(users := s.users[user := User(hash, 0, true, true)])
  }

  predicate CanLogIn(s: Store, user: nat, password: nat, ids: NewIds) {
    && user in s.users && s.users[user].active && s.users[user].operational
    && s.users[user].passwordHash == password && FreshIds(s, ids)
  }

  /** login, once admitted: the password is checked and the session created in one transaction. */
  function LogIn(s: Store, user: nat, password: nat, ids: NewIds, ttl: Lifetimes, now: Instant): Store {
    if !CanLogIn(s, user, password, ids) then s
    else OpenFamily(s, ids, user, password, ttl, now)
  }

  /** The guarded update of refresh: the old session is still unrevoked and in time. */
  predicate CanRotate(s: Store, id: nat, successor: nat, now: Instant) {
    && id in s.sessions && Live(s.sessions[id]) && InTime(s.sessions[id], now)
    && successor !in s.sessions && s.sessions[id].family in s.chains
  }

  /** The transaction of refresh: consume the old session, create the new one, link them. */
  function Rotate(s: Store, id: nat, successor: nat, secret: nat, ttl: Lifetimes, now: Instant): Store
    requires CanRotate(s, id, successor, now)
  {
    var previous := s.sessions[id];
    var consumed := previous.(revoked := Some(Revocation(now, Rotated)), replacedBy := Some(successor));
    var created := NewSession(NewIds(successor, previous.family, secret), previous.user, previous.absoluteExpiresAt, ttl, now);
    s.(sessions := s.sessions[id := consumed][successor := created],
       chains := s.chains[previous.family := s.chains[previous.family] + [successor]])
  }

  /** updateMany over the unrevoked sessions of a family. */
  function RevokeFamily(sessions: map<nat, Session>, family: nat, now: Instant): map<nat, Session> {
    map id | id in sessions ::
      if sessions[id].family == family && Live(sessions[id])
      then sessions[id].(revoked := Some(Revocation(now, ReplayFound))) else sessions[id]
  }

  /** updateMany over the unrevoked sessions of a user. */
  function RevokeUser(sessions: map<nat, Session>, user: nat, reason: Reason, now: Instant): map<nat, Session> {
    map id | id in sessions ::
      if sessions[id].user == user && Live(sessions[id])
      then sessions[id].(revoked := Some(Revocation(now, reason))) else sessions[id]
  }

  function BumpVersion(users: map<nat, User>, user: nat): map<nat, User>
    requires user in users
  {
    users[user := users[user].(version := users[user].version + 1)]
  }

  /** The claim of revokeFamilyForReplay. */
  predicate ClaimsReplay(s: Store, id: nat) {
    id in s.sessions && WasRotated(s.sessions[id]) && s.sessions[id].replayDetectedAt.None? && s.sessions[id].user in s.users
  }

  function RevokeForReplay(s: Store, id: nat, now: Instant): Store {
    if !ClaimsReplay(s, id) then s
    else
      var marked := s.sessions[id := s.sessions[id].(replayDetectedAt := Some(now))];
      s.(sessions := RevokeFamily(marked, s.sessions[id].family, now), users := BumpVersion(s.users, s.sessions[id].user))
  }

  /** logout ignores a token whose secret is not the session's. */
  function LogOut(s: Store, id: nat, secret: nat, now: Instant): Store {
    if id !in s.sessions || s.sessions[id].secret != secret || !Live(s.sessions[id]) then s
    else s.(sessions := s.sessions[id := s.sessions[id].(revoked := Some(Revocation(now, LoggedOut)))])
  }

  function LogOutAll(s: Store, user: nat, now: Instant): Store {
    if user !in s.users then s
    else s.(sessions := RevokeUser(s.sessions, user, LoggedOutAll, now), users := BumpVersion(s.users, user))
  }

  /** The guarded update of changePassword: the stored hash is still the one the old password was checked against. */
  predicate CanChangePassword(s: Store, user: nat, checked: nat) {
    user in s.users && s.users[user].active && s.users[user].passwordHash == checked
  }

  function ChangePassword(s: Store, user: nat, checked: nat, newHash: nat, now: Instant): Store {
    if !CanChangePassword(s, user, checked) then s
    else
      s.(users := BumpVersion(s.users, user)[user := BumpVersion(s.users, user)[user].(passwordHash := newHash)],
         sessions := RevokeUser(s.sessions, user, LoggedOutAll, now))
  }

  /** updateStaff, grantCapability and revokeCapability all end in invalidateStaffSessions. */
  function ChangeStaff(s: Store, user: nat, active: bool, operational: bool, now: Instant): Store {
    if user !in s.users then s
    else
      s.(users := BumpVersion(s.users, user)[user :=
                    BumpVersion(s.users, user)[user].(active := active, operational := operational)],
         sessions := RevokeUser(s.sessions, user, AdminRevoked, now))
  }

  /** authenticate: does this access token, itself valid, still open a session? */
  predicate Authenticates(s: Store, token: AccessToken, now: Instant) {
    && token.session in s.sessions
    && s.sessions[token.session].user == token.user
    && Live(s.sessions[token.session])
    && InTime(s.sessions[token.session], now)
    && token.user in s.users
    && s.users[token.user].active && s.users[token.user].operational
    && s.users[token.user].version == token.version
  }
}
