/**
 What every interleaving of the session service keeps, and what it never takes back.
 */
module SessionProofs {
  import opened Common
  import opened Sessions
  import opened SessionRuns

  // ----- The invariant -----

  /** A family is one chain: each session but the last is replaced by the next one, and the last by none. */
  predicate ChainOk(sessions: map<nat, Session>, family: nat, chain: seq<nat>) {
    && chain != []
    && (forall k | 0 <= k < |chain| :: chain[k] in sessions && sessions[chain[k]].family == family)
    && (forall j, k | 0 <= j < k < |chain| :: chain[j] != chain[k])
    && (forall k | 0 < k < |chain| :: sessions[chain[k - 1]].replacedBy == Some(chain[k]))
    && sessions[chain[|chain| - 1]].replacedBy == None
  }

  /** Every family is a chain and every session is a link of its family's chain. */
  predicate ChainsOk(s: Store) {
    && s.origins.Keys == s.chains.Keys
    && (forall family | family in s.chains :: ChainOk(s.sessions, family, s.chains[family]))
    && (forall id | id in s.sessions :: s.sessions[id].family in s.chains && id in s.chains[s.sessions[id].family])
  }

  /** A live session's family began with the password hash its user has now. */
  predicate RowOk(s: Store, row: Session) {
    && row.user in s.users
    && (row.replacedBy.Some? <==> WasRotated(row))
    && row.expiresAt <= row.absoluteExpiresAt
    && (row.replayDetectedAt.Some? ==> WasRotated(row))
    && row.family in s.origins && s.origins[row.family].user == row.user
    && (Live(row) ==> s.origins[row.family].hash == s.users[row.user].passwordHash)
  }

  predicate RowsOk(s: Store) {
    forall id | id in s.sessions :: RowOk(s, s.sessions[id])
  }

  predicate SameFamilyOk(a: Session, b: Session) {
    && a.absoluteExpiresAt == b.absoluteExpiresAt
    && a.user == b.user
    && (a.replayDetectedAt.Some? ==> !Live(b))
  }

  predicate FamiliesOk(s: Store) {
    forall a, b | a in s.sessions && b in s.sessions && s.sessions[a].family == s.sessions[b].family ::
      SameFamilyOk(s.sessions[a], s.sessions[b])
  }

  predicate StoreOk(s: Store) {
    ChainsOk(s) && RowsOk(s) && FamiliesOk(s)
  }

  predicate FlightOk(s: Store, flight: Flight) {
    && flight.session in s.sessions
    && (flight.Rotating? ==>
          && flight.user == s.sessions[flight.session].user && flight.user in s.users
          && flight.version <= s.users[flight.user].version)
  }

  predicate FlightsOk(w: World) {
    forall request | request in w.flights :: FlightOk(w.store, w.flights[request])
  }

  /** No access token carries a version its user has not had yet. */
  predicate IssuedOk(w: World) {
    forall token | token in w.issued ::
      token.user in w.store.users && token.version <= w.store.users[token.user].version
  }

  predicate Inv(w: World) {
    StoreOk(w.store) && FlightsOk(w) && IssuedOk(w)
  }

  // ----- What no step takes back -----

  /** How one row may change: never its identity or its expiry, and a revocation, a successor or a detected replay is for good. */
  predicate RowLater(a: Session, b: Session) {
    && (b.family, b.user, b.secret, b.expiresAt, b.absoluteExpiresAt) ==
       (a.family, a.user, a.secret, a.expiresAt, a.absoluteExpiresAt)
    && (!Live(a) ==> b.revoked == a.revoked)
    && (a.replacedBy.Some? ==> b.replacedBy == a.replacedBy)
    && (a.replayDetectedAt.Some? ==> b.replayDetectedAt == a.replayDetectedAt)
  }

  predicate UsersLater(s: Store, t: Store) {
    forall user | user in s.users :: user in t.users && s.users[user].version <= t.users[user].version
  }

  predicate SessionsLater(s: Store, t: Store) {
    forall id | id in s.sessions :: id in t.sessions && RowLater(s.sessions[id], t.sessions[id])
  }

  predicate HistoryLater(s: Store, t: Store) {
    && (forall family | family in s.chains :: family in t.chains && s.chains[family] <= t.chains[family])
    && (forall family | family in s.origins :: family in t.origins && s.origins[family] == t.origins[family])
  }

  predicate Later(s: Store, t: Store) {
    UsersLater(s, t) && SessionsLater(s, t) && HistoryLater(s, t)
  }

  lemma LaterReflexive(s: Store)
    ensures Later(s, s)
  {
  }

  // ----- The three ways a store changes -----

  /** Revoking, flagging and changing users: no session appears, and no chain moves. */
  predicate Dims(s: Store, t: Store) {
    && t.sessions.Keys == s.sessions.Keys
    && t.chains == s.chains && t.origins == s.origins
    && UsersLater(s, t)
    && (forall id | id in s.sessions :: RowDims(s, t, s.sessions[id], t.sessions[id]))
  }

  predicate RowDims(s: Store, t: Store, a: Session, b: Session) {
    && RowLater(a, b) && b.replacedBy == a.replacedBy
    && (WasRotated(b) <==> WasRotated(a))
    && (b.replayDetectedAt.Some? ==> WasRotated(b))
    && (Live(b) && a.user in s.users ==>
          a.user in t.users && t.users[a.user].passwordHash == s.users[a.user].passwordHash)
  }

  /** A family in which this change detects a replay has no live session left. */
  predicate FlaggedDie(s: Store, t: Store)
    requires Dims(s, t)
  {
    forall a, b | a in s.sessions && b in s.sessions && s.sessions[a].family == s.sessions[b].family ::
      t.sessions[a].replayDetectedAt != s.sessions[a].replayDetectedAt ==> !Live(t.sessions[b])
  }

  lemma RowUsers(s: Store)
    requires RowsOk(s)
    ensures forall id | id in s.sessions :: s.sessions[id].user in s.users
  {
    forall id | id in s.sessions ensures s.sessions[id].user in s.users {
      assert RowOk(s, s.sessions[id]);
    }
  }

  /** A chain only looks at the families and successors of its own links. */
  lemma ChainFrame(sessions: map<nat, Session>, later: map<nat, Session>, family: nat, chain: seq<nat>)
    requires ChainOk(sessions, family, chain)
    requires forall k | 0 <= k < |chain| ::
               && chain[k] in later && later[chain[k]].family == family
               && later[chain[k]].replacedBy == sessions[chain[k]].replacedBy
    ensures ChainOk(later, family, chain)
  {
  }

  lemma ChainGrows(sessions: map<nat, Session>, later: map<nat, Session>, family: nat, chain: seq<nat>, successor: nat)
    requires ChainOk(sessions, family, chain) && successor !in sessions
    requires successor in later && later[successor].family == family && later[successor].replacedBy == None
    requires forall k | 0 <= k < |chain| ::
               && chain[k] in later && later[chain[k]].family == family
               && later[chain[k]].replacedBy == if k == |chain| - 1 then Some(successor) else sessions[chain[k]].replacedBy
    ensures ChainOk(later, family, chain + [successor])
  {
  }

  lemma DimsKeepsChains(s: Store, t: Store)
    requires StoreOk(s) && Dims(s, t)
    ensures ChainsOk(t)
  {
    hide RowsOk, FamiliesOk, WasRotated, Live, ChainOk, UsersLater;
    forall family | family in t.chains ensures ChainOk(t.sessions, family, t.chains[family]) {
      DimsChain(s, t, family);
    }
  }

  lemma DimsChain(s: Store, t: Store, family: nat)
    requires ChainsOk(s) && Dims(s, t) && family in s.chains
    ensures ChainOk(t.sessions, family, t.chains[family])
  {
    hide WasRotated, Live, UsersLater;
    assert ChainOk(s.sessions, family, s.chains[family]);
    ChainFrame(s.sessions, t.sessions, family, s.chains[family]);
  }

  lemma DimsKeepsRows(s: Store, t: Store)
    requires StoreOk(s) && Dims(s, t)
    ensures RowsOk(t)
  {
    hide ChainsOk, FamiliesOk;
    forall id | id in t.sessions ensures RowOk(t, t.sessions[id]) {
      assert RowOk(s, s.sessions[id]);
    }
  }

  lemma DimsKeepsFamilies(s: Store, t: Store)
    requires StoreOk(s) && Dims(s, t) && FlaggedDie(s, t)
    ensures FamiliesOk(t)
  {
    hide ChainsOk, RowsOk;
    forall a, b | a in t.sessions && b in t.sessions && t.sessions[a].family == t.sessions[b].family
      ensures SameFamilyOk(t.sessions[a], t.sessions[b])
    {
      assert SameFamilyOk(s.sessions[a], s.sessions[b]);
    }
  }

  lemma DimsKeeps(s: Store, t: Store)
    requires StoreOk(s) && Dims(s, t) && FlaggedDie(s, t)
    ensures StoreOk(t) && Later(s, t)
  {
    DimsKeepsChains(s, t);
    DimsKeepsRows(s, t);
    DimsKeepsFamilies(s, t);
  }

  /** A new family of one live session, for a user whose password hash is the one just checked. */
  lemma OpenFamilyKeeps(s: Store, ids: NewIds, user: nat, hash: nat, ttl: Lifetimes, now: Instant)
    requires StoreOk(s) && FreshIds(s, ids) && user in s.users && s.users[user].passwordHash == hash
    ensures StoreOk(OpenFamily(s, ids, user, hash, ttl, now)) && Later(s, OpenFamily(s, ids, user, hash, ttl, now))
  {
    OpenFamilyChains(s, ids, user, hash, ttl, now);
    OpenFamilyLater(s, ids, user, hash, ttl, now);
    NoneInFamily(s, ids.family);
    hide ChainsOk, Later, RowsOk, FamiliesOk;
    OpenFamilyRest(s, ids, user, hash, ttl, now);
  }

  lemma NoneInFamily(s: Store, family: nat)
    requires ChainsOk(s) && family !in s.chains
    ensures forall id | id in s.sessions :: s.sessions[id].family != family
  {
    hide ChainOk;
  }

  lemma OpenFamilyLater(s: Store, ids: NewIds, user: nat, hash: nat, ttl: Lifetimes, now: Instant)
    requires s.origins.Keys == s.chains.Keys && FreshIds(s, ids)
    ensures Later(s, OpenFamily(s, ids, user, hash, ttl, now))
  {
    assert ids.family !in s.origins.Keys;
  }

  lemma OpenFamilyRest(s: Store, ids: NewIds, user: nat, hash: nat, ttl: Lifetimes, now: Instant)
    requires RowsOk(s) && FamiliesOk(s) && user in s.users && s.users[user].passwordHash == hash
    requires ids.session !in s.sessions && forall id | id in s.sessions :: s.sessions[id].family != ids.family
    ensures var t := OpenFamily(s, ids, user, hash, ttl, now); RowsOk(t) && FamiliesOk(t)
  {
    var t := OpenFamily(s, ids, user, hash, ttl, now);
    forall id | id in t.sessions ensures RowOk(t, t.sessions[id]) {
      assert id in s.sessions ==> RowOk(s, s.sessions[id]);
    }
    forall a, b | a in t.sessions && b in t.sessions && t.sessions[a].family == t.sessions[b].family
      ensures SameFamilyOk(t.sessions[a], t.sessions[b])
    {
      assert a != ids.session && b != ids.session ==> SameFamilyOk(s.sessions[a], s.sessions[b]);
    }
  }

  lemma OpenFamilyChains(s: Store, ids: NewIds, user: nat, hash: nat, ttl: Lifetimes, now: Instant)
    requires ChainsOk(s) && FreshIds(s, ids)
    ensures ChainsOk(OpenFamily(s, ids, user, hash, ttl, now))
  {
    var t := OpenFamily(s, ids, user, hash, ttl, now);
    assert ChainOk(t.sessions, ids.family, [ids.session]);
    hide NewSession, RowLater;
    forall family | family in s.chains ensures ChainOk(t.sessions, family, s.chains[family]) {
      assert ChainOk(s.sessions, family, s.chains[family]);
      ChainFrame(s.sessions, t.sessions, family, s.chains[family]);
    }
  }

  /** Where an unreplaced session stands: at the end of its family's chain. */
  lemma TailIsLast(s: Store, id: nat)
    requires ChainsOk(s) && id in s.sessions && s.sessions[id].replacedBy == None
    ensures s.sessions[id].family in s.chains
    ensures var chain := s.chains[s.sessions[id].family]; chain != [] && chain[|chain| - 1] == id
  {
    var chain := s.chains[s.sessions[id].family];
    assert ChainOk(s.sessions, s.sessions[id].family, chain);
    forall k | 0 <= k < |chain| - 1 ensures chain[k] != id {
      assert s.sessions[chain[k]].replacedBy == Some(chain[k + 1]);
    }
  }

  lemma RotateKeepsChain(s: Store, id: nat, successor: nat, secret: nat, ttl: Lifetimes, now: Instant, family: nat)
    requires ChainsOk(s) && CanRotate(s, id, successor, now) && s.sessions[id].replacedBy == None && family in s.chains
    ensures var t := Rotate(s, id, successor, secret, ttl, now); ChainOk(t.sessions, family, t.chains[family])
  {
    TailIsLast(s, id);
    var t, chain := Rotate(s, id, successor, secret, ttl, now), s.chains[family];
    assert ChainOk(s.sessions, family, chain);
    assert forall k | 0 <= k < |chain| :: chain[k] != successor;
    if family == s.sessions[id].family {
      ChainGrows(s.sessions, t.sessions, family, chain, successor);
    } else {
      ChainFrame(s.sessions, t.sessions, family, chain);
    }
  }

  lemma RotateKeepsChains(s: Store, id: nat, successor: nat, secret: nat, ttl: Lifetimes, now: Instant)
    requires ChainsOk(s) && CanRotate(s, id, successor, now) && s.sessions[id].replacedBy == None
    ensures ChainsOk(Rotate(s, id, successor, secret, ttl, now))
  {
    hide ChainOk;
    var t := Rotate(s, id, successor, secret, ttl, now);
    forall family | family in t.chains ensures ChainOk(t.sessions, family, t.chains[family]) {
      RotateKeepsChain(s, id, successor, secret, ttl, now, family);
    }
  }

  lemma RotateKeepsRest(s: Store, id: nat, successor: nat, secret: nat, ttl: Lifetimes, now: Instant)
    requires RowsOk(s) && FamiliesOk(s) && CanRotate(s, id, successor, now)
    ensures var t := Rotate(s, id, successor, secret, ttl, now); RowsOk(t) && FamiliesOk(t) && Later(s, t)
  {
    var t := Rotate(s, id, successor, secret, ttl, now);
    assert RowOk(s, s.sessions[id]);
    forall other | other in t.sessions ensures RowOk(t, t.sessions[other]) {
      assert other in s.sessions ==> RowOk(s, s.sessions[other]);
    }
    forall a, b | a in t.sessions && b in t.sessions && t.sessions[a].family == t.sessions[b].family
      ensures SameFamilyOk(t.sessions[a], t.sessions[b])
    {
      var a0, b0 := if a == successor then id else a, if b == successor then id else b;
      assert SameFamilyOk(s.sessions[a0], s.sessions[b0]);
    }
  }

  lemma RotateKeeps(s: Store, id: nat, successor: nat, secret: nat, ttl: Lifetimes, now: Instant)
    requires StoreOk(s) && CanRotate(s, id, successor, now)
    ensures var t := Rotate(s, id, successor, secret, ttl, now); StoreOk(t) && Later(s, t)
  {
    assert RowOk(s, s.sessions[id]);
    hide ChainsOk, RowsOk, FamiliesOk;
    RotateKeepsChains(s, id, successor, secret, ttl, now);
    RotateKeepsRest(s, id, successor, secret, ttl, now);
  }

  // ----- Every operation is one of the three -----

  lemma AddUserKeeps(s: Store, user: nat, hash: nat)
    requires StoreOk(s) && user !in s.users
    ensures var t := s.(users := s.users[user := User(hash, 0, true, true)]); StoreOk(t) && Later(s, t)
  {
    RowUsers(s);
    hide ChainsOk, RowsOk, FamiliesOk;
    DimsKeeps(s, s.(users := s.users[user := User(hash, 0, true, true)]));
  }

  lemma RegisterKeeps(s: Store, user: nat, hash: nat, ids: NewIds, ttl: Lifetimes, now: Instant)
    requires StoreOk(s)
    ensures var t := Register(s, user, hash, ids, ttl, now); StoreOk(t) && Later(s, t)
  {
    hide ChainsOk, RowsOk, FamiliesOk, OpenFamily;
    if CanRegister(s, user, ids) {
      AddUserKeeps(s, user, hash);
      OpenFamilyKeeps(s.(users := s.users[user := User(hash, 0, true, true)]), ids, user, hash, ttl, now);
    }
  }

  lemma LogOutDims(s: Store, id: nat, secret: nat, now: Instant)
    requires RowsOk(s)
    ensures var t := LogOut(s, id, secret, now); Dims(s, t) && FlaggedDie(s, t)
  {
    var t := LogOut(s, id, secret, now);
    forall other | other in s.sessions ensures RowDims(s, t, s.sessions[other], t.sessions[other]) {
      assert RowOk(s, s.sessions[other]);
    }
  }

  lemma LogOutKeeps(s: Store, id: nat, secret: nat, now: Instant)
    requires StoreOk(s)
    ensures var t := LogOut(s, id, secret, now); StoreOk(t) && Later(s, t)
  {
    hide ChainsOk, RowsOk, FamiliesOk, Dims, FlaggedDie;
    LogOutDims(s, id, secret, now);
    DimsKeeps(s, LogOut(s, id, secret, now));
  }

  /** Revoking every live session of a user and changing only that user. */
  function AfterRevocation(s: Store, user: nat, after: User, reason: Reason, now: Instant): Store {
    s.(users := s.users[user := after], sessions := RevokeUser(s.sessions, user, reason, now))
  }

  lemma RevokeUserDims(s: Store, user: nat, after: User, reason: Reason, now: Instant)
    requires RowsOk(s) && user in s.users && s.users[user].version <= after.version && reason != Rotated
    ensures var t := AfterRevocation(s, user, after, reason, now); Dims(s, t) && FlaggedDie(s, t)
  {
    var t := AfterRevocation(s, user, after, reason, now);
    forall id | id in s.sessions ensures RowDims(s, t, s.sessions[id], t.sessions[id]) {
      assert RowOk(s, s.sessions[id]);
    }
  }

  lemma RevokeUserKeeps(s: Store, user: nat, after: User, reason: Reason, now: Instant)
    requires StoreOk(s) && user in s.users && s.users[user].version <= after.version && reason != Rotated
    ensures var t := AfterRevocation(s, user, after, reason, now); StoreOk(t) && Later(s, t)
  {
    hide ChainsOk, RowsOk, FamiliesOk, Dims, FlaggedDie, AfterRevocation;
    RevokeUserDims(s, user, after, reason, now);
    DimsKeeps(s, AfterRevocation(s, user, after, reason, now));
  }

  lemma ReplayDims(s: Store, id: nat, now: Instant)
    requires RowsOk(s) && ClaimsReplay(s, id)
    ensures var t := RevokeForReplay(s, id, now); Dims(s, t) && FlaggedDie(s, t)
  {
    var t := RevokeForReplay(s, id, now);
    forall other | other in s.sessions ensures RowDims(s, t, s.sessions[other], t.sessions[other]) {
      assert RowOk(s, s.sessions[other]);
    }
  }

  lemma ReplayKeeps(s: Store, id: nat, now: Instant)
    requires StoreOk(s)
    ensures var t := RevokeForReplay(s, id, now); StoreOk(t) && Later(s, t)
  {
    hide ChainsOk, RowsOk, FamiliesOk, Dims, FlaggedDie;
    if ClaimsReplay(s, id) {
      ReplayDims(s, id, now);
      hide RevokeForReplay;
      DimsKeeps(s, RevokeForReplay(s, id, now));
    } else {
      assert Later(s, s);
    }
  }

  lemma StaffKeeps(s: Store, user: nat, hash: nat)
    requires StoreOk(s)
    ensures var t := CreateStaff(s, user, hash); StoreOk(t) && Later(s, t)
  {
    hide ChainsOk, RowsOk, FamiliesOk;
    if user !in s.users {
      AddUserKeeps(s, user, hash);
    }
  }

  lemma LogInKeeps(s: Store, user: nat, password: nat, ids: NewIds, ttl: Lifetimes, now: Instant)
    requires StoreOk(s)
    ensures var t := LogIn(s, user, password, ids, ttl, now); StoreOk(t) && Later(s, t)
  {
    hide ChainsOk, RowsOk, FamiliesOk, OpenFamily;
    if CanLogIn(s, user, password, ids) {
      OpenFamilyKeeps(s, ids, user, password, ttl, now);
    } else {
      assert Later(s, s);
    }
  }

  lemma LogOutAllKeeps(s: Store, user: nat, now: Instant)
    requires StoreOk(s)
    ensures var t := LogOutAll(s, user, now); StoreOk(t) && Later(s, t)
  {
    hide ChainsOk, RowsOk, FamiliesOk, RevokeUser;
    if user in s.users {
      RevokeUserKeeps(s, user, BumpVersion(s.users, user)[user], LoggedOutAll, now);
    } else {
      assert Later(s, s);
    }
  }

  lemma ChangePasswordKeeps(s: Store, user: nat, checked: nat, newHash: nat, now: Instant)
    requires StoreOk(s)
    ensures var t := ChangePassword(s, user, checked, newHash, now); StoreOk(t) && Later(s, t)
  {
    hide ChainsOk, RowsOk, FamiliesOk, RevokeUser;
    if CanChangePassword(s, user, checked) {
      var after := BumpVersion(s.users, user)[user].(passwordHash := newHash);
      assert BumpVersion(s.users, user)[user := after] == s.users[user := after];
      RevokeUserKeeps(s, user, after, LoggedOutAll, now);
    } else {
      assert Later(s, s);
    }
  }

  lemma ChangeStaffKeeps(s: Store, user: nat, active: bool, operational: bool, now: Instant)
    requires StoreOk(s)
    ensures var t := ChangeStaff(s, user, active, operational, now); StoreOk(t) && Later(s, t)
  {
    hide ChainsOk, RowsOk, FamiliesOk, RevokeUser;
    if user in s.users {
      var after := BumpVersion(s.users, user)[user].(active := active, operational := operational);
      assert BumpVersion(s.users, user)[user := after] == s.users[user := after];
      RevokeUserKeeps(s, user, after, AdminRevoked, now);
    } else {
      assert Later(s, s);
    }
  }

  /** What every row of a consistent store points at. */
  lemma RowLinks(s: Store, id: nat)
    requires StoreOk(s) && id in s.sessions
    ensures s.sessions[id].family in s.chains && s.sessions[id].user in s.users
  {
    hide FamiliesOk, ChainOk;
    assert RowOk(s, s.sessions[id]);
  }

  // ----- Events -----

  lemma FrameFlights(w: World, w': World)
    requires FlightsOk(w) && IssuedOk(w) && Later(w.store, w'.store)
    ensures forall request | request in w.flights :: FlightOk(w'.store, w.flights[request])
    ensures forall token | token in w.issued ::
              token.user in w'.store.users && token.version <= w'.store.users[token.user].version
  {
    forall request | request in w.flights ensures FlightOk(w'.store, w.flights[request]) {
      assert FlightOk(w.store, w.flights[request]);
    }
  }

  lemma EventKeepsStore(w: World, e: Event, ttl: Lifetimes)
    requires Inv(w)
    ensures StoreOk(Next(w, e, ttl).store) && Later(w.store, Next(w, e, ttl).store)
  {
    hide ChainsOk, RowsOk, FamiliesOk, Rotate, RevokeForReplay, Register, LogIn, CreateStaff, LogOut, LogOutAll;
    hide ChangePassword, ChangeStaff, Read, FlightsOk, IssuedOk;
    var s := w.store;
    assert Later(s, s);
    match e
    case DoRegister(user, hash, ids, now) => RegisterKeeps(s, user, hash, ids, ttl, now);
    case DoCreateStaff(user, hash) => StaffKeeps(s, user, hash);
    case DoLogIn(user, hash, ids, now) => LogInKeeps(s, user, hash, ids, ttl, now);
    case ReadRefresh(request, session, secret, now) =>
    case CommitRotation(request, successor, secret, conflict) =>
      if Wins(w, e) {
        RotateKeeps(s, w.flights[request].session, successor, secret, ttl, w.flights[request].now);
      }
    case FinishReplay(request) =>
      if request in w.flights {
        ReplayKeeps(s, w.flights[request].session, w.flights[request].now);
      }
    case DoLogOut(session, secret, now) => LogOutKeeps(s, session, secret, now);
    case DoLogOutAll(user, now) => LogOutAllKeeps(s, user, now);
    case DoChangePassword(user, checked, newHash, now) => ChangePasswordKeeps(s, user, checked, newHash, now);
    case DoChangeStaff(user, active, operational, now) => ChangeStaffKeeps(s, user, active, operational, now);
  }

  lemma EventKeepsFlights(w: World, e: Event, ttl: Lifetimes)
    requires FlightsOk(w) && IssuedOk(w) && RowsOk(w.store)
    requires Later(w.store, Next(w, e, ttl).store)
    ensures FlightsOk(Next(w, e, ttl)) && IssuedOk(Next(w, e, ttl))
  {
    var w' := Next(w, e, ttl);
    FrameFlights(w, w');
    if e.ReadRefresh? && e.session in w.store.sessions {
      assert RowOk(w.store, w.store.sessions[e.session]);
    }
    hide RowsOk, Later, RevokeForReplay, LogOut, LogOutAll, ChangePassword, ChangeStaff, CreateStaff;
    if e.CommitRotation? && e.request in w.flights {
      assert FlightOk(w.store, w.flights[e.request]);
    }
  }

  /** One event of any request keeps the whole invariant and takes nothing back. */
  lemma EventKeeps(w: World, e: Event, ttl: Lifetimes)
    requires Inv(w)
    ensures Inv(Next(w, e, ttl)) && Later(w.store, Next(w, e, ttl).store)
  {
    hide ChainsOk, RowsOk, FamiliesOk;
    hide FlightsOk, IssuedOk, Next, Later;
    EventKeepsStore(w, e, ttl);
    EventKeepsFlights(w, e, ttl);
  }
}
