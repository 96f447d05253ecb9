/**
 Interleaved runs of the session service. A refresh is several steps: it reads the session, later
 tries to rotate it, and if it lost or found it already rotated, revokes the family in a third
 transaction. Anything may happen in between.
 */
module SessionRuns {
  import opened Common
  import opened Sessions

  /** A refresh request between its steps. `version` is the user's session version when it read, which its access token will carry. */
  datatype Flight =
    | Rotating(session: nat, user: nat, version: nat, now: Instant)
    | Replaying(session: nat, now: Instant)

  datatype World = World(store: Store, flights: map<nat, Flight>, issued: set<AccessToken>)

  datatype Event =
    | DoRegister(user: nat, hash: nat, ids: NewIds, now: Instant)
    | DoCreateStaff(user: nat, hash: nat)
    | DoLogIn(user: nat, hash: nat, ids: NewIds, now: Instant)
    | ReadRefresh(request: nat, session: nat, secret: nat, now: Instant)
    | CommitRotation(request: nat, successor: nat, secret: nat, conflict: bool)
    | FinishReplay(request: nat)
    | DoLogOut(session: nat, secret: nat, now: Instant)
    | DoLogOutAll(user: nat, now: Instant)
    | DoChangePassword(user: nat, checked: nat, newHash: nat, now: Instant)
    | DoChangeStaff(user: nat, active: bool, operational: bool, now: Instant)

  /** What refresh does with the session it reads: rotate it, hunt a replay, or answer INVALID_SESSION. */
  function Read(s: Store, session: nat, secret: nat, now: Instant): Option<Flight> {
    if session !in s.sessions || s.sessions[session].secret != secret || s.sessions[session].user !in s.users then None
    else
      var row, user := s.sessions[session], s.users[s.sessions[session].user];
      if !Live(row) || !InTime(row, now) || !user.active || !user.operational
      then if WasRotated(row) then Some(Replaying(session, now)) else None
      else Some(Rotating(session, row.user, user.version, now))
  }

  /**
   The rotation of this request goes through. A serialization conflict aborts it and sends the request
   to the replay check; a clash of the new identifier is an error that leaves everything as it was.
   */
  predicate Wins(w: World, e: Event) {
    && e.CommitRotation? && !e.conflict
    && e.request in w.flights && w.flights[e.request].Rotating?
    && CanRotate(w.store, w.flights[e.request].session, e.successor, w.flights[e.request].now)
  }

  function Next(w: World, e: Event, ttl: Lifetimes): World {
    match e
    case DoRegister(user, hash, ids, now) =>
      w.(store := Register(w.store, user, hash, ids, ttl, now),
         issued := if CanRegister(w.store, user, ids) then w.issued + {AccessToken(user, ids.session, 0)} else w.issued)
    case DoCreateStaff(user, hash) => w.(store := CreateStaff(w.store, user, hash))
    case DoLogIn(user, hash, ids, now) =>
      w.(store := LogIn(w.store, user, hash, ids, ttl, now),
         issued :=
           if CanLogIn(w.store, user, hash, ids)
           then w.issued + {AccessToken(user, ids.session, w.store.users[user].version)} else w.issued)
    case ReadRefresh(request, session, secret, now) =>
      var flight := Read(w.store, session, secret, now);
      if request in w.flights || flight.None? then w else w.(flights := w.flights[request := flight.value])
    case CommitRotation(request, successor, secret, conflict) =>
      if request !in w.flights || !w.flights[request].Rotating? then w
      else if successor in w.store.sessions then w.(flights := w.flights - {request})
      else
        var flight := w.flights[request];
        if Wins(w, e) then
          World(Rotate(w.store, flight.session, successor, secret, ttl, flight.now), w.flights - {request},
                w.issued + {AccessToken(flight.user, successor, flight.version)})
        else w.(flights := w.flights[request := Replaying(flight.session, flight.now)])
    case FinishReplay(request) =>
      if request !in w.flights || !w.flights[request].Replaying? then w
      else World(RevokeForReplay(w.store, w.flights[request].session, w.flights[request].now), w.flights - {request}, w.issued)
    case DoLogOut(session, secret, now) => w.(store := LogOut(w.store, session, secret, now))
    case DoLogOutAll(user, now) => w.(store := LogOutAll(w.store, user, now))
    case DoChangePassword(user, checked, newHash, now) => w.(store := ChangePassword(w.store, user, checked, newHash, now))
    case DoChangeStaff(user, active, operational, now) => w.(store := ChangeStaff(w.store, user, active, operational, now))
  }

  const EMPTY := World(Store(map[], map[], map[], map[]), map[], {})

  ghost predicate IsRun(worlds: seq<World>, events: seq<Event>, ttl: Lifetimes) {
    && |worlds| == |events| + 1
    && worlds[0] == EMPTY
    && (forall i | 0 <= i < |events| :: worlds[i + 1] == Next(worlds[i], events[i], ttl))
  }
}
