/**
 The Android client's session (HawellyRepository.kt): any number of calls that may all fail with 401
 at once, one refresh at a time behind a mutex, a restore at start-up that does not take it, and relaunches.
 A `Client` is the state between two suspension points; code between suspension points is one step.

 A refresh token is named by the session it belongs to. Tokens that arrive from the server have
 never been seen before. `presented` and `refreshedFor` are history: the refresh tokens sent to
 /auth/refresh, and the failed access tokens on whose account they were sent.
 */
module AndroidSession {
  import opened Common

  datatype Tokens = Tokens(access: nat, refresh: nat)

  /** One `authenticated` call. */
  datatype Call =
    | Sent(access: nat)
    | Waiting(access: nat)
    | Refreshing(access: nat, refresh: nat)
    | Retrying(access: nat)
    | Ended

  datatype Client = Client(
    session: Option<Tokens>,
    stored: Option<nat>,
    holder: Option<nat>,
    calls: map<nat, Call>,
    restoring: Option<nat>,
    seen: set<nat>,
    presented: seq<nat>,
    refreshedFor: seq<nat>)

  datatype Step =
    | Start(call: nat)
    | Reply(call: nat, unauthorized: bool)
    | Acquire(call: nat)
    | RefreshSucceeds(call: nat, tokens: Tokens)
    | RefreshFails(call: nat)
    | RetryEnds(call: nat)
    | SignIn(tokens: Tokens)
    | SignOut
    | RestoreSucceeds(tokens: Tokens)
    | RestoreFails
    | Relaunch

  predicate Unseen(c: Client, tokens: Tokens) {
    tokens.access !in c.seen && tokens.refresh !in c.seen && tokens.access != tokens.refresh
  }

  function AcceptSession(c: Client, tokens: Tokens): Client {
    c.(session := Some(tokens), stored := Some(tokens.refresh), seen := c.seen + {tokens.access, tokens.refresh})
  }

  function ClearSession(c: Client): Client {
    c.(session := None, stored := None)
  }

  /** refreshAfter from taking the mutex to its refresh call, if it makes one. */
  function TakeMutex(c: Client, call: nat): Client
    requires call in c.calls && c.calls[call].Waiting?
  {
    var failed := c.calls[call].access;
    if c.session.Some? && c.session.value.access != failed then
      c.(calls := c.calls[call := Retrying(c.session.value.access)])
    else if c.stored.None? then
      c.(calls := c.calls[call := Ended])
    else
      c.(calls := c.calls[call := Refreshing(failed, c.stored.value)], holder := Some(call),
         presented := c.presented + [c.stored.value], refreshedFor := c.refreshedFor + [failed])
  }

  predicate IsRefreshing(c: Client, call: nat) {
    call in c.calls && c.calls[call].Refreshing?
  }

  function Next(c: Client, step: Step): Client {
    match step
    case Start(call) =>
      if c.session.None? || call in c.calls then c else c.(calls := c.calls[call := Sent(c.session.value.access)])
    case Reply(call, unauthorized) =>
      if call !in c.calls || !c.calls[call].Sent? then c
      else c.(calls := c.calls[call := if unauthorized then Waiting(c.calls[call].access) else Ended])
    case Acquire(call) =>
      if call !in c.calls || !c.calls[call].Waiting? || c.holder.Some? then c else TakeMutex(c, call)
    case RefreshSucceeds(call, tokens) =>
      if !IsRefreshing(c, call) || !Unseen(c, tokens) then c
      else AcceptSession(c, tokens).(calls := c.calls[call := Retrying(tokens.access)], holder := None)
    case RefreshFails(call) =>
      if !IsRefreshing(c, call) then c
      else ClearSession(c).(calls := c.calls[call := Ended], holder := None)
    case RetryEnds(call) =>
      if call !in c.calls || !c.calls[call].Retrying? then c else c.(calls := c.calls[call := Ended])
    case SignIn(tokens) => if !Unseen(c, tokens) then c else AcceptSession(c, tokens)
    case SignOut => ClearSession(c)
    case RestoreSucceeds(tokens) =>
      if c.restoring.None? || !Unseen(c, tokens) then c else AcceptSession(c, tokens).(restoring := None)
    case RestoreFails => if c.restoring.None? then c else ClearSession(c).(restoring := None)
    case Relaunch => if TokenInFlight(c) then c else Relaunched(c)
  }

  /** The stored refresh token has been sent and its answer is not back. */
  predicate TokenInFlight(c: Client) {
    c.stored.Some? &&
    (c.restoring == c.stored ||
     (c.holder.Some? && IsRefreshing(c, c.holder.value) && c.calls[c.holder.value].refresh == c.stored.value))
  }

  /** The process ends, its calls with it, and the next one restores what is stored. */
  function Relaunched(c: Client): Client {
    c.(session := None, holder := None, calls := map[], restoring := c.stored,
       presented := if c.stored.Some? then c.presented + [c.stored.value] else c.presented)
  }

  /** Start-up: restore sends whatever refresh token the last process stored. */
  function Launched(stored: Option<nat>): Client {
    match stored
    case None => Client(None, None, None, map[], None, {}, [], [])
    case Some(token) => Client(None, stored, None, map[], stored, {token}, [token], [])
  }

  /** Any number of processes one after another, each started with no answer outstanding for the token it restores. */
  ghost predicate IsRun(clients: seq<Client>, steps: seq<Step>) {
    && |clients| == |steps| + 1
    && (exists stored :: clients[0] == Launched(stored))
    && (forall i | 0 <= i < |steps| :: clients[i + 1] == Next(clients[i], steps[i]))
  }

  // ----- The invariant -----

  predicate Distinct(s: seq<nat>) {
    forall i, j | 0 <= i < j < |s| :: s[i] != s[j]
  }

  /** The mutex is held exactly by the one call that is refreshing. */
  predicate HolderOk(c: Client) {
    && (c.holder.Some? ==> IsRefreshing(c, c.holder.value))
    && (forall call | call in c.calls && c.calls[call].Refreshing? :: c.holder == Some(call))
  }

  /** A refresh token that was sent and is still stored is the one in flight. */
  predicate StoredOk(c: Client) {
    c.stored.Some? && c.stored.value in c.presented ==>
      || (c.session.None? && c.restoring == c.stored)
      || (c.holder.Some? && IsRefreshing(c, c.holder.value) && c.calls[c.holder.value].refresh == c.stored.value &&
          (c.session.Some? ==> c.session.value.access == c.calls[c.holder.value].access))
  }

  /** Nothing runs before there was a session, and a missing session has no stored token unless restore is still out. */
  predicate SessionOk(c: Client) {
    && (c.session.Some? ==> c.stored == Some(c.session.value.refresh) && c.session.value.access in c.seen)
    && (c.session.None? && c.stored.Some? ==> c.restoring == c.stored && c.calls == map[])
    && (c.stored.Some? ==> c.stored.value in c.seen)
  }

  /** The failed token of a waiting call is either the current one, or will not be refreshed for again. */
  predicate HistoryOk(c: Client) {
    && Distinct(c.presented) && Distinct(c.refreshedFor)
    && (forall token | token in c.presented :: token in c.seen)
    && (c.restoring.Some? ==> c.restoring.value in c.presented)
    && (forall call | call in c.calls && c.calls[call].Refreshing? :: c.calls[call].refresh in c.presented)
    && (forall token | token in c.refreshedFor :: token in c.seen)
    && (forall call | call in c.calls && !c.calls[call].Ended? :: c.calls[call].access in c.seen)
    && (c.session.Some? && c.session.value.access in c.refreshedFor ==>
          c.holder.Some? && IsRefreshing(c, c.holder.value) && c.calls[c.holder.value].access == c.session.value.access)
  }

  predicate Inv(c: Client) {
    HolderOk(c) && StoredOk(c) && SessionOk(c) && HistoryOk(c)
  }

  lemma AcquireKeeps(c: Client, call: nat)
    requires Inv(c)
    ensures Inv(Next(c, Acquire(call)))
  {
  }

  lemma RefreshKeeps(c: Client, step: Step)
    requires Inv(c) && (step.RefreshSucceeds? || step.RefreshFails?)
    ensures Inv(Next(c, step))
  {
  }

  /** Every step keeps the invariant. */
  lemma StepKeeps(c: Client, step: Step)
    requires Inv(c)
    ensures Inv(Next(c, step))
  {
    if step.Acquire? {
      hide HolderOk, StoredOk, SessionOk, HistoryOk;
      AcquireKeeps(c, step.call);
    } else if step.RefreshSucceeds? || step.RefreshFails? {
      hide HolderOk, StoredOk, SessionOk, HistoryOk;
      RefreshKeeps(c, step);
    }
  }

  lemma {:induction false} RunKeeps(clients: seq<Client>, steps: seq<Step>, i: nat)
    requires IsRun(clients, steps) && i < |clients|
    ensures Inv(clients[i])
  {
    if i > 0 {
      RunKeeps(clients, steps, i - 1);
      hide Inv, Next;
      StepKeeps(clients[i - 1], steps[i - 1]);
    }
  }

  /**
   However many calls fail at once and however sign-in, sign-out and restore fall between them: no refresh
   token is ever sent twice, one failed access token causes at most one refresh, and one refresh runs at a time.
   */
  lemma SingleFlight(clients: seq<Client>, steps: seq<Step>, i: nat)
    requires IsRun(clients, steps) && i < |clients|
    ensures Distinct(clients[i].presented)
    ensures Distinct(clients[i].refreshedFor)
    ensures forall a, b | IsRefreshing(clients[i], a) && IsRefreshing(clients[i], b) :: a == b
  {
    RunKeeps(clients, steps, i);
  }

  /**
   A new process sends a refresh token a second time exactly if the old one ended while the answer for the stored
   token was outstanding; every other end of the process is harmless.
   */
  lemma RelaunchRepeatsIffInFlight(clients: seq<Client>, steps: seq<Step>, i: nat)
    requires IsRun(clients, steps) && i < |clients|
    ensures Distinct(Relaunched(clients[i]).presented) <==> !TokenInFlight(clients[i])
  {
    RunKeeps(clients, steps, i);
    RelaunchRepeats(clients[i]);
  }

  lemma RelaunchRepeats(c: Client)
    requires Inv(c)
    ensures Distinct(Relaunched(c).presented) <==> !TokenInFlight(c)
  {
    if TokenInFlight(c) {
      var k :| 0 <= k < |c.presented| && c.presented[k] == c.stored.value;
      assert Relaunched(c).presented[|c.presented|] == Relaunched(c).presented[k];
    }
  }

  /**
   A call that waited out another call's successful refresh goes straight to its retry with the new access
   token: it sends no refresh of its own, even if yet another sign-in has replaced the session meanwhile.
   */
  lemma WaiterReusesSession(clients: seq<Client>, steps: seq<Step>, i: nat, call: nat)
    requires IsRun(clients, steps) && i < |clients|
    requires call in clients[i].calls && clients[i].calls[call].Waiting? && clients[i].holder.None?
    requires clients[i].calls[call].access in clients[i].refreshedFor
    ensures var after := Next(clients[i], Acquire(call));
            && after.presented == clients[i].presented && after.refreshedFor == clients[i].refreshedFor
            && after.calls[call] ==
               if clients[i].session.Some? then Retrying(clients[i].session.value.access) else Ended
  {
    RunKeeps(clients, steps, i);
  }

  // ----- What becomes of a call -----

  /**
   A call that fails with 401 renews the session once and is retried with what it got: with the session another call has
   renewed meanwhile, or else with the one its own refresh brings. If there is nothing to refresh with, or the refresh
   fails, it ends, and a failed refresh signs out.
   */
  lemma UnauthorizedCallLaw(c: Client, call: nat, tokens: Tokens)
    requires call in c.calls && c.calls[call].Sent? && c.holder.None? && Unseen(c, tokens)
    ensures var waiting := Next(c, Reply(call, true)); var after := Next(waiting, Acquire(call)); var access := c.calls[call].access;
            && waiting == c.(calls := c.calls[call := Waiting(access)])
            && if c.session.Some? && c.session.value.access != access
               then after == c.(calls := c.calls[call := Retrying(c.session.value.access)])
               else if c.stored.None? then after == c.(calls := c.calls[call := Ended])
               else
                 && after.presented == c.presented + [c.stored.value] && after.refreshedFor == c.refreshedFor + [access]
                 && after.holder == Some(call) && (after.session, after.stored) == (c.session, c.stored)
                 && (var renewed := Next(after, RefreshSucceeds(call, tokens));
                     && renewed.session == Some(tokens) && renewed.stored == Some(tokens.refresh) && renewed.holder.None?
                     && renewed.calls == c.calls[call := Retrying(tokens.access)] && renewed.presented == after.presented
                     && Next(renewed, RetryEnds(call)) == renewed.(calls := c.calls[call := Ended]))
                 && (var failed := Next(after, RefreshFails(call));
                     && failed.session.None? && failed.stored.None? && failed.holder.None?
                     && failed.calls == c.calls[call := Ended] && failed.presented == after.presented)
  {
  }

  /** Any other answer ends a call, a call needs a session to start, and nobody takes the mutex while it is held. */
  lemma CallLaw(c: Client, call: nat)
    ensures call in c.calls && c.calls[call].Sent? ==> Next(c, Reply(call, false)) == c.(calls := c.calls[call := Ended])
    ensures call !in c.calls ==>
              Next(c, Start(call)) == if c.session.Some? then c.(calls := c.calls[call := Sent(c.session.value.access)]) else c
    ensures c.holder.Some? ==> Next(c, Acquire(call)) == c
  {
  }

  /** Signing in and a restore that succeeds leave the new session and its stored token; a restore that fails leaves neither. */
  lemma SessionLaw(c: Client, tokens: Tokens)
    requires Unseen(c, tokens)
    ensures var t := Next(c, SignIn(tokens)); t.session == Some(tokens) && t.stored == Some(tokens.refresh) && t.calls == c.calls
    ensures c.restoring.Some? ==>
              && (var t := Next(c, RestoreSucceeds(tokens));
                  t.session == Some(tokens) && t.stored == Some(tokens.refresh) && t.restoring.None? && t.calls == c.calls)
              && (var t := Next(c, RestoreFails); t.session.None? && t.stored.None? && t.restoring.None? && t.calls == c.calls)
  {
  }

  // ----- Signing out while an answer is outstanding -----

  /** Signing out clears the session without the mutex, and an answer that arrives later is accepted all the same. */
  predicate AnswerOutstanding(c: Client) {
    c.holder.Some? || c.restoring.Some?
  }

  function Play(c: Client, steps: seq<Step>): Client
    decreases |steps|
  {
    if steps == [] then c else Play(Next(c, steps[0]), steps[1..])
  }

  /** The user does not sign in. */
  predicate NoSignIn(steps: seq<Step>) {
    forall k | 0 <= k < |steps| :: !steps[k].SignIn?
  }

  predicate SignedOut(c: Client) {
    c.session.None? && c.stored.None? && !AnswerOutstanding(c)
  }

  lemma {:induction false} SignedOutStays(c: Client, steps: seq<Step>)
    requires HolderOk(c) && SignedOut(c) && NoSignIn(steps)
    ensures SignedOut(Play(c, steps))
    decreases |steps|
  {
    if steps != [] {
      SignedOutStays(Next(c, steps[0]), steps[1..]);
    }
  }

  lemma {:induction false} Above(seen: set<nat>) returns (bound: nat)
    ensures forall token | token in seen :: token < bound
    decreases |seen|
  {
    bound := 0;
    if seen != {} {
      var token :| token in seen;
      var rest := Above(seen - {token});
      bound := if token < rest then rest else token + 1;
      assert forall other | other in seen :: other == token || other in seen - {token};
    }
  }

  lemma OutstandingAnswerSignsIn(c: Client) returns (steps: seq<Step>)
    requires HolderOk(c) && AnswerOutstanding(c)
    ensures NoSignIn(steps) && Play(c, steps).session.Some?
  {
    var bound := Above(c.seen);
    var tokens := Tokens(bound, bound + 1);
    var answer := if c.holder.Some? then RefreshSucceeds(c.holder.value, tokens) else RestoreSucceeds(tokens);
    steps := [answer];
    assert Play(c, steps) == Play(Next(c, answer), []);
  }

  /**
   After signing out the client can come to hold a session again, without anybody signing in, exactly if the answer to
   a refresh or a restore was outstanding.
   */
  lemma SignOutIsUndoneIffOutstanding(clients: seq<Client>, steps: seq<Step>, i: nat)
    requires IsRun(clients, steps) && i < |clients|
    ensures (exists later :: NoSignIn(later) && Play(Next(clients[i], SignOut), later).session.Some?) <==>
            AnswerOutstanding(clients[i])
  {
    RunKeeps(clients, steps, i);
    var gone := Next(clients[i], SignOut);
    if AnswerOutstanding(clients[i]) {
      var later := OutstandingAnswerSignsIn(gone);
    } else {
      forall later | NoSignIn(later) ensures Play(gone, later).session.None? {
        SignedOutStays(gone, later);
      }
    }
  }

  /** The mutable half of HawellyRepository, with each stretch between two suspension points as a method. */
  class Repository {
    var session: Option<Tokens>
    var stored: Option<nat>
    var locked: bool
    ghost var presented: seq<nat>

    constructor (fromLastProcess: Option<nat>)
      ensures session == None && stored == fromLastProcess && !locked && presented == []
    {
      session, stored, locked, presented := None, fromLastProcess, false, [];
    }

    /** The client state `c` describes this object. */
    ghost predicate Shows(c: Client)
      reads this
    {
      session == c.session && stored == c.stored && locked == c.holder.Some? && presented == c.presented
    }

    method Accept(tokens: Tokens)
      modifies this`session, this`stored
      ensures forall c | old(Shows(c)) :: Shows(AcceptSession(c, tokens))
    {
      stored := Some(tokens.refresh);
      session := Some(tokens);
    }

    method Clear()
      modifies this`session, this`stored
      ensures forall c | old(Shows(c)) :: Shows(ClearSession(c))
    {
      session := None;
      stored := None;
    }

    /** refreshAfter up to its request: the session to retry with, or a refresh token to send, or neither. */
    method BeginRefresh(failed: nat) returns (current: Option<Tokens>, send: Option<nat>)
      requires !locked
      modifies this`locked, this`presented
      ensures forall c, call | old(Shows(c)) && call in c.calls && c.calls[call] == Waiting(failed) ::
                && Shows(TakeMutex(c, call))
                && TakeMutex(c, call).calls[call] ==
                   if current.Some? then Retrying(current.value.access)
                   else if send.Some? then Refreshing(failed, send.value) else Ended
    {
      current, send := None, None;
      if session.Some? && session.value.access != failed {
        current := session;
        return;
      }
      if stored.None? {
        return;
      }
      send := stored;
      locked := true;
      presented := presented + [stored.value];
    }

    /** refreshAfter from its answer on. */
    method EndRefresh(answer: Option<Tokens>)
      requires locked
      modifies this`session, this`stored, this`locked
      ensures forall c, call | old(Shows(c)) && IsRefreshing(c, call) ::
                match answer
                case Some(tokens) => Unseen(c, tokens) ==> Shows(Next(c, RefreshSucceeds(call, tokens)))
                case None => Shows(Next(c, RefreshFails(call)))
    {
      if answer.Some? {
        Accept(answer.value);
      } else {
        Clear();
      }
      locked := false;
    }
  }
}
