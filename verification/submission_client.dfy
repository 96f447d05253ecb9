/**
 The Android client's submission key (HawellyViewModel.kt): a random key is kept beside the fingerprint of the
 form it was made for, reused while the same form is retried, and dropped on success or on a 4xx answer.
 Composed with the server: everything else, including other requests of the same sender, may happen in between.
 */
module SubmissionClient {
  import opened Common
  import opened TransferCreation

  /** What the form sends, after the trimming and upper-casing that the fingerprint and the request share. */
  datatype Form = Form(
    recipient: string, country: string, payoutMethod: string, origin: string, amount: string, currency: string, note: string)

  // ----- The fingerprint -----

  const NUL := '\0'

  function Parts(form: Form): seq<string> {
    [form.recipient, form.country, form.payoutMethod, form.origin, form.amount, form.currency, form.note]
  }

  function Join(parts: seq<string>): string
    requires parts != []
  {
    if |parts| == 1 then parts[0] else parts[0] + [NUL] + Join(parts[1..])
  }

  /** The string whose SHA-256 digest is the client's fingerprint; the digest is taken as injective. */
  function Canonical(form: Form): string {
    Join(Parts(form))
  }

  /** What the server fingerprints of the request built from this form. */
  function OnTheWire(form: Form): Fingerprint {
    Fingerprint(form.recipient, form.origin, form.country, form.amount, form.currency, form.payoutMethod,
                if form.note == "" then None else Some(form.note))
  }

  /** The request says what the form says, field by field; an empty note is left out. */
  lemma RequestSaysWhatTheFormSays(form: Form)
    ensures var request := OnTheWire(form);
            && request.recipient == form.recipient && request.payoutMethod == form.payoutMethod
            && request.originCountry == form.origin && request.destinationCountry == form.country
            && request.amount == form.amount && request.currency == form.currency
            && (request.note.Some? <==> form.note != "") && (request.note.Some? ==> request.note.value == form.note)
  {
  }

  /** No field but the last holds the separator. */
  predicate Clean(form: Form) {
    forall i | 0 <= i < 6 :: NUL !in Parts(form)[i]
  }

  lemma HeadIsDetermined(a: string, b: string, restA: string, restB: string)
    requires NUL !in a && NUL !in b && a + [NUL] + restA == b + [NUL] + restB
    ensures a == b && restA == restB
  {
    var whole := a + [NUL] + restA;
    assert whole[|a|] == NUL && whole[|b|] == NUL;
    assert forall i | 0 <= i < |a| :: whole[i] == a[i] != NUL;
    assert forall i | 0 <= i < |b| :: whole[i] == b[i] != NUL;
    assert whole[..|a|] == a && whole[..|b|] == b;
    assert whole[|a| + 1..] == restA && whole[|b| + 1..] == restB;
  }

  lemma {:induction false} JoinIsInjective(a: seq<string>, b: seq<string>)
    requires |a| == |b| > 0 && Join(a) == Join(b)
    requires forall i | 0 <= i < |a| - 1 :: NUL !in a[i] && NUL !in b[i]
    ensures a == b
  {
    if |a| > 1 {
      HeadIsDetermined(a[0], b[0], Join(a[1..]), Join(b[1..]));
      JoinIsInjective(a[1..], b[1..]);
      assert a == [a[0]] + a[1..] && b == [b[0]] + b[1..];
    }
  }

  /** Forms the client takes for the same are the same to the server. */
  lemma SameCanonicalSameRequest(a: Form, b: Form)
    requires Clean(a) && Clean(b)
    ensures Canonical(a) == Canonical(b) <==> a == b
    ensures Canonical(a) == Canonical(b) ==> OnTheWire(a) == OnTheWire(b)
  {
    if Canonical(a) == Canonical(b) {
      JoinIsInjective(Parts(a), Parts(b));
      SamePartsSameForm(a, b);
    }
  }

  // ----- Exactly which fingerprints are ambiguous -----

  predicate HasSeparator(parts: seq<string>) {
    exists i | 0 <= i < |parts| :: NUL in parts[i]
  }

  function Separators(s: string): nat {
    if s == "" then 0 else (if s[0] == NUL then 1 else 0) + Separators(s[1..])
  }

  function SeparatorsIn(parts: seq<string>): nat {
    if parts == [] then 0 else Separators(parts[0]) + SeparatorsIn(parts[1..])
  }

  lemma {:induction false} SeparatorsAdd(a: string, b: string)
    ensures Separators(a + b) == Separators(a) + Separators(b)
  {
    if a == "" {
      assert a + b == b;
    } else {
      SeparatorsAdd(a[1..], b);
      assert (a + b)[1..] == a[1..] + b;
    }
  }

  lemma {:induction false} NoSeparators(s: string)
    ensures Separators(s) == 0 <==> NUL !in s
  {
    if s != "" {
      NoSeparators(s[1..]);
    }
  }

  lemma {:induction false} JoinSeparators(parts: seq<string>)
    requires parts != []
    ensures Separators(Join(parts)) == SeparatorsIn(parts) + |parts| - 1
  {
    if |parts| == 1 {
      assert SeparatorsIn(parts[1..]) == 0;
    } else {
      JoinSeparators(parts[1..]);
      SeparatorsAdd(parts[0] + [NUL], Join(parts[1..]));
      SeparatorsAdd(parts[0], [NUL]);
      assert [NUL][1..] == "";
    }
  }

  lemma {:induction false} SeparatorsInNone(parts: seq<string>)
    ensures SeparatorsIn(parts) == 0 <==> !HasSeparator(parts)
  {
    if parts != [] {
      SeparatorsInNone(parts[1..]);
      NoSeparators(parts[0]);
      assert HasSeparator(parts) <==> NUL in parts[0] || HasSeparator(parts[1..]);
    }
  }

  /** A separator inside a part can trade places with the one that ends the part. */
  lemma CutElsewhere(x: string, y: string, next: string, rest: seq<string>)
    ensures Join([x + [NUL] + y, next] + rest) == Join([x, y + [NUL] + next] + rest)
  {
    var one, other := [x + [NUL] + y, next] + rest, [x, y + [NUL] + next] + rest;
    assert one[1..] == [next] + rest && other[1..] == [y + [NUL] + next] + rest;
    if rest == [] {
      assert one[1..] == [next] && other[1..] == [y + [NUL] + next];
      assert x + [NUL] + y + [NUL] + next == x + [NUL] + (y + [NUL] + next);
    } else {
      assert ([next] + rest)[1..] == rest && ([y + [NUL] + next] + rest)[1..] == rest;
      assert x + [NUL] + y + [NUL] + (next + [NUL] + Join(rest)) == x + [NUL] + (y + [NUL] + next + [NUL] + Join(rest));
    }
  }

  /** Move one separator: the parts change, their joined text does not. */
  lemma MoveSeparator(parts: seq<string>, k: nat) returns (other: seq<string>)
    requires |parts| >= 2 && k < |parts| && NUL in parts[k]
    ensures |other| == |parts| && other != parts && Join(other) == Join(parts)
  {
    var p :| 0 <= p < |parts[k]| && parts[k][p] == NUL;
    var x, y := parts[k][..p], parts[k][p + 1..];
    assert parts[k] == x + [NUL] + y;
    if k + 1 < |parts| {
      var tail := [x, y + [NUL] + parts[k + 1]] + parts[k + 2..];
      CutElsewhere(x, y, parts[k + 1], parts[k + 2..]);
      other := parts[..k] + tail;
      assert parts[k..] == [parts[k], parts[k + 1]] + parts[k + 2..];
      JoinTail(parts[..k], tail, parts[k..]);
      assert parts[..k] + parts[k..] == parts && other[k] == x;
    } else {
      var tail := [parts[k - 1] + [NUL] + x, y];
      CutElsewhere(parts[k - 1], x, y, []);
      assert [parts[k - 1], x + [NUL] + y] + [] == parts[k - 1..] && tail + [] == tail;
      other := parts[..k - 1] + tail;
      JoinTail(parts[..k - 1], tail, parts[k - 1..]);
      assert parts[..k - 1] + parts[k - 1..] == parts && other[k - 1] == parts[k - 1] + [NUL] + x;
    }
  }

  lemma {:induction false} JoinTail(head: seq<string>, a: seq<string>, b: seq<string>)
    requires a != [] && b != [] && Join(a) == Join(b)
    ensures Join(head + a) == Join(head + b)
  {
    if head == [] {
      assert head + a == a && head + b == b;
    } else {
      JoinTail(head[1..], a, b);
      assert (head + a)[1..] == head[1..] + a && (head + b)[1..] == head[1..] + b;
    }
  }

  function FormOf(parts: seq<string>): (form: Form)
    requires |parts| == 7
    ensures Parts(form) == parts
  {
    Form(parts[0], parts[1], parts[2], parts[3], parts[4], parts[5], parts[6])
  }

  lemma SamePartsSameForm(a: Form, b: Form)
    requires Parts(a) == Parts(b)
    ensures a == b
  {
    assert Parts(a)[0] == Parts(b)[0] && Parts(a)[1] == Parts(b)[1] && Parts(a)[2] == Parts(b)[2] && Parts(a)[3] == Parts(b)[3];
    assert Parts(a)[4] == Parts(b)[4] && Parts(a)[5] == Parts(b)[5] && Parts(a)[6] == Parts(b)[6];
  }

  lemma SeparatorFreeIsUnique(a: Form, b: Form)
    requires !HasSeparator(Parts(a)) && Canonical(a) == Canonical(b)
    ensures a == b
  {
    JoinSeparators(Parts(a));
    JoinSeparators(Parts(b));
    SeparatorsInNone(Parts(a));
    SeparatorsInNone(Parts(b));
    JoinIsInjective(Parts(a), Parts(b));
    SamePartsSameForm(a, b);
  }

  /** Some other form, which makes another request, has the fingerprint of this one if and only if one of its seven fields holds the separator. */
  lemma AmbiguousIffSeparator(a: Form)
    ensures (exists b :: Canonical(b) == Canonical(a) && OnTheWire(b) != OnTheWire(a)) <==> HasSeparator(Parts(a))
  {
    if HasSeparator(Parts(a)) {
      var k :| 0 <= k < 7 && NUL in Parts(a)[k];
      var moved := MoveSeparator(Parts(a), k);
      var b := FormOf(moved);
      assert Canonical(b) == Canonical(a) && b != a;
    } else {
      forall b | Canonical(b) == Canonical(a) ensures b == a {
        SeparatorFreeIsUnique(a, b);
      }
    }
  }

  // ----- The forms the screen submits -----

  predicate Upper(c: char) {
    'A' <= c <= 'Z'
  }

  predicate Letters(s: string, n: nat) {
    |s| == n && forall i | 0 <= i < n :: Upper(s[i])
  }

  /**
   A form that the submit button lets through: a stored recipient's identifier, country and method, a corridor's origin
   and currency, an amount in digits. The note is free text.
   */
  predicate FromScreen(form: Form) {
    && (forall i | 0 <= i < |form.recipient| ::
          var c := form.recipient[i]; c == '-' || '0' <= c <= '9' || 'a' <= c <= 'f')
    && Letters(form.country, 2) && Letters(form.origin, 2) && Letters(form.currency, 3)
    && form.payoutMethod in {"BANK_TRANSFER", "CASH_PICKUP", "MOBILE_MONEY", "OTHER"}
    && (forall i | 0 <= i < |form.amount| :: '0' <= form.amount[i] <= '9')
  }

  /** None of their first six fields can hold a separator, so two of them share a fingerprint only if they are the same. */
  lemma ScreenFormsAreToldApart(a: Form, b: Form)
    requires FromScreen(a) && FromScreen(b)
    ensures Clean(a) && (Canonical(a) == Canonical(b) <==> a == b)
  {
    ScreenFormIsClean(a);
    ScreenFormIsClean(b);
    SameCanonicalSameRequest(a, b);
  }

  lemma ScreenFormIsClean(form: Form)
    requires FromScreen(form)
    ensures Clean(form)
  {
    forall i | 0 <= i < 6 ensures NUL !in Parts(form)[i] {
      assert Parts(form)[0] == form.recipient && Parts(form)[1] == form.country && Parts(form)[2] == form.payoutMethod;
      assert Parts(form)[3] == form.origin && Parts(form)[4] == form.amount && Parts(form)[5] == form.currency;
    }
  }

  // ----- The client -----

  /** A kept key and the form it was made for, of which the source keeps the fingerprint only. */
  datatype Pending = Pending(form: Form, key: nat)

  datatype Client = Client(pending: Option<Pending>, inFlight: Option<nat>)

  /** submissionKeyFor: the key this form is sent under. */
  function KeyFor(c: Client, form: Form, newKey: nat): nat {
    if c.pending.Some? && Canonical(c.pending.value.form) == Canonical(form) then c.pending.value.key else newKey
  }

  function Press(c: Client, form: Form, newKey: nat, request: nat): Client {
    Client(
      if KeyFor(c, form, newKey) == newKey then Some(Pending(form, newKey)) else c.pending,
      Some(request))
  }

  /** What the server's answer means to the client: success and 4xx drop the key, a server error keeps it. */
  predicate Settles(answer: Answer) {
    !answer.ReferenceFailed?
  }

  /** The mutable part of the view model. */
  class SubmissionState {
    var savedForm: Option<Form>
    var savedKey: Option<nat>
    var busy: bool

    constructor ()
      ensures savedForm == None && savedKey == None && !busy
    {
      savedForm, savedKey, busy := None, None, false;
    }

    ghost predicate Shows(c: Client)
      reads this
    {
      && savedForm == (if c.pending.Some? then Some(c.pending.value.form) else None)
      && savedKey == (if c.pending.Some? then Some(c.pending.value.key) else None)
      && busy == c.inFlight.Some?
    }

    /** createTransfer up to its request. */
    method Begin(form: Form, newKey: nat) returns (key: Option<nat>)
      modifies this
      ensures forall c, request | old(Shows(c)) && (c.pending.Some? ==> c.pending.value.key != newKey) ::
                if c.inFlight.Some? then Shows(c) && key == None
                else Shows(Press(c, form, newKey, request)) && key == Some(KeyFor(c, form, newKey))
    {
      if busy {
        return None;
      }
      busy := true;
      if savedForm.Some? && Canonical(savedForm.value) == Canonical(form) && savedKey.Some? {
        return savedKey;
      }
      savedForm, savedKey := Some(form), Some(newKey);
      key := Some(newKey);
    }

    /** The end of the request: `drop` on success or 4xx. */
    method Finish(drop: bool)
      modifies this
      ensures forall c | old(Shows(c)) :: Shows(Client(if drop then None else c.pending, None))
    {
      if drop {
        savedForm, savedKey := None, None;
      }
      busy := false;
    }
  }

  // ----- Client and server together -----

  /** What the client sent as a request. */
  datatype Sent = Sent(form: Form, key: nat)

  /** `stamps` is history: which fields each key of this client was made for. `foreign` are the keys others used for this sender. */
  datatype System = System(
    server: World, client: Client, sent: map<nat, Sent>, stamps: map<nat, Fingerprint>, foreign: set<nat>)

  datatype Step =
    | PressSend(form: Form, newKey: nat, request: nat)
    | Deliver(request: nat, valid: bool, now: Instant)
    | Serve(event: Event)
    | Hear
    | Lose
    | Refuse

  /** The sender signed in on this client. */
  const ME := 0

  /** The button does something: nothing is in flight, and request and random key are new. */
  predicate Effective(s: System, step: Step) {
    && step.PressSend? && Clean(step.form)
    && s.client.inFlight.None?
    && step.request !in s.sent && step.request !in s.server.requests
    && step.newKey !in s.stamps && step.newKey !in s.foreign
  }

  /** Requests of others never use a key this client generated. */
  predicate FromOthers(s: System, e: Event) {
    e.Arrive? ==>
      && e.request !in s.sent
      && (e.submission.sender == ME && e.submission.key.Some? ==> e.submission.key.value !in s.stamps)
  }

  function SubmissionOf(sent: Sent): Submission {
    Submission(ME, Some(sent.key), OnTheWire(sent.form))
  }

  function Next(s: System, step: Step, limits: Limits): System {
    match step
    case PressSend(form, newKey, request) =>
      if !Effective(s, step) then s
      else
        var key := KeyFor(s.client, form, newKey);
        s.(client := Press(s.client, form, newKey, request),
           sent := s.sent[request := Sent(form, key)],
           stamps := if key == newKey then s.stamps[newKey := OnTheWire(form)] else s.stamps)
    case Deliver(request, valid, now) =>
      if request !in s.sent then s
      else s.(server := TransferCreation.Next(s.server, Arrive(request, SubmissionOf(s.sent[request]), valid, now), limits))
    case Serve(event) =>
      if !FromOthers(s, event) then s
      else
        s.(server := TransferCreation.Next(s.server, event, limits),
           foreign :=
             if event.Arrive? && event.submission.sender == ME && event.submission.key.Some?
             then s.foreign + {event.submission.key.value} else s.foreign)
    case Hear =>
      if s.client.inFlight.None? || s.client.inFlight.value !in s.server.requests ||
         !s.server.requests[s.client.inFlight.value].Answered?
      then s
      else
        s.(client := Client(if Settles(s.server.requests[s.client.inFlight.value].answer) then None else s.client.pending, None))
    case Lose => s.(client := Client(s.client.pending, None))
    case Refuse => if s.client.inFlight.None? then s else s.(client := Client(None, None))
  }

  const START := System(EMPTY, Client(None, None), map[], map[], {})

  ghost predicate IsRun(systems: seq<System>, steps: seq<Step>, limits: Limits) {
    && |systems| == |steps| + 1
    && systems[0] == START
    && (forall i | 0 <= i < |steps| :: systems[i + 1] == Next(systems[i], steps[i], limits))
  }

  // ----- The invariant -----

  /** A kept key is stamped with the fields of the form it is kept for. */
  predicate ClientOk(s: System) {
    s.client.pending.Some? ==>
      var pending := s.client.pending.value;
      Clean(pending.form) && pending.key in s.stamps && s.stamps[pending.key] == OnTheWire(pending.form)
  }

  predicate SentOk(s: System) {
    && s.stamps.Keys !! s.foreign
    && (forall request | request in s.sent ::
          var sent := s.sent[request];
          Clean(sent.form) && sent.key in s.stamps && s.stamps[sent.key] == OnTheWire(sent.form))
  }

  /** A submission under one of this client's keys carries the fields the key was made for. */
  predicate Consistent(s: System, submission: Submission) {
    submission.sender == ME && submission.key.Some? ==>
      if submission.key.value in s.stamps then submission.fingerprint == s.stamps[submission.key.value]
      else submission.key.value in s.foreign
  }

  predicate ServerOk(s: System) {
    && (forall request | request in s.server.requests :: Consistent(s, s.server.requests[request].submission))
    && (forall at | at in s.server.store.entries ::
          Consistent(s, Submission(at.0, Some(at.1), s.server.store.entries[at].fingerprint)))
    && (forall request | request in s.sent && request in s.server.requests ::
          s.server.requests[request].submission == SubmissionOf(s.sent[request]))
  }

  /** No request of this client is told its key was used for something else. */
  predicate NeverReused(s: System) {
    forall request | request in s.sent && request in s.server.requests && s.server.requests[request].Answered? ::
      s.server.requests[request].answer != KeyReused
  }

  predicate Inv(s: System) {
    ClientOk(s) && SentOk(s) && ServerOk(s) && NeverReused(s)
  }

  lemma PressKeeps(s: System, step: Step, limits: Limits)
    requires Inv(s) && step.PressSend?
    ensures Inv(Next(s, step, limits))
  {
    if Effective(s, step) && s.client.pending.Some? {
      SameCanonicalSameRequest(s.client.pending.value.form, step.form);
    }
    hide Clean, Canonical, OnTheWire;
  }

  /** The server's part: rows and answers stay consistent with the keys' stamps. */
  lemma ServeKeeps(s: System, e: Event, t: System, limits: Limits)
    requires Inv(s) && t.server == TransferCreation.Next(s.server, e, limits)
    requires t.client == s.client && t.sent == s.sent && t.stamps == s.stamps && s.foreign <= t.foreign
    requires e.Arrive? ==> Consistent(t, e.submission)
    requires e.Arrive? && e.request in s.sent ==> e.submission == SubmissionOf(s.sent[e.request])
    requires t.stamps.Keys !! t.foreign
    ensures Inv(t)
  {
    hide Clean, Canonical, OnTheWire, ActiveCount, RecentCount, ReferenceTaken;
    if e.Try? && e.request in s.server.requests {
      assert Consistent(s, s.server.requests[e.request].submission);
    }
    forall at | at in t.server.store.entries
      ensures Consistent(t, Submission(at.0, Some(at.1), t.server.store.entries[at].fingerprint))
    {
      if at in s.server.store.entries {
        assert Consistent(s, Submission(at.0, Some(at.1), s.server.store.entries[at].fingerprint));
      }
    }
    AnswersStayFree(s, e, t, limits);
  }

  lemma AnswersStayFree(s: System, e: Event, t: System, limits: Limits)
    requires SentOk(s) && ServerOk(s) && NeverReused(s) && t.server == TransferCreation.Next(s.server, e, limits) && t.sent == s.sent
    requires e.Arrive? && e.request in s.sent ==> e.submission == SubmissionOf(s.sent[e.request])
    ensures NeverReused(t)
  {
    hide Clean, Canonical, OnTheWire, ActiveCount, RecentCount, ReferenceTaken;
    forall request | request in t.sent && request in t.server.requests && t.server.requests[request].Answered?
      ensures t.server.requests[request].answer != KeyReused
    {
      var sent := s.sent[request];
      if (ME, sent.key) in s.server.store.entries {
        assert Consistent(s, Submission(ME, Some(sent.key), s.server.store.entries[(ME, sent.key)].fingerprint));
      }
    }
  }

  lemma StepKeeps(s: System, step: Step, limits: Limits)
    requires Inv(s)
    ensures Inv(Next(s, step, limits))
  {
    if step.PressSend? {
      PressKeeps(s, step, limits);
    } else if step.Deliver? && step.request in s.sent {
      hide OnTheWire, Clean;
      ServeKeeps(s, Arrive(step.request, SubmissionOf(s.sent[step.request]), step.valid, step.now), Next(s, step, limits), limits);
    } else if step.Serve? && FromOthers(s, step.event) {
      ServeKeeps(s, step.event, Next(s, step, limits), limits);
    }
  }
}
