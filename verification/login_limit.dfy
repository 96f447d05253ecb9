/**
 The limiter around passwords (auth/rateLimit.ts as auth/service.ts uses it). A login reads and records its three
 buckets in one transaction. A password change reads them in one transaction, checks the password, and records a
 failure in another without reading again, so failures admitted together are all recorded.

 `log` is history: every recorded failure with its address and the request's clock reading, and whether the address's
 bucket was blocking at that reading.
 */
module LoginLimit {
  import opened Common
  import opened RateLimit

  /** What the hashed key strings name; the prefixes keep them apart. */
  datatype Key = Registration(address: nat) | Address(address: nat) | AddressAndAccount(address: nat, account: nat) | Account(account: nat)

  /** Who is trying: an address and the account it tries. */
  datatype Source = Source(address: nat, account: nat)

  datatype LoginRules = LoginRules(address: Rule, addressAndAccount: Rule, account: Rule)

  type Buckets = map<Key, Bucket>

  function Find(buckets: Buckets, key: Key): Option<Bucket> {
    if key in buckets then Some(buckets[key]) else None
  }

  /** buildLoginRateLimitKeys */
  function Keys(source: Source): seq<Key> {
    [Address(source.address), AddressAndAccount(source.address, source.account), Account(source.account)]
  }

  predicate Blocked(buckets: Buckets, source: Source, now: Instant) {
    exists i | 0 <= i < 3 :: Blocks(Find(buckets, Keys(source)[i]), now)
  }

  /** recordLoginFailure */
  function RecordFailure(buckets: Buckets, rules: LoginRules, source: Source, now: Instant): Buckets {
    buckets[Address(source.address) := Record(Find(buckets, Address(source.address)), rules.address, now)]
           [AddressAndAccount(source.address, source.account) :=
              Record(Find(buckets, AddressAndAccount(source.address, source.account)), rules.addressAndAccount, now)]
           [Account(source.account) := Record(Find(buckets, Account(source.account)), rules.account, now)]
  }

  /** clearLoginIdentifierRateLimits */
  function ClearIdentifiers(buckets: Buckets, source: Source): Buckets {
    buckets - {AddressAndAccount(source.address, source.account), Account(source.account)}
  }

  // ----- Interleaved runs -----

  /** A password change between its admission and its end. `mark` is history: how many failures were logged when it was admitted. */
  datatype Waiting = Waiting(source: Source, now: Instant, mark: nat)

  datatype Failure = Failure(address: nat, at: Instant, overdue: bool)

  datatype World = World(buckets: Buckets, waiting: map<nat, Waiting>, log: seq<Failure>)

  datatype Event =
    | LogIn(source: Source, correct: bool, now: Instant)
    | Admit(request: nat, source: Source, now: Instant)
    | Fail(request: nat)
    | Succeed(request: nat)
    | Lapse(request: nat)

  /** A failure goes into the three buckets and the log. */
  function Log(w: World, rules: LoginRules, source: Source, now: Instant): World {
    w.(buckets := RecordFailure(w.buckets, rules, source, now),
       log := w.log + [Failure(source.address, now, Blocks(Find(w.buckets, Address(source.address)), now))])
  }

  function Next(w: World, e: Event, rules: LoginRules): World {
    match e
    case LogIn(source, correct, now) =>
      if Blocked(w.buckets, source, now) then w
      else if correct then w.(buckets := ClearIdentifiers(w.buckets, source))
      else Log(w, rules, source, now)
    case Admit(request, source, now) =>
      if request in w.waiting || Blocked(w.buckets, source, now) then w
      else w.(waiting := w.waiting[request := Waiting(source, now, |w.log|)])
    case Fail(request) =>
      if request !in w.waiting then w
      else Log(w, rules, w.waiting[request].source, w.waiting[request].now).(waiting := w.waiting - {request})
    case Succeed(request) =>
      if request !in w.waiting then w
      else w.(buckets := ClearIdentifiers(w.buckets, w.waiting[request].source), waiting := w.waiting - {request})
    case Lapse(request) => w.(waiting := w.waiting - {request})
  }

  const EMPTY := World(map[], map[], [])

  ghost predicate IsRun(worlds: seq<World>, events: seq<Event>, rules: LoginRules) {
    && |worlds| == |events| + 1
    && worlds[0] == EMPTY
    && (forall i | 0 <= i < |events| :: worlds[i + 1] == Next(worlds[i], events[i], rules))
  }

  // ----- One address -----

  /** The clock readings of an address's failures: all of them, or without those recorded although its bucket blocked. */
  function TimesOf(log: seq<Failure>, address: nat, all: bool): seq<Instant> {
    if log == [] then []
    else
      var earlier, last := TimesOf(log[..|log| - 1], address, all), log[|log| - 1];
      if last.address == address && (all || !last.overdue) then earlier + [last.at] else earlier
  }

  /** How many of an address's failures in the half-open interval were recorded although its bucket blocked. */
  function OverdueWithin(log: seq<Failure>, address: nat, from: Instant, to: Instant): nat {
    if log == [] then 0
    else
      var last := log[|log| - 1];
      OverdueWithin(log[..|log| - 1], address, from, to) +
      if last.address == address && last.overdue && from <= last.at < to then 1 else 0
  }

  /** This event records a failure of the address while its bucket blocks: the reading that a second look would refuse. */
  predicate Overdue(w: World, e: Event, address: nat) {
    && e.Fail? && e.request in w.waiting && w.waiting[e.request].source.address == address
    && Blocks(Find(w.buckets, Address(address)), w.waiting[e.request].now)
  }

  function CountOf(w: World, address: nat): nat {
    if Address(address) in w.buckets then w.buckets[Address(address)].count else 0
  }

  predicate AddressOk(w: World, rules: LoginRules, address: nat) {
    Address(address) in w.buckets ==> WellFormed(w.buckets[Address(address)], rules.address)
  }

  lemma AddressNotBlocked(buckets: Buckets, source: Source, now: Instant)
    ensures !Blocked(buckets, source, now) ==> !Blocks(Find(buckets, Address(source.address)), now)
  {
    assert Keys(source)[0] == Address(source.address);
  }

  /** What one event does to an address's bucket: nothing, or one recording. */
  lemma AddressStep(w: World, e: Event, rules: LoginRules, address: nat)
    ensures var t := Next(w, e, rules);
            if |t.log| == |w.log| || t.log[|w.log|].address != address
            then Find(t.buckets, Address(address)) == Find(w.buckets, Address(address))
            else Find(t.buckets, Address(address)) ==
                 Some(Record(Find(w.buckets, Address(address)), rules.address, t.log[|w.log|].at))
    ensures var t := Next(w, e, rules);
            && w.log <= t.log && |t.log| <= |w.log| + 1
            && (|t.log| > |w.log| ==>
                  var f := t.log[|w.log|];
                  && f.overdue == Blocks(Find(w.buckets, Address(f.address)), f.at)
                  && (f.overdue && f.address == address <==> Overdue(w, e, address)))
            && (|t.log| == |w.log| ==> !Overdue(w, e, address))
  {
    if e.LogIn? {
      AddressNotBlocked(w.buckets, e.source, e.now);
    }
  }

  // ----- Exactly when a window holds at most the maximum -----

  lemma {:induction false} BucketsAreWellFormed(worlds: seq<World>, events: seq<Event>, rules: LoginRules, address: nat, i: nat)
    requires IsRun(worlds, events, rules) && i < |worlds| && Configurable(rules.address)
    ensures AddressOk(worlds[i], rules, address)
  {
    if i > 0 {
      BucketsAreWellFormed(worlds, events, rules, address, i - 1);
      assert worlds[i] == Next(worlds[i - 1], events[i - 1], rules);
      hide IsRun, Next;
      AddressStep(worlds[i - 1], events[i - 1], rules, address);
    }
  }

  /** From a window that holds at most the maximum, a recording stays within it if and only if the bucket was not blocking. */
  lemma RecordingFitsIffNotBlocked(bucket: Option<Bucket>, rule: Rule, now: Instant)
    requires Configurable(rule) && (bucket.Some? ==> WellFormed(bucket.value, rule))
    ensures Blocks(bucket, now) ==> Record(bucket, rule, now).count > rule.maximum
    ensures (bucket.Some? ==> bucket.value.count <= rule.maximum) && !Blocks(bucket, now) ==>
              Record(bucket, rule, now).count <= rule.maximum
  {
  }

  /**
   At every point of a run the current window of an address holds at most `maximum` failures, if and only if no password
   change recorded its failure while the address's bucket was blocking, which is what a second look would have shown.
   */
  lemma WindowsHoldIffNoneOverdue(worlds: seq<World>, events: seq<Event>, rules: LoginRules, address: nat)
    requires IsRun(worlds, events, rules) && Configurable(rules.address)
    ensures (forall i | 0 <= i < |worlds| :: CountOf(worlds[i], address) <= rules.address.maximum) <==>
            (forall i | 0 <= i < |events| :: !Overdue(worlds[i], events[i], address))
  {
    if forall i | 0 <= i < |events| :: !Overdue(worlds[i], events[i], address) {
      forall i | 0 <= i < |worlds| ensures CountOf(worlds[i], address) <= rules.address.maximum {
        NoneOverdueHolds(worlds, events, rules, address, i);
      }
    } else {
      var i :| 0 <= i < |events| && Overdue(worlds[i], events[i], address);
      OverdueOverflows(worlds, events, rules, address, i);
    }
  }

  lemma OverdueOverflows(worlds: seq<World>, events: seq<Event>, rules: LoginRules, address: nat, i: nat)
    requires IsRun(worlds, events, rules) && Configurable(rules.address) && i < |events|
    requires Overdue(worlds[i], events[i], address)
    ensures CountOf(worlds[i + 1], address) > rules.address.maximum
  {
    BucketsAreWellFormed(worlds, events, rules, address, i);
    AddressStep(worlds[i], events[i], rules, address);
    var f := worlds[i + 1].log[|worlds[i].log|];
    RecordingFitsIffNotBlocked(Find(worlds[i].buckets, Address(address)), rules.address, f.at);
  }

  lemma {:induction false} NoneOverdueHolds(worlds: seq<World>, events: seq<Event>, rules: LoginRules, address: nat, i: nat)
    requires IsRun(worlds, events, rules) && Configurable(rules.address) && i < |worlds|
    requires forall k | 0 <= k < |events| :: !Overdue(worlds[k], events[k], address)
    ensures CountOf(worlds[i], address) <= rules.address.maximum
  {
    if i > 0 {
      NoneOverdueHolds(worlds, events, rules, address, i - 1);
      BucketsAreWellFormed(worlds, events, rules, address, i - 1);
      var w, t := worlds[i - 1], worlds[i];
      assert t == Next(w, events[i - 1], rules);
      hide IsRun, Next;
      AddressStep(w, events[i - 1], rules, address);
      if |t.log| > |w.log| && t.log[|w.log|].address == address {
        RecordingFitsIffNotBlocked(Find(w.buckets, Address(address)), rules.address, t.log[|w.log|].at);
      }
    }
  }

  // ----- Any interval of one window -----

  /** The bucket as it would be without the overdue recordings. */
  function Capped(bucket: Option<Bucket>, rule: Rule): Option<Bucket> {
    if bucket.Some? && bucket.value.count > rule.maximum then Some(bucket.value.(count := rule.maximum)) else bucket
  }

  lemma CappedStep(bucket: Option<Bucket>, rule: Rule, now: Instant)
    requires Configurable(rule) && (bucket.Some? ==> WellFormed(bucket.value, rule))
    ensures Blocks(Capped(bucket, rule), now) == Blocks(bucket, now)
    ensures Blocks(bucket, now) ==> Capped(Some(Record(bucket, rule, now)), rule) == Capped(bucket, rule)
    ensures !Blocks(bucket, now) ==>
              Capped(Some(Record(bucket, rule, now)), rule) == Some(Record(Capped(bucket, rule), rule, now))
  {
  }

  function Latest(times: seq<Instant>, otherwise: Instant): Instant {
    if times == [] then otherwise else times[|times| - 1]
  }

  lemma TimesGrow(log: seq<Failure>, f: Failure, address: nat, all: bool)
    ensures TimesOf(log + [f], address, all) ==
            if f.address == address && (all || !f.overdue) then TimesOf(log, address, all) + [f.at] else TimesOf(log, address, all)
  {
    assert (log + [f])[..|log|] == log;
  }

  /** This limiter recorded exactly the failures of the log that were not overdue, and its bucket is the capped one. */
  predicate Shadows(l: Limiter, w: World, rules: LoginRules, address: nat) {
    && l.bucket == Capped(Find(w.buckets, Address(address)), rules.address)
    && l.recorded == TimesOf(w.log, address, false)
    && Inv(l, rules.address, Latest(l.recorded, 0))
  }

  lemma ShadowStep(l: Limiter, w: World, e: Event, rules: LoginRules, address: nat) returns (after: Limiter)
    requires Configurable(rules.address) && AddressOk(w, rules, address) && Shadows(l, w, rules, address)
    requires InOrder(TimesOf(Next(w, e, rules).log, address, false))
    ensures Shadows(after, Next(w, e, rules), rules, address)
  {
    var t := Next(w, e, rules);
    AddressStep(w, e, rules, address);
    hide Next, Inv, TimesOf;
    if |t.log| == |w.log| {
      assert t.log == w.log;
      after := l;
    } else {
      var f := t.log[|w.log|];
      assert t.log == w.log + [f];
      TimesGrow(w.log, f, address, false);
      hide InOrder;
      if f.address == address {
        after := ShadowRecords(l, rules.address, Find(w.buckets, Address(address)), f, TimesOf(t.log, address, false));
      } else {
        after := l;
      }
    }
  }

  /** A limiter that looks before it records would have recorded the same failures but for the overdue ones. */
  lemma {:induction false} Shadow(worlds: seq<World>, events: seq<Event>, rules: LoginRules, address: nat, i: nat) returns (l: Limiter)
    requires IsRun(worlds, events, rules) && Configurable(rules.address) && i < |worlds|
    requires InOrder(TimesOf(worlds[i].log, address, false))
    ensures Shadows(l, worlds[i], rules, address)
  {
    if i == 0 {
      l := NEW;
    } else {
      assert worlds[i] == Next(worlds[i - 1], events[i - 1], rules);
      BucketsAreWellFormed(worlds, events, rules, address, i - 1);
      hide IsRun, Shadows, Inv, AddressOk, TimesOf, InOrder, Next;
      TimesPrefix(worlds[i - 1], events[i - 1], rules, address);
      l := Shadow(worlds, events, rules, address, i - 1);
      l := ShadowStep(l, worlds[i - 1], events[i - 1], rules, address);
    }
  }

  lemma TimesPrefix(w: World, e: Event, rules: LoginRules, address: nat)
    requires InOrder(TimesOf(Next(w, e, rules).log, address, false))
    ensures InOrder(TimesOf(w.log, address, false))
  {
    var t := Next(w, e, rules);
    AddressStep(w, e, rules, address);
    hide Next, TimesOf;
    if |t.log| > |w.log| {
      var f := t.log[|w.log|];
      assert t.log == w.log + [f];
      TimesGrow(w.log, f, address, false);
      PrefixInOrder(TimesOf(w.log, address, false), TimesOf(t.log, address, false));
    } else {
      assert t.log == w.log;
    }
  }

  lemma PrefixInOrder(front: seq<Instant>, times: seq<Instant>)
    requires front <= times && InOrder(times)
    ensures InOrder(front)
  {
    assert forall k | 0 <= k < |front| :: front[k] == times[k];
  }

  lemma ShadowRecords(l: Limiter, rule: Rule, bucket: Option<Bucket>, f: Failure, times: seq<Instant>) returns (after: Limiter)
    requires Configurable(rule) && (bucket.Some? ==> WellFormed(bucket.value, rule))
    requires l.bucket == Capped(bucket, rule) && Inv(l, rule, Latest(l.recorded, 0)) && f.overdue == Blocks(bucket, f.at)
    requires InOrder(times) && times == if f.overdue then l.recorded else l.recorded + [f.at]
    ensures after.bucket == Capped(Some(Record(bucket, rule, f.at)), rule)
    ensures after.recorded == times && Inv(after, rule, Latest(times, 0))
  {
    CappedStep(bucket, rule, f.at);
    if f.overdue {
      after := l;
    } else {
      var clock := Latest(l.recorded, f.at);
      assert clock <= f.at by {
        if l.recorded != [] {
          assert times[|l.recorded| - 1] <= times[|l.recorded|];
        }
      }
      assert Inv(l, rule, clock);
      after := Arrive(l, rule, f.at, false);
      hide Inv;
      ArriveKeeps(l, rule, clock, f.at, false);
    }
  }

  lemma OverdueGrows(log: seq<Failure>, f: Failure, address: nat, from: Instant, to: Instant)
    ensures OverdueWithin(log + [f], address, from, to) ==
            OverdueWithin(log, address, from, to) + if f.address == address && f.overdue && from <= f.at < to then 1 else 0
  {
    assert (log + [f])[..|log|] == log;
  }

  lemma {:induction false} SplitFailures(log: seq<Failure>, address: nat, from: Instant, to: Instant)
    ensures Within(TimesOf(log, address, true), from, to) ==
            Within(TimesOf(log, address, false), from, to) + OverdueWithin(log, address, from, to)
  {
    if log != [] {
      hide TimesOf, Within, OverdueWithin;
      var front, last := log[..|log| - 1], log[|log| - 1];
      assert log == front + [last];
      SplitFailures(front, address, from, to);
      TimesGrow(front, last, address, true);
      TimesGrow(front, last, address, false);
      OverdueGrows(front, last, address, from, to);
      WithinSnoc(TimesOf(front, address, true), last.at, from, to);
      WithinSnoc(TimesOf(front, address, false), last.at, from, to);
    }
  }

  lemma WithinSnoc(times: seq<Instant>, at: Instant, from: Instant, to: Instant)
    ensures Within(times + [at], from, to) == Within(times, from, to) + if from <= at < to then 1 else 0
  {
    assert (times + [at])[..|times|] == times;
  }

  /**
   In any interval of one window an address has at most 2 * maximum - 1 failures besides the overdue ones, provided
   those were recorded in clock order.
   */
  lemma FailuresAreBoundedButForOverdue(worlds: seq<World>, events: seq<Event>, rules: LoginRules, address: nat, i: nat, from: Instant)
    requires IsRun(worlds, events, rules) && Configurable(rules.address) && i < |worlds|
    requires InOrder(TimesOf(worlds[i].log, address, false))
    ensures var log, to := worlds[i].log, from + Window(rules.address);
            Within(TimesOf(log, address, true), from, to) <=
            2 * rules.address.maximum - 1 + OverdueWithin(log, address, from, to)
  {
    hide IsRun, Within, TimesOf, OverdueWithin, InOrder, Capped;
    var l := Shadow(worlds, events, rules, address, i);
    ShadowIsBounded(l, rules.address, worlds[i].log, address, from);
  }

  lemma ShadowIsBounded(l: Limiter, rule: Rule, log: seq<Failure>, address: nat, from: Instant)
    requires Configurable(rule) && Inv(l, rule, Latest(l.recorded, 0)) && l.recorded == TimesOf(log, address, false)
    ensures Within(TimesOf(log, address, true), from, from + Window(rule)) <=
            2 * rule.maximum - 1 + OverdueWithin(log, address, from, from + Window(rule))
  {
    hide Inv, Within, TimesOf, OverdueWithin, Window;
    FewInOneWindow(l, rule, Latest(l.recorded, 0), from);
    SplitFailures(log, address, from, from + Window(rule));
  }

  // ----- When the bound holds -----

  predicate Ticks(e: Event) {
    e.LogIn? || e.Admit?
  }

  /** Requests read the clock in the order in which they first reach the database. */
  ghost predicate ClockOrder(events: seq<Event>) {
    forall i, j | 0 <= i < j < |events| && Ticks(events[i]) && Ticks(events[j]) :: events[i].now <= events[j].now
  }

  predicate NoneSince(log: seq<Failure>, address: nat, mark: nat) {
    forall k | mark <= k < |log| :: log[k].address != address
  }

  /** A failed password change is recorded before any other failure of its address. */
  predicate Prompt(w: World, e: Event, address: nat) {
    e.Fail? && e.request in w.waiting && w.waiting[e.request].source.address == address ==>
      NoneSince(w.log, address, w.waiting[e.request].mark)
  }

  /** Nothing logged or waiting has a later clock reading. */
  predicate NotAfter(w: World, t: Instant) {
    && (forall k | 0 <= k < |w.log| :: w.log[k].at <= t)
    && (forall r | r in w.waiting :: w.waiting[r].now <= t)
  }

  /** No failure of the address was overdue, its failures are in clock order, and a change admitted after the last of them is still welcome. */
  predicate Timely(w: World, address: nat) {
    && (forall k | 0 <= k < |w.log| && w.log[k].address == address :: !w.log[k].overdue)
    && (forall j, k | 0 <= j < k < |w.log| && w.log[j].address == w.log[k].address == address :: w.log[j].at <= w.log[k].at)
    && (forall r | r in w.waiting && w.waiting[r].source.address == address ::
          var p := w.waiting[r];
          && p.mark <= |w.log|
          && (NoneSince(w.log, address, p.mark) ==>
                && !Blocks(Find(w.buckets, Address(address)), p.now)
                && forall k | 0 <= k < |w.log| && w.log[k].address == address :: w.log[k].at <= p.now))
  }

  lemma NotAfterStep(w: World, e: Event, rules: LoginRules, t: Instant)
    requires NotAfter(w, t) && (Ticks(e) ==> e.now <= t)
    ensures NotAfter(Next(w, e, rules), t)
  {
  }

  lemma TimelyStep(w: World, e: Event, rules: LoginRules, address: nat)
    requires Timely(w, address) && Prompt(w, e, address) && (Ticks(e) ==> NotAfter(w, e.now))
    ensures Timely(Next(w, e, rules), address)
  {
    AddressStep(w, e, rules, address);
    if e.Admit? {
      AddressNotBlocked(w.buckets, e.source, e.now);
    }
    hide RecordFailure, ClearIdentifiers, Blocked, Blocks;
  }

  lemma {:induction false} RunIsTimely(worlds: seq<World>, events: seq<Event>, rules: LoginRules, address: nat, i: nat)
    requires IsRun(worlds, events, rules) && i < |worlds| && ClockOrder(events)
    requires forall k | 0 <= k < |events| :: Prompt(worlds[k], events[k], address)
    ensures Timely(worlds[i], address)
    ensures forall j | i <= j < |events| && Ticks(events[j]) :: NotAfter(worlds[i], events[j].now)
  {
    if i > 0 {
      RunIsTimely(worlds, events, rules, address, i - 1);
      assert worlds[i] == Next(worlds[i - 1], events[i - 1], rules);
      hide IsRun, Next, Timely, NotAfter, Prompt;
      TimelyStep(worlds[i - 1], events[i - 1], rules, address);
      forall j | i <= j < |events| && Ticks(events[j]) ensures NotAfter(worlds[i], events[j].now) {
        NotAfterStep(worlds[i - 1], events[i - 1], rules, events[j].now);
      }
    }
  }

  lemma {:induction false} TimelyTimes(log: seq<Failure>, address: nat, from: Instant, to: Instant)
    requires forall k | 0 <= k < |log| && log[k].address == address :: !log[k].overdue
    requires forall j, k | 0 <= j < k < |log| && log[j].address == log[k].address == address :: log[j].at <= log[k].at
    ensures OverdueWithin(log, address, from, to) == 0
    ensures InOrder(TimesOf(log, address, false))
    ensures forall t | t in TimesOf(log, address, false) :: exists k :: 0 <= k < |log| && log[k].address == address && log[k].at == t
  {
    if log != [] {
      var front, last := log[..|log| - 1], log[|log| - 1];
      TimelyTimes(front, address, from, to);
      assert forall k | 0 <= k < |front| :: front[k] == log[k];
      if last.address == address {
        forall t | t in TimesOf(front, address, false) ensures t <= last.at {
          var k :| 0 <= k < |front| && front[k].address == address && front[k].at == t;
          assert log[k].at <= log[|front|].at;
        }
        var times := TimesOf(front, address, false);
        assert forall i | 0 <= i < |times| :: times[i] in times;
      }
    }
  }

  /**
   With clocks in order, an address has at most 2 * maximum - 1 password failures in any half-open interval of one window,
   if every failed password change is recorded before any other failure of that address since its admission.
   */
  lemma PromptFailuresAreBounded(worlds: seq<World>, events: seq<Event>, rules: LoginRules, address: nat, i: nat, from: Instant)
    requires IsRun(worlds, events, rules) && Configurable(rules.address) && i < |worlds| && ClockOrder(events)
    requires forall k | 0 <= k < |events| :: Prompt(worlds[k], events[k], address)
    ensures Within(TimesOf(worlds[i].log, address, true), from, from + Window(rules.address)) <= 2 * rules.address.maximum - 1
  {
    RunIsTimely(worlds, events, rules, address, i);
    TimelyTimes(worlds[i].log, address, from, from + Window(rules.address));
    hide IsRun, Prompt, ClockOrder, Timely, NotAfter, Within, TimesOf, OverdueWithin, InOrder;
    FailuresAreBoundedButForOverdue(worlds, events, rules, address, i, from);
  }

  /** Logins alone never exceed the bound, whatever accounts they try and however many succeed in between. */
  lemma LoginFailuresAreBounded(worlds: seq<World>, events: seq<Event>, rules: LoginRules, address: nat, i: nat, from: Instant)
    requires IsRun(worlds, events, rules) && Configurable(rules.address) && i < |worlds| && ClockOrder(events)
    requires forall k | 0 <= k < |events| :: events[k].LogIn?
    ensures Within(TimesOf(worlds[i].log, address, true), from, from + Window(rules.address)) <= 2 * rules.address.maximum - 1
  {
    hide IsRun, ClockOrder, Within, TimesOf;
    PromptFailuresAreBounded(worlds, events, rules, address, i, from);
  }

  // ----- And when it does not -----

  function Admissions(source: Source, at: Instant, n: nat): (events: seq<Event>)
    ensures forall i | 0 <= i < |events| :: events[i].Admit? && events[i].now == at
  {
    if n == 0 then [] else Admissions(source, at, n - 1) + [Admit(n - 1, source, at)]
  }

  function Recordings(n: nat): (events: seq<Event>)
    ensures forall i | 0 <= i < |events| :: events[i].Fail?
  {
    if n == 0 then [] else Recordings(n - 1) + [Fail(n - 1)]
  }

  /** The same wrong password change sent `n` times at once: all are admitted before the first is recorded. */
  function Stampede(source: Source, at: Instant, n: nat): seq<Event> {
    Admissions(source, at, n) + Recordings(n)
  }

  lemma OneMore(worlds: seq<World>, events: seq<Event>, e: Event, rules: LoginRules) returns (more: seq<World>)
    requires IsRun(worlds, events, rules)
    ensures IsRun(more, events + [e], rules) && more[|events| + 1] == Next(worlds[|events|], e, rules)
  {
    hide Next;
    more := worlds + [Next(worlds[|events|], e, rules)];
  }

  /** `from` up to `to` are waiting with the same source and reading, and what is logged has them too. */
  ghost predicate Trampling(w: World, source: Source, at: Instant, from: nat, to: nat) {
    && |w.log| == from && (forall i | 0 <= i < |w.log| :: w.log[i].address == source.address && w.log[i].at == at)
    && (forall r | r in w.waiting :: w.waiting[r].source == source && w.waiting[r].now == at)
    && (forall r: nat :: r in w.waiting <==> from <= r < to)
  }

  lemma {:induction false} AllAreAdmitted(source: Source, at: Instant, n: nat, rules: LoginRules) returns (worlds: seq<World>)
    ensures IsRun(worlds, Admissions(source, at, n), rules)
    ensures var w := worlds[|worlds| - 1]; w.buckets == map[] && Trampling(w, source, at, 0, n)
  {
    if n == 0 {
      worlds := [EMPTY];
    } else {
      var earlier := AllAreAdmitted(source, at, n - 1, rules);
      hide IsRun;
      worlds := OneMore(earlier, Admissions(source, at, n - 1), Admit(n - 1, source, at), rules);
      RunLength(earlier, Admissions(source, at, n - 1), rules);
      RunLength(worlds, Admissions(source, at, n), rules);
      assert !Blocked(map[], source, at);
    }
  }

  lemma RunLength(worlds: seq<World>, events: seq<Event>, rules: LoginRules)
    requires IsRun(worlds, events, rules)
    ensures |worlds| == |events| + 1
  {
  }

  lemma {:induction false} AllAreRecorded(source: Source, at: Instant, n: nat, k: nat, rules: LoginRules) returns (worlds: seq<World>)
    requires k <= n
    ensures IsRun(worlds, Admissions(source, at, n) + Recordings(k), rules)
    ensures Trampling(worlds[|worlds| - 1], source, at, k, n)
  {
    if k == 0 {
      worlds := AllAreAdmitted(source, at, n, rules);
      assert Admissions(source, at, n) + Recordings(0) == Admissions(source, at, n);
    } else {
      var earlier := AllAreRecorded(source, at, n, k - 1, rules);
      hide IsRun, Trampling;
      var events := Admissions(source, at, n) + Recordings(k - 1);
      worlds := OneMore(earlier, events, Fail(k - 1), rules);
      assert events + [Fail(k - 1)] == Admissions(source, at, n) + Recordings(k);
      RunLength(earlier, events, rules);
      RunLength(worlds, events + [Fail(k - 1)], rules);
      TrampleOne(earlier[|earlier| - 1], source, at, k - 1, n, rules);
    }
  }

  lemma TrampleOne(w: World, source: Source, at: Instant, k: nat, n: nat, rules: LoginRules)
    requires Trampling(w, source, at, k, n) && k < n
    ensures Trampling(Next(w, Fail(k), rules), source, at, k + 1, n)
  {
    hide RecordFailure, Blocks;
  }

  lemma {:induction false} AllWithin(log: seq<Failure>, address: nat, at: Instant, to: Instant)
    requires at < to && forall i | 0 <= i < |log| :: log[i].address == address && log[i].at == at
    ensures Within(TimesOf(log, address, true), at, to) == |log|
  {
    if log != [] {
      var front, last := log[..|log| - 1], log[|log| - 1];
      AllWithin(front, address, at, to);
      WithinSnoc(TimesOf(front, address, true), last.at, at, to);
    }
  }

  /** Password changes admitted together have no bound at all: any number of failures can fall on one instant. */
  lemma AdmittedTogetherIsUnbounded(source: Source, at: Instant, n: nat, rules: LoginRules) returns (worlds: seq<World>)
    requires Configurable(rules.address)
    ensures IsRun(worlds, Stampede(source, at, n), rules) && ClockOrder(Stampede(source, at, n))
    ensures Within(TimesOf(worlds[|worlds| - 1].log, source.address, true), at, at + Window(rules.address)) == n
  {
    worlds := AllAreRecorded(source, at, n, n, rules);
    AllWithin(worlds[|worlds| - 1].log, source.address, at, at + Window(rules.address));
  }

  // ----- The stored buckets -----

  /** The findMany over some keys. */
  function Found(buckets: Buckets, keys: seq<Key>): seq<Bucket> {
    if keys == [] then []
    else (if keys[0] in buckets then [buckets[keys[0]]] else []) + Found(buckets, keys[1..])
  }

  predicate AnyBlocks(buckets: Buckets, keys: seq<Key>, now: Instant) {
    exists i | 0 <= i < |keys| :: Blocks(Find(buckets, keys[i]), now)
  }

  lemma {:induction false} FoundHolds(buckets: Buckets, keys: seq<Key>, b: Bucket)
    ensures b in Found(buckets, keys) <==> exists i | 0 <= i < |keys| :: Find(buckets, keys[i]) == Some(b)
  {
    if keys != [] {
      FoundHolds(buckets, keys[1..], b);
      assert (exists i | 0 <= i < |keys| :: Find(buckets, keys[i]) == Some(b)) <==>
        Find(buckets, keys[0]) == Some(b) || exists i | 0 <= i < |keys[1..]| :: Find(buckets, keys[1..][i]) == Some(b);
    }
  }

  lemma FoundBlocks(buckets: Buckets, keys: seq<Key>, now: Instant)
    ensures AnyBlocks(buckets, keys, now) <==> exists i | 0 <= i < |Found(buckets, keys)| :: Blocks(Some(Found(buckets, keys)[i]), now)
  {
    var found := Found(buckets, keys);
    if AnyBlocks(buckets, keys, now) {
      var i :| 0 <= i < |keys| && Blocks(Find(buckets, keys[i]), now);
      var b := buckets[keys[i]];
      assert Find(buckets, keys[i]) == Some(b);
      FoundHolds(buckets, keys, b);
      var k :| 0 <= k < |found| && found[k] == b;
    }
    forall k | 0 <= k < |found| && Blocks(Some(found[k]), now) ensures AnyBlocks(buckets, keys, now) {
      FoundHolds(buckets, keys, found[k]);
    }
  }

  class RateLimiter {
    var buckets: Buckets

    constructor ()
      ensures buckets == map[]
    {
      buckets := map[];
    }

    /** INSERT ... ON CONFLICT DO UPDATE. */
    method RecordBucketAttempt(key: Key, rule: Rule, now: Instant)
      modifies this
      ensures buckets == old(buckets)[key := Record(Find(old(buckets), key), rule, now)]
    {
      var expiredBefore := now - rule.windowSeconds * 1_000;
      if key !in buckets {
        buckets := buckets[key := Bucket(1, now, None)];
        return;
      }
      var row := buckets[key];
      var expired := row.windowStart <= expiredBefore;
      var count := if expired then 1 else row.count + 1;
      var windowStart := if expired then now else row.windowStart;
      var blockedUntil :=
        if expired then None
        else if row.count + 1 >= rule.maximum then Some(row.windowStart + rule.windowSeconds * 1_000)
        else None;
      buckets := buckets[key := Bucket(count, windowStart, blockedUntil)];
    }

    /** readRateLimit: blocked exactly if some bucket blocks, and then for long enough that none still does. */
    method Read(keys: seq<Key>, now: Instant) returns (decision: Decision)
      ensures decision.blocked <==> AnyBlocks(buckets, keys, now)
      ensures decision.blocked ==> decision.retryAfterSeconds >= 1
      ensures decision.blocked ==> !AnyBlocks(buckets, keys, now + decision.retryAfterSeconds * SECOND)
      ensures decision.blocked ==> AnyBlocks(buckets, keys, now + (decision.retryAfterSeconds - 1) * SECOND)
    {
      var found := Found(buckets, keys);
      decision := Decide(found, now);
      RetryReachesEveryBlock(found, now);
      hide AnyBlocks, Blocks, Found;
      FoundBlocks(buckets, keys, now);
      FoundBlocks(buckets, keys, now + decision.retryAfterSeconds * SECOND);
      FoundBlocks(buckets, keys, now + (decision.retryAfterSeconds - 1) * SECOND);
    }

    /** The admission transaction of registerSender. */
    method AdmitRegistration(address: nat, rule: Rule, now: Instant) returns (decision: Decision)
      modifies this
      ensures decision.blocked == Blocks(Find(old(buckets), Registration(address)), now)
      ensures forall l: Limiter | l.bucket == Find(old(buckets), Registration(address)) ::
                Find(buckets, Registration(address)) == Arrive(l, rule, now, false).bucket
      ensures forall other | other != Registration(address) :: Find(buckets, other) == Find(old(buckets), other)
    {
      decision := Read([Registration(address)], now);
      assert AnyBlocks(buckets, [Registration(address)], now) == Blocks(Find(buckets, [Registration(address)][0]), now);
      if !decision.blocked {
        RecordBucketAttempt(Registration(address), rule, now);
      }
    }

    /** The limiter's part of login's transaction. */
    method Login(source: Source, rules: LoginRules, correct: bool, now: Instant) returns (admitted: bool)
      modifies this
      ensures admitted == !Blocked(old(buckets), source, now)
      ensures forall w: World | w.buckets == old(buckets) :: buckets == Next(w, LogIn(source, correct, now), rules).buckets
    {
      var decision := Read(Keys(source), now);
      assert AnyBlocks(buckets, Keys(source), now) == Blocked(buckets, source, now);
      if decision.blocked {
        return false;
      }
      if correct {
        ClearLoginIdentifiers(source);
      } else {
        RecordLoginFailure(source, rules, now);
      }
      admitted := true;
    }

    /** The first transaction of a password change, which records nothing. */
    method AdmitPasswordChange(source: Source, now: Instant) returns (admitted: bool)
      ensures admitted == !Blocked(buckets, source, now)
    {
      var decision := Read(Keys(source), now);
      assert AnyBlocks(buckets, Keys(source), now) == Blocked(buckets, source, now);
      admitted := !decision.blocked;
    }

    /** The three upserts of a failure. A password change makes them in a transaction of its own, without reading again. */
    method RecordLoginFailure(source: Source, rules: LoginRules, now: Instant)
      modifies this
      ensures buckets == RecordFailure(old(buckets), rules, source, now)
      ensures forall w: World, r | w.buckets == old(buckets) && r in w.waiting && w.waiting[r].source == source && w.waiting[r].now == now ::
                buckets == Next(w, Fail(r), rules).buckets
    {
      RecordBucketAttempt(Address(source.address), rules.address, now);
      RecordBucketAttempt(AddressAndAccount(source.address, source.account), rules.addressAndAccount, now);
      RecordBucketAttempt(Account(source.account), rules.account, now);
    }

    /** The account starts afresh; the address does not. */
    method ClearLoginIdentifiers(source: Source)
      modifies this
      ensures buckets == ClearIdentifiers(old(buckets), source)
      ensures forall now :: !Blocks(Find(buckets, Account(source.account)), now)
      ensures Find(buckets, Address(source.address)) == Find(old(buckets), Address(source.address))
    {
      buckets := buckets - {AddressAndAccount(source.address, source.account), Account(source.account)};
    }
  }
}
