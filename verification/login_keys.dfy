/**
 The three buckets of a login one by one: an address, an account, and an account as tried from one address. What a failure,
 a success and a refusal do to each, when each of them locks out, and how many failures it lets through.
 */
module LoginKeys {
  import opened Common
  import opened RateLimit
  import opened LoginLimit

  /** The key belongs to this source. */
  predicate Concerns(key: Key, source: Source) {
    match key
    case Registration(_) => false
    case Address(address) => source.address == address
    case AddressAndAccount(address, account) => source.address == address && source.account == account
    case Account(account) => source.account == account
  }

  predicate RuleFor(rules: LoginRules, key: Key, rule: Rule) {
    match key
    case Registration(_) => false
    case Address(_) => rule == rules.address
    case AddressAndAccount(_, _) => rule == rules.addressAndAccount
    case Account(_) => rule == rules.account
  }

  // ----- One request -----

  /** A failure counts in each bucket of its source, or opens a new window there, and touches no other bucket. */
  lemma FailureLaw(buckets: Buckets, rules: LoginRules, source: Source, now: Instant, key: Key, rule: Rule)
    requires RuleFor(rules, key, rule)
    ensures var after := RecordFailure(buckets, rules, source, now);
            if !Concerns(key, source) then Find(after, key) == Find(buckets, key)
            else
              && key in after
              && if key in buckets && now < buckets[key].windowStart + rule.windowSeconds * 1_000
                 then after[key].count == buckets[key].count + 1 && after[key].windowStart == buckets[key].windowStart
                 else after[key].count == 1 && after[key].windowStart == now
  {
  }

  /** A success forgets the account and the account at that address, and nothing else. */
  lemma SuccessLaw(buckets: Buckets, source: Source, key: Key)
    ensures Find(ClearIdentifiers(buckets, source), key) ==
            if Concerns(key, source) && !key.Address? then None else Find(buckets, key)
  {
  }

  /** A source is refused if and only if one of the buckets that concern it blocks. */
  lemma RefusalLaw(buckets: Buckets, source: Source, now: Instant)
    ensures Blocked(buckets, source, now) <==> exists key :: Concerns(key, source) && Blocks(Find(buckets, key), now)
  {
    assert Keys(source)[0] == Address(source.address) && Keys(source)[1] == AddressAndAccount(source.address, source.account);
    assert Keys(source)[2] == Account(source.account);
  }

  /** A password change waits from its admission until it fails, succeeds or lapses, and each of these happens to it once. */
  lemma WaitingLaw(w: World, request: nat, source: Source, now: Instant, rules: LoginRules)
    ensures var t := Next(w, Admit(request, source, now), rules);
            if request !in w.waiting && !Blocked(w.buckets, source, now)
            then
              && t.buckets == w.buckets && t.log == w.log && request in t.waiting && t.waiting - {request} == w.waiting - {request}
              && (t.waiting[request].source, t.waiting[request].now) == (source, now)
            else t == w
    ensures forall e | e in {Fail(request), Succeed(request), Lapse(request)} ::
              var t := Next(w, e, rules);
              && t.waiting == w.waiting - {request} && Next(t, e, rules) == t && (request !in w.waiting ==> t == w)
              && (e.Lapse? ==> t.buckets == w.buckets && t.log == w.log)
  {
    hide Blocked, RecordFailure;
    assert request !in w.waiting ==> w.waiting - {request} == w.waiting;
    assert w.waiting - {request} - {request} == w.waiting - {request};
  }

  // ----- The failures of one key -----

  /** This event records a failure in the key's bucket. */
  predicate FailsFor(w: World, e: Event, key: Key) {
    match e
    case LogIn(source, correct, now) => !correct && Concerns(key, source) && !Blocked(w.buckets, source, now)
    case Fail(request) => request in w.waiting && Concerns(key, w.waiting[request].source)
    case _ => false
  }

  /** This event forgets the key. */
  predicate ClearsFor(w: World, e: Event, key: Key) {
    match e
    case LogIn(source, correct, now) => correct && Concerns(key, source) && !key.Address? && !Blocked(w.buckets, source, now)
    case Succeed(request) => request in w.waiting && Concerns(key, w.waiting[request].source) && !key.Address?
    case _ => false
  }

  function ReadingOf(w: World, e: Event): Instant {
    match e
    case LogIn(_, _, now) => now
    case Fail(request) => if request in w.waiting then w.waiting[request].now else 0
    case _ => 0
  }

  /** The clock readings of the failures recorded for the key by the events from `a` up to `b`. */
  function FailTimes(worlds: seq<World>, events: seq<Event>, key: Key, a: nat, b: nat): seq<Instant>
    requires a <= b <= |events| < |worlds|
    decreases b
  {
    if a == b then []
    else
      FailTimes(worlds, events, key, a, b - 1) +
      if FailsFor(worlds[b - 1], events[b - 1], key) then [ReadingOf(worlds[b - 1], events[b - 1])] else []
  }

  /** Nothing is known of the key at `a`, and nothing makes the limiter forget it up to `b`: the stretch between two clearings. */
  ghost predicate Stretch(worlds: seq<World>, events: seq<Event>, rules: LoginRules, key: Key, a: nat, b: nat) {
    && IsRun(worlds, events, rules) && a <= b <= |events|
    && (a == 0 || ClearsFor(worlds[a - 1], events[a - 1], key))
    && forall k | a <= k < b :: !ClearsFor(worlds[k], events[k], key)
  }

  /** What one event does to the key's bucket. */
  lemma KeyStep(w: World, e: Event, rules: LoginRules, key: Key, rule: Rule)
    requires RuleFor(rules, key, rule)
    ensures Find(Next(w, e, rules).buckets, key) ==
            if FailsFor(w, e, key) then Some(Record(Find(w.buckets, key), rule, ReadingOf(w, e)))
            else if ClearsFor(w, e, key) then None
            else Find(w.buckets, key)
  {
    hide Blocked, Record;
  }

  // ----- When a key locks out -----

  /** Where the current window of these failures begins: a failure opens a window if the one before it has run out. */
  function WindowBegin(times: seq<Instant>, window: nat): (i: nat)
    requires times != []
    ensures i < |times|
  {
    var n := |times| - 1;
    if n == 0 then 0
    else
      var i := WindowBegin(times[..n], window);
      if times[n] >= times[i] + window then n else i
  }

  /** The failures fill their current window, and it has not run out. */
  predicate LockedOut(times: seq<Instant>, rule: Rule, now: Instant) {
    && times != []
    && var i := WindowBegin(times, rule.windowSeconds * 1_000);
    |times| - i >= rule.maximum && now < times[i] + rule.windowSeconds * 1_000
  }

  /** The bucket is the current window of these failures. */
  predicate Describes(bucket: Option<Bucket>, times: seq<Instant>, rule: Rule) {
    if times == [] then bucket.None?
    else
      var i := WindowBegin(times, rule.windowSeconds * 1_000);
      bucket == Some(Bucket(|times| - i, times[i], if |times| - i >= rule.maximum then Some(times[i] + rule.windowSeconds * 1_000) else None))
  }

  lemma RecordDescribes(bucket: Option<Bucket>, times: seq<Instant>, rule: Rule, now: Instant)
    requires Configurable(rule) && Describes(bucket, times, rule)
    ensures Describes(Some(Record(bucket, rule, now)), times + [now], rule)
  {
    var after, window := times + [now], rule.windowSeconds * 1_000;
    assert after[..|times|] == times;
    assert WindowBegin(after, window) ==
      if times == [] || now >= times[WindowBegin(times, window)] + window then |times| else WindowBegin(times, window);
    hide WindowBegin;
  }

  lemma {:induction false} BucketDescribes(worlds: seq<World>, events: seq<Event>, rules: LoginRules, key: Key, rule: Rule, a: nat, b: nat)
    requires Stretch(worlds, events, rules, key, a, b) && RuleFor(rules, key, rule) && Configurable(rule)
    ensures Describes(Find(worlds[b].buckets, key), FailTimes(worlds, events, key, a, b), rule)
    decreases b
  {
    if a == b {
      if a > 0 {
        assert worlds[a] == Next(worlds[a - 1], events[a - 1], rules);
        hide IsRun, Next;
        KeyStep(worlds[a - 1], events[a - 1], rules, key, rule);
      }
    } else {
      BucketDescribes(worlds, events, rules, key, rule, a, b - 1);
      assert worlds[b] == Next(worlds[b - 1], events[b - 1], rules);
      hide IsRun, Next, Describes, FailsFor, ClearsFor, Record;
      KeyStep(worlds[b - 1], events[b - 1], rules, key, rule);
      var times := FailTimes(worlds, events, key, a, b - 1);
      RecordDescribes(Find(worlds[b - 1].buckets, key), times, rule, ReadingOf(worlds[b - 1], events[b - 1]));
      assert times + [] == times;
    }
  }

  /**
   In every run and for each kind of key: the key locks out exactly while the failures since it was last forgotten fill
   their current window. Then every login it concerns is refused, right or wrong, and no password change is admitted.
   */
  lemma LockedOutIffWindowFull(
      worlds: seq<World>, events: seq<Event>, rules: LoginRules, key: Key, rule: Rule, a: nat, b: nat, now: Instant)
    requires Stretch(worlds, events, rules, key, a, b) && RuleFor(rules, key, rule) && Configurable(rule)
    ensures Blocks(Find(worlds[b].buckets, key), now) <==> LockedOut(FailTimes(worlds, events, key, a, b), rule, now)
    ensures LockedOut(FailTimes(worlds, events, key, a, b), rule, now) ==>
              forall source | Concerns(key, source) ::
                && (forall correct :: Next(worlds[b], LogIn(source, correct, now), rules) == worlds[b])
                && (forall request :: Next(worlds[b], Admit(request, source, now), rules) == worlds[b])
  {
    BucketDescribes(worlds, events, rules, key, rule, a, b);
    hide IsRun, FailTimes;
    forall source | Concerns(key, source) && Blocks(Find(worlds[b].buckets, key), now) ensures Blocked(worlds[b].buckets, source, now) {
      RefusalLaw(worlds[b].buckets, source, now);
    }
  }

  // ----- How many failures a key lets through -----

  /** A limiter that was asked about exactly these failures. */
  lemma {:induction false} KeyIsLimited(
      worlds: seq<World>, events: seq<Event>, rules: LoginRules, key: Key, rule: Rule, a: nat, b: nat, clock: Instant)
    returns (l: Limiter)
    requires Stretch(worlds, events, rules, key, a, b) && RuleFor(rules, key, rule) && Configurable(rule)
    requires ClockOrder(events) && forall k | a <= k < b :: events[k].LogIn? && events[k].now <= clock
    ensures l.bucket == Find(worlds[b].buckets, key) && l.recorded == FailTimes(worlds, events, key, a, b) && Inv(l, rule, clock)
    decreases b
  {
    if a == b {
      BucketDescribes(worlds, events, rules, key, rule, a, b);
      l := NEW;
    } else {
      var w, e := worlds[b - 1], events[b - 1];
      assert Ticks(e) && forall k | a <= k < b - 1 :: Ticks(events[k]);
      var before := KeyIsLimited(worlds, events, rules, key, rule, a, b - 1, e.now);
      assert worlds[b] == Next(w, e, rules);
      hide IsRun, Next, Inv, Stretch;
      KeyStep(w, e, rules, key, rule);
      if FailsFor(w, e, key) {
        RefusalLaw(w.buckets, e.source, e.now);
        l := Arrive(before, rule, e.now, false);
        ArriveKeeps(before, rule, e.now, e.now, false);
      } else {
        l := before;
      }
      ClockGoesOn(l, rule, e.now, clock);
    }
  }

  lemma ClockGoesOn(l: Limiter, rule: Rule, now: Instant, clock: Instant)
    requires Inv(l, rule, now) && now <= clock
    ensures Inv(l, rule, clock)
  {
    hide StartsOk, BucketOk;
  }

  /**
   Between two clearings logins alone, from whatever addresses, put at most 2 * maximum - 1 failures for one account into any
   half-open interval of one window; the same holds of an address, and of an account as tried from one address.
   */
  lemma FailuresOfKeyAreBounded(
      worlds: seq<World>, events: seq<Event>, rules: LoginRules, key: Key, rule: Rule, a: nat, b: nat, from: Instant)
    requires Stretch(worlds, events, rules, key, a, b) && RuleFor(rules, key, rule) && Configurable(rule)
    requires ClockOrder(events) && forall k | a <= k < b :: events[k].LogIn?
    ensures Within(FailTimes(worlds, events, key, a, b), from, from + rule.windowSeconds * 1_000) <= 2 * rule.maximum - 1
  {
    var clock := if a == b then 0 else events[b - 1].now;
    assert forall k | a <= k < b :: Ticks(events[k]);
    hide IsRun, Inv, FailTimes, Within;
    var l := KeyIsLimited(worlds, events, rules, key, rule, a, b, clock);
    FewInOneWindow(l, rule, clock, from);
  }
}
