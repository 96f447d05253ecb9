/**
 The attempt limiter (auth/rateLimit.ts). A bucket counts attempts since its window began and, once the
 maximum is reached, blocks until the window ends. Times are milliseconds, windows are whole seconds.
 */
module RateLimit {
  import opened Common

  datatype Bucket = Bucket(count: nat, windowStart: Instant, blockedUntil: Option<Instant>)

  /** A rule: how many attempts in how many seconds. The configuration admits no maximum below 2. */
  datatype Rule = Rule(maximum: nat, windowSeconds: nat)

  predicate Configurable(rule: Rule) {
    rule.maximum >= 2 && rule.windowSeconds >= 60
  }

  function Window(rule: Rule): nat {
    rule.windowSeconds * SECOND
  }

  /** recordBucketAttempt: the upsert. */
  function Record(bucket: Option<Bucket>, rule: Rule, now: Instant): Bucket {
    if bucket.None? then Bucket(1, now, None)
    else
      var b := bucket.value;
      if b.windowStart <= now - Window(rule) then Bucket(1, now, None)
      else
        Bucket(b.count + 1, b.windowStart,
               if b.count + 1 >= rule.maximum then Some(b.windowStart + Window(rule)) else None)
  }

  predicate Blocks(bucket: Option<Bucket>, now: Instant) {
    bucket.Some? && bucket.value.blockedUntil.Some? && bucket.value.blockedUntil.value > now
  }

  // ----- readRateLimit -----

  /** The reduce over the buckets that were found. */
  function Latest(buckets: seq<Bucket>, now: Instant): Option<Instant> {
    if buckets == [] then None
    else
      var latest, b := Latest(buckets[..|buckets| - 1], now), buckets[|buckets| - 1];
      if b.blockedUntil.None? || b.blockedUntil.value <= now then latest
      else if latest.None? || b.blockedUntil.value > latest.value then b.blockedUntil
      else latest
  }

  datatype Decision = Decision(blocked: bool, retryAfterSeconds: int)

  /** Math.ceil of a positive number of milliseconds in seconds, but at least 1. */
  function RetryAfter(until: Instant, now: Instant): int {
    var seconds := (until - now + SECOND - 1) / SECOND;
    if seconds < 1 then 1 else seconds
  }

  function Decide(buckets: seq<Bucket>, now: Instant): Decision {
    match Latest(buckets, now)
    case None => Decision(false, 0)
    case Some(until) => Decision(true, RetryAfter(until, now))
  }

  lemma {:induction false} LatestIsTheMaximum(buckets: seq<Bucket>, now: Instant)
    ensures var latest := Latest(buckets, now);
            && (latest.Some? <==> exists i | 0 <= i < |buckets| :: Blocks(Some(buckets[i]), now))
            && (latest.Some? ==> exists i | 0 <= i < |buckets| :: Blocks(Some(buckets[i]), now) && buckets[i].blockedUntil == latest)
            && (forall i | 0 <= i < |buckets| && Blocks(Some(buckets[i]), now) ::
                  latest.Some? && buckets[i].blockedUntil.value <= latest.value)
  {
    if buckets != [] {
      LatestIsTheMaximum(buckets[..|buckets| - 1], now);
      assert forall i | 0 <= i < |buckets| - 1 :: buckets[i] == buckets[..|buckets| - 1][i];
    }
  }

  /**
   Blocked exactly if some bucket blocks; then the client is told to wait at least a second, long enough for
   every block to be over, and less than a second longer than that needs.
   */
  lemma RetryReachesEveryBlock(buckets: seq<Bucket>, now: Instant)
    ensures var decision := Decide(buckets, now);
            && (decision.blocked <==> exists i | 0 <= i < |buckets| :: Blocks(Some(buckets[i]), now))
            && (decision.blocked ==>
                  && decision.retryAfterSeconds >= 1
                  && (forall i | 0 <= i < |buckets| :: !Blocks(Some(buckets[i]), now + decision.retryAfterSeconds * SECOND))
                  && (exists i | 0 <= i < |buckets| :: Blocks(Some(buckets[i]), now + (decision.retryAfterSeconds - 1) * SECOND)))
  {
    LatestIsTheMaximum(buckets, now);
    var latest := Latest(buckets, now);
    if latest.Some? {
      var seconds := RetryAfter(latest.value, now);
      assert now + (seconds - 1) * SECOND < latest.value <= now + seconds * SECOND;
      var i :| 0 <= i < |buckets| && Blocks(Some(buckets[i]), now) && buckets[i].blockedUntil == latest;
      assert Blocks(Some(buckets[i]), now + (seconds - 1) * SECOND);
    }
  }

  // ----- Histories -----

  /** A bucket and, as history, the times of the attempts it recorded and where its windows began among them. */
  datatype Limiter = Limiter(bucket: Option<Bucket>, recorded: seq<Instant>, starts: seq<nat>)

  /**
   One request at `now`. It records nothing if this bucket blocks it, nor if `excused`: another bucket blocks it,
   or it is a login whose password was right.
   */
  function Arrive(l: Limiter, rule: Rule, now: Instant, excused: bool): Limiter {
    if Blocks(l.bucket, now) || excused then l
    else
      var after := Record(l.bucket, rule, now);
      Limiter(Some(after), l.recorded + [now], if after.count == 1 then l.starts + [|l.recorded|] else l.starts)
  }

  const NEW := Limiter(None, [], [])

  /** The requests' times, each with whether it was excused. */
  function Run(rule: Rule, requests: seq<(Instant, bool)>): Limiter {
    if requests == [] then NEW
    else
      var (now, excused) := requests[|requests| - 1];
      Arrive(Run(rule, requests[..|requests| - 1]), rule, now, excused)
  }

  predicate ClockOk(requests: seq<(Instant, bool)>) {
    forall i, j | 0 <= i < j < |requests| :: requests[i].0 <= requests[j].0
  }

  predicate InOrder(times: seq<Instant>) {
    forall i, j | 0 <= i < j < |times| :: times[i] <= times[j]
  }

  /** Window starts are increasing, at most `maximum` attempts apart, and at least a window apart in time. */
  predicate StartsOk(l: Limiter, rule: Rule) {
    && (l.recorded != [] ==> l.starts != [] && l.starts[0] == 0)
    && (forall k | 0 <= k < |l.starts| :: l.starts[k] < |l.recorded|)
    && (forall k | 0 < k < |l.starts| ::
          && l.starts[k - 1] < l.starts[k] <= l.starts[k - 1] + rule.maximum
          && l.recorded[l.starts[k]] >= l.recorded[l.starts[k - 1]] + Window(rule))
  }

  /** The bucket is the last window: its start, its count, and a block exactly when the count reached the maximum. */
  predicate BucketOk(l: Limiter, rule: Rule) {
    match l.bucket
    case None => l.recorded == [] && l.starts == []
    case Some(b) =>
      && l.starts != [] && l.starts[|l.starts| - 1] < |l.recorded|
      && b.windowStart == l.recorded[l.starts[|l.starts| - 1]]
      && b.count == |l.recorded| - l.starts[|l.starts| - 1] <= rule.maximum
      && b.blockedUntil == if b.count == rule.maximum then Some(b.windowStart + Window(rule)) else None
  }

  predicate Inv(l: Limiter, rule: Rule, now: Instant) {
    && InOrder(l.recorded) && (forall i | 0 <= i < |l.recorded| :: l.recorded[i] <= now)
    && StartsOk(l, rule) && BucketOk(l, rule)
  }

  lemma ArriveKeepsOrder(l: Limiter, rule: Rule, before: Instant, now: Instant, excused: bool)
    requires before <= now && Inv(l, rule, before)
    ensures var after := Arrive(l, rule, now, excused).recorded;
            InOrder(after) && forall i | 0 <= i < |after| :: after[i] <= now
  {
    hide StartsOk, BucketOk;
  }

  lemma NewWindowKeeps(l: Limiter, rule: Rule, before: Instant, now: Instant)
    requires Configurable(rule) && before <= now && Inv(l, rule, before)
    requires l.bucket.Some? ==> l.bucket.value.windowStart <= now - Window(rule)
    ensures var after := Limiter(Some(Bucket(1, now, None)), l.recorded + [now], l.starts + [|l.recorded|]);
            StartsOk(after, rule) && BucketOk(after, rule)
  {
    hide InOrder;
    var after := Limiter(Some(Bucket(1, now, None)), l.recorded + [now], l.starts + [|l.recorded|]);
    forall k | 0 < k < |after.starts|
      ensures after.starts[k - 1] < after.starts[k] <= after.starts[k - 1] + rule.maximum
      ensures after.recorded[after.starts[k]] >= after.recorded[after.starts[k - 1]] + Window(rule)
    {
      if k < |l.starts| {
        assert l.starts[k - 1] < l.starts[k];
      }
    }
  }

  lemma SameStarts(l: Limiter, rule: Rule, bucket: Bucket, now: Instant)
    requires StartsOk(l, rule) && l.starts != []
    ensures StartsOk(Limiter(Some(bucket), l.recorded + [now], l.starts), rule)
  {
    hide Window;
  }

  lemma SameWindowKeeps(l: Limiter, rule: Rule, now: Instant)
    requires Configurable(rule) && StartsOk(l, rule) && BucketOk(l, rule) && !Blocks(l.bucket, now)
    requires l.bucket.Some? && l.bucket.value.windowStart > now - Window(rule)
    ensures var after := Limiter(Some(Record(l.bucket, rule, now)), l.recorded + [now], l.starts);
            StartsOk(after, rule) && BucketOk(after, rule)
  {
    SameStarts(l, rule, Record(l.bucket, rule, now), now);
    hide StartsOk;
  }

  lemma ArriveKeeps(l: Limiter, rule: Rule, before: Instant, now: Instant, excused: bool)
    requires Configurable(rule) && before <= now && Inv(l, rule, before)
    ensures Inv(Arrive(l, rule, now, excused), rule, now)
  {
    ArriveKeepsOrder(l, rule, before, now, excused);
    if !Blocks(l.bucket, now) && !excused {
      if l.bucket.None? || l.bucket.value.windowStart <= now - Window(rule) {
        NewWindowKeeps(l, rule, before, now);
      } else {
        assert BucketOk(l, rule) && l.bucket.value.count >= 1;
        SameWindowKeeps(l, rule, now);
      }
    }
    hide InOrder, StartsOk, BucketOk;
  }

  lemma {:induction false} RunKeeps(rule: Rule, requests: seq<(Instant, bool)>, now: Instant)
    requires Configurable(rule) && ClockOk(requests) && (requests != [] ==> requests[|requests| - 1].0 <= now)
    ensures Inv(Run(rule, requests), rule, now)
  {
    if requests != [] {
      var n := |requests| - 1;
      RunKeeps(rule, requests[..n], requests[n].0);
      ArriveKeeps(Run(rule, requests[..n]), rule, requests[n].0, requests[n].0, requests[n].1);
    }
  }

  /** The window that index `i` belongs to, searching from window `k`. */
  lemma WindowOf(l: Limiter, rule: Rule, i: nat, k: nat) returns (m: nat)
    requires StartsOk(l, rule) && k < |l.starts| && l.starts[k] <= i < |l.recorded|
    requires |l.recorded| - l.starts[|l.starts| - 1] <= rule.maximum
    ensures m < |l.starts| && l.starts[m] <= i < l.starts[m] + rule.maximum
    ensures m + 1 < |l.starts| ==> i < l.starts[m + 1]
    decreases |l.starts| - k
  {
    if k + 1 < |l.starts| && l.starts[k + 1] <= i {
      m := WindowOf(l, rule, i, k + 1);
    } else {
      m := k;
      if k + 1 < |l.starts| {
        StartToStart(l, rule, k);
      }
    }
  }

  /** From one window start to the next: at most `maximum` attempts, at least a window of time. */
  lemma StartToStart(l: Limiter, rule: Rule, k: nat)
    requires StartsOk(l, rule) && k + 1 < |l.starts|
    ensures l.starts[k] < l.starts[k + 1] <= l.starts[k] + rule.maximum && l.starts[k + 1] < |l.recorded|
    ensures l.recorded[l.starts[k + 1]] >= l.recorded[l.starts[k]] + Window(rule)
  {
    assert l.starts[k + 1 - 1] < l.starts[k + 1];
  }

  lemma OrderedTimes(times: seq<Instant>, i: nat, j: nat)
    requires InOrder(times) && i <= j < |times|
    ensures times[i] <= times[j]
  {
  }

  /** Two recorded attempts 2 * maximum - 1 apart in order are at least a window apart in time. */
  lemma FarApart(l: Limiter, rule: Rule, now: Instant, i: nat)
    requires Configurable(rule) && Inv(l, rule, now) && i + 2 * rule.maximum - 1 < |l.recorded|
    ensures l.recorded[i + 2 * rule.maximum - 1] >= l.recorded[i] + Window(rule)
  {
    var far := i + 2 * rule.maximum - 1;
    assert l.starts != [] && |l.recorded| - l.starts[|l.starts| - 1] <= rule.maximum;
    assert l.starts[0] == 0 && l.starts[|l.starts| - 1] < |l.recorded|;
    hide StartsOk, BucketOk, InOrder, Window;
    var m := WindowOf(l, rule, i, 0);
    assert m + 1 < |l.starts|;
    StartToStart(l, rule, m);
    if l.starts[m] == i {
      OrderedTimes(l.recorded, l.starts[m + 1], far);
    } else {
      assert m + 2 < |l.starts|;
      StartToStart(l, rule, m + 1);
      OrderedTimes(l.recorded, i, l.starts[m + 1]);
      OrderedTimes(l.recorded, l.starts[m + 2], far);
    }
  }

  /** How many of these times fall in the half-open interval. */
  function Within(times: seq<Instant>, from: Instant, to: Instant): nat {
    if times == [] then 0
    else Within(times[..|times| - 1], from, to) + if from <= times[|times| - 1] < to then 1 else 0
  }

  lemma {:induction false} WithinPrefix(times: seq<Instant>, k: nat, from: Instant, to: Instant)
    requires k <= |times|
    ensures Within(times, from, to) <= Within(times[..k], from, to) + |times| - k
  {
    if k == |times| {
      assert times[..k] == times;
    } else {
      WithinPrefix(times[..|times| - 1], k, from, to);
      assert times[..|times| - 1][..k] == times[..k];
    }
  }

  lemma {:induction false} NoneBelow(times: seq<Instant>, from: Instant, to: Instant)
    requires forall i | 0 <= i < |times| :: times[i] < from
    ensures Within(times, from, to) == 0
  {
    if times != [] {
      NoneBelow(times[..|times| - 1], from, to);
    }
  }

  lemma {:induction false} SparseTimes(times: seq<Instant>, gap: nat, window: nat, from: Instant)
    requires gap >= 1 && InOrder(times)
    requires forall i | 0 <= i < |times| - gap :: times[i + gap] >= times[i] + window
    ensures Within(times, from, from + window) <= gap
  {
    var n := |times|;
    if n <= gap {
      WithinPrefix(times, 0, from, from + window);
    } else if times[n - 1] < from + window {
      assert times[n - 1 - gap + gap] >= times[n - 1 - gap] + window;
      NoneBelow(times[..n - gap], from, from + window);
      WithinPrefix(times, n - gap, from, from + window);
    } else {
      SparseTimes(times[..n - 1], gap, window, from);
    }
  }

  /** With a clock that never goes back, a half-open interval of one window holds at most 2 * maximum - 1 recorded attempts. */
  lemma AtMostTwiceTheMaximum(rule: Rule, requests: seq<(Instant, bool)>, from: Instant)
    requires Configurable(rule) && ClockOk(requests)
    ensures Within(Run(rule, requests).recorded, from, from + Window(rule)) <= 2 * rule.maximum - 1
  {
    var now := if requests == [] then 0 else requests[|requests| - 1].0;
    RunKeeps(rule, requests, now);
    hide Run, ClockOk;
    FewInOneWindow(Run(rule, requests), rule, now, from);
  }

  lemma FewInOneWindow(l: Limiter, rule: Rule, now: Instant, from: Instant)
    requires Configurable(rule) && Inv(l, rule, now)
    ensures Within(l.recorded, from, from + Window(rule)) <= 2 * rule.maximum - 1
  {
    hide StartsOk, BucketOk, Within, Window;
    forall i | 0 <= i < |l.recorded| - (2 * rule.maximum - 1)
      ensures l.recorded[i + (2 * rule.maximum - 1)] >= l.recorded[i] + Window(rule)
    {
      FarApart(l, rule, now, i);
    }
    SparseTimes(l.recorded, 2 * rule.maximum - 1, Window(rule), from);
  }

  // ----- The bound is reached -----

  function Times(n: nat, at: Instant): seq<(Instant, bool)> {
    seq(n, _ => (at, false))
  }

  /** One attempt, then at the end of its window all that are left, then as many as the next window takes. */
  function Burst(rule: Rule, late: nat, next: nat): seq<(Instant, bool)> {
    [(0, false)] + Times(late, Window(rule) - 1) + Times(next, Window(rule))
  }

  lemma RunGrows(rule: Rule, requests: seq<(Instant, bool)>, now: Instant)
    ensures Run(rule, requests + [(now, false)]) == Arrive(Run(rule, requests), rule, now, false)
  {
    assert (requests + [(now, false)])[..|requests|] == requests;
  }

  lemma WithinGrows(times: seq<Instant>, now: Instant, from: Instant, to: Instant)
    requires from <= now < to
    ensures Within(times + [now], from, to) == Within(times, from, to) + 1
  {
    assert (times + [now])[..|times|] == times;
  }

  predicate LateOk(rule: Rule, l: Limiter, late: nat) {
    && l.bucket == Some(Bucket(1 + late, 0, if 1 + late == rule.maximum then Some(Window(rule)) else None))
    && Within(l.recorded, Window(rule) - 1, 2 * Window(rule) - 1) == late
  }

  lemma LateBucket(rule: Rule, l: Limiter, late: nat)
    requires Configurable(rule) && 1 + late < rule.maximum && l.bucket == Some(Bucket(1 + late, 0, None))
    ensures var after := Arrive(l, rule, Window(rule) - 1, false);
            && after.recorded == l.recorded + [Window(rule) - 1]
            && after.bucket == Some(Bucket(2 + late, 0, if 2 + late == rule.maximum then Some(Window(rule)) else None))
  {
    hide Window;
  }

  lemma LateArrival(rule: Rule, l: Limiter, late: nat)
    requires Configurable(rule) && 1 + late < rule.maximum && LateOk(rule, l, late)
    ensures LateOk(rule, Arrive(l, rule, Window(rule) - 1, false), late + 1)
  {
    LateBucket(rule, l, late);
    hide Within, Arrive;
    WithinGrows(l.recorded, Window(rule) - 1, Window(rule) - 1, 2 * Window(rule) - 1);
  }

  lemma LateStart(rule: Rule)
    requires Configurable(rule)
    ensures LateOk(rule, Run(rule, Burst(rule, 0, 0)), 0)
  {
    assert Burst(rule, 0, 0) == [] + [(0, false)];
    RunGrows(rule, [], 0);
    hide Run, Burst;
    var l := Arrive(NEW, rule, 0, false);
    assert l.recorded == [0] && [0][..0] == [];
    assert Within([], Window(rule) - 1, 2 * Window(rule) - 1) == 0;
  }

  lemma LateStep(rule: Rule, late: nat)
    requires Configurable(rule) && 1 + late < rule.maximum && LateOk(rule, Run(rule, Burst(rule, late, 0)), late)
    ensures LateOk(rule, Run(rule, Burst(rule, late + 1, 0)), late + 1)
  {
    assert Burst(rule, late + 1, 0) == Burst(rule, late, 0) + [(Window(rule) - 1, false)];
    hide Run, Burst, LateOk, Arrive, Window;
    RunGrows(rule, Burst(rule, late, 0), Window(rule) - 1);
    LateArrival(rule, Run(rule, Burst(rule, late, 0)), late);
  }

  lemma {:induction false} LateBurst(rule: Rule, late: nat)
    requires Configurable(rule) && late < rule.maximum
    ensures LateOk(rule, Run(rule, Burst(rule, late, 0)), late)
  {
    hide LateOk, Run, Burst;
    if late == 0 {
      LateStart(rule);
    } else {
      LateBurst(rule, late - 1);
      LateStep(rule, late - 1);
    }
  }

  /** The bucket when the burst has put `next` attempts into its second window; with none yet the first window is full. */
  function BurstBucket(rule: Rule, next: nat): Bucket {
    if next == 0 then Bucket(rule.maximum, 0, Some(Window(rule)))
    else Bucket(next, Window(rule), if next == rule.maximum then Some(2 * Window(rule)) else None)
  }

  lemma BurstArrival(rule: Rule, l: Limiter, next: nat)
    requires Configurable(rule) && next < rule.maximum && l.bucket == Some(BurstBucket(rule, next))
    ensures var after := Arrive(l, rule, Window(rule), false);
            && after.bucket == Some(BurstBucket(rule, next + 1)) && after.recorded == l.recorded + [Window(rule)]
  {
  }

  lemma BurstGrows(rule: Rule, late: nat, next: nat)
    ensures Burst(rule, late, next + 1) == Burst(rule, late, next) + [(Window(rule), false)]
  {
  }

  predicate BurstOk(rule: Rule, l: Limiter, next: nat) {
    && l.bucket == Some(BurstBucket(rule, next))
    && Within(l.recorded, Window(rule) - 1, 2 * Window(rule) - 1) == rule.maximum - 1 + next
  }

  lemma BurstStep(rule: Rule, next: nat)
    requires Configurable(rule) && next < rule.maximum && BurstOk(rule, Run(rule, Burst(rule, rule.maximum - 1, next)), next)
    ensures BurstOk(rule, Run(rule, Burst(rule, rule.maximum - 1, next + 1)), next + 1)
  {
    hide Run, Burst, Arrive, Within, BurstBucket;
    var before := Burst(rule, rule.maximum - 1, next);
    BurstGrows(rule, rule.maximum - 1, next);
    RunGrows(rule, before, Window(rule));
    BurstArrival(rule, Run(rule, before), next);
    WithinGrows(Run(rule, before).recorded, Window(rule), Window(rule) - 1, 2 * Window(rule) - 1);
  }

  lemma {:induction false} FullBurst(rule: Rule, next: nat)
    requires Configurable(rule) && next <= rule.maximum
    ensures BurstOk(rule, Run(rule, Burst(rule, rule.maximum - 1, next)), next)
  {
    if next == 0 {
      LateBurst(rule, rule.maximum - 1);
    } else {
      FullBurst(rule, next - 1);
      hide BurstOk, Run, Burst;
      BurstStep(rule, next - 1);
    }
  }

  /** Some run does put 2 * maximum - 1 attempts into one window's length. */
  lemma BoundIsReached(rule: Rule)
    requires Configurable(rule)
    ensures var requests := Burst(rule, rule.maximum - 1, rule.maximum);
            && ClockOk(requests)
            && Within(Run(rule, requests).recorded, Window(rule) - 1, Window(rule) - 1 + Window(rule)) == 2 * rule.maximum - 1
  {
    FullBurst(rule, rule.maximum);
  }

  // ----- Blocks -----

  /** A bucket as this code leaves it. */
  predicate WellFormed(b: Bucket, rule: Rule) {
    b.blockedUntil == if b.count >= rule.maximum then Some(b.windowStart + Window(rule)) else None
  }

  /**
   No attempt moves the end of a block: while one is on, even an attempt recorded in spite of it (a password
   change that failed) leaves it where it was, and it always ends with its window.
   */
  lemma BlocksNeverGrow(bucket: Option<Bucket>, rule: Rule, now: Instant)
    requires Configurable(rule) && (bucket.Some? ==> WellFormed(bucket.value, rule))
    ensures var after := Record(bucket, rule, now);
            && WellFormed(after, rule)
            && (Blocks(bucket, now) ==> after.blockedUntil == bucket.value.blockedUntil)
            && (after.blockedUntil.Some? ==>
                  after.blockedUntil.value == after.windowStart + Window(rule) && after.windowStart + Window(rule) > now)
  {
  }
}
