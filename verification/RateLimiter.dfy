/** The per-user token bucket and the clean-up of idle buckets. */
module RateLimiter {
  import opened Base

  datatype Bucket = Bucket(tokens: real, lastRefill: Instant)

  datatype Config = Config(capacity: nat, refillRate: real)

  const IDLE_SECONDS := 600.0

  function Min(a: real, b: real): real {
    if a < b then a else b
  }

  // Tokens that accrue in a time span.
  function Refill(c: Config, span: real): real {
    span * c.refillRate
  }

  lemma RefillAdds(c: Config, x: real, y: real)
    ensures Refill(c, x + y) == Refill(c, x) + Refill(c, y)
  {
  }

  lemma RefillGrows(c: Config, x: real, y: real)
    requires c.refillRate >= 0.0 && x <= y
    ensures Refill(c, x) <= Refill(c, y)
    ensures Refill(c, 0.0) == 0.0
  {
  }

  // Tokens available to a request at time `now`; a user without a bucket gets a full one.
  function Level(c: Config, b: Option<Bucket>, now: Instant): real {
    match b
    case None => c.capacity as real
    case Some(bucket) => Min(bucket.tokens + Refill(c, Elapsed(now, bucket.lastRefill)), c.capacity as real)
  }

  predicate Admits(c: Config, b: Option<Bucket>, now: Instant) {
    Level(c, b, now) >= 1.0
  }

  function Charged(c: Config, b: Option<Bucket>, now: Instant): Bucket {
    Bucket(if Admits(c, b, now) then Level(c, b, now) - 1.0 else Level(c, b, now), now)
  }

  function Lookup(buckets: map<UserId, Bucket>, user: UserId): Option<Bucket> {
    if user in buckets then Some(buckets[user]) else None
  }

  function Retained(buckets: map<UserId, Bucket>, now: Instant): map<UserId, Bucket> {
    map u | u in buckets && buckets[u].lastRefill > now - IDLE_SECONDS :: buckets[u]
  }

  // ---------------------------------------------------------------------
  // The limiter
  // ---------------------------------------------------------------------

  class RateLimiter {
    var buckets: map<UserId, Bucket>
    const config: Config

    constructor (capacity: nat, refillRate: real)
      ensures buckets == map[] && config == Config(capacity, refillRate)
    {
      config := Config(capacity, refillRate);
      buckets := map[];
    }

    // The clock is read twice: `created` when a bucket is made, then `now`.
    method TryAcquire(user: UserId, created: Instant, now: Instant) returns (allowed: bool)
      modifies this
      ensures var b := if user in old(buckets) then old(buckets)[user] else Bucket(config.capacity as real, created);
              (allowed <==> Admits(config, Some(b), now)) && buckets == old(buckets)[user := Charged(config, Some(b), now)]
      ensures config.refillRate >= 0.0 ==>
                && (allowed <==> Admits(config, old(Lookup(buckets, user)), now))
                && buckets == old(buckets)[user := Charged(config, old(Lookup(buckets, user)), now)]
    {
      var bucket := if user in buckets then buckets[user] else Bucket(config.capacity as real, created);
      var tokens := Min(bucket.tokens + Refill(config, Elapsed(now, bucket.lastRefill)), config.capacity as real);
      if config.refillRate >= 0.0 {
        RefillGrows(config, 0.0, Elapsed(now, bucket.lastRefill));
      }
      allowed := tokens >= 1.0;
      if allowed {
        tokens := tokens - 1.0;
      }
      buckets := buckets[user := Bucket(tokens, now)];
    }

    method CleanUp(now: Instant)
      modifies this
      ensures buckets == Retained(old(buckets), now)
      ensures forall u :: u in buckets <==> u in old(buckets) && now - old(buckets)[u].lastRefill < 600.0
      ensures forall u :: u in buckets ==> buckets[u] == old(buckets)[u]
    {
      var threshold := now - IDLE_SECONDS;
      buckets := map u | u in buckets && buckets[u].lastRefill > threshold :: buckets[u];
    }
  }

  // ---------------------------------------------------------------------
  // One user alone: the closed form of the token level
  // ---------------------------------------------------------------------

  ghost predicate Sorted(ts: seq<Instant>) {
    forall i, j :: 0 <= i < j < |ts| ==> ts[i] <= ts[j]
  }

  // The bucket after the first n requests.
  function BucketAfter(c: Config, ts: seq<Instant>, n: nat): Option<Bucket>
    requires n <= |ts|
  {
    if n == 0 then None else Some(Charged(c, BucketAfter(c, ts, n - 1), ts[n - 1]))
  }

  predicate Admitted(c: Config, ts: seq<Instant>, j: nat)
    requires j < |ts|
  {
    Admits(c, BucketAfter(c, ts, j), ts[j])
  }

  // How many of the first n requests were admitted.
  function Admissions(c: Config, ts: seq<Instant>, n: nat): nat
    requires n <= |ts|
  {
    if n == 0 then 0 else Admissions(c, ts, n - 1) + (if Admitted(c, ts, n - 1) then 1 else 0)
  }

  // What a bucket that was full at request i could still hold at request j.
  function Allowance(c: Config, ts: seq<Instant>, i: nat, j: nat): real
    requires i <= j < |ts|
  {
    c.capacity as real + Refill(c, ts[j] - ts[i]) - (Admissions(c, ts, j) - Admissions(c, ts, i)) as real
  }

  lemma AllowanceStep(c: Config, ts: seq<Instant>, i: nat, j: nat)
    requires i < j < |ts|
    ensures Allowance(c, ts, i, j)
         == Allowance(c, ts, i, j - 1) + Refill(c, ts[j] - ts[j - 1]) - (if Admitted(c, ts, j - 1) then 1.0 else 0.0)
  {
    hide Refill;
    RefillAdds(c, ts[j - 1] - ts[i], ts[j] - ts[j - 1]);
  }

  lemma LevelOf(c: Config, tokens: real, last: Instant, now: Instant)
    requires last <= now
    ensures Level(c, Some(Bucket(tokens, last)), now) == Min(tokens + Refill(c, now - last), c.capacity as real)
  {
    hide Refill;
  }

  lemma LevelAfterCharge(c: Config, b: Option<Bucket>, level: real, t: Instant, now: Instant)
    requires t <= now && level == Level(c, b, t)
    ensures Level(c, Some(Charged(c, b, t)), now)
         == Min(level - (if Admits(c, b, t) then 1.0 else 0.0) + Refill(c, now - t), c.capacity as real)
  {
    hide Refill;
    var tokens := if level >= 1.0 then level - 1.0 else level;
    assert Charged(c, b, t) == Bucket(tokens, t);
    LevelOf(c, tokens, t, now);
  }

  lemma LevelStep(c: Config, ts: seq<Instant>, j: nat)
    requires Sorted(ts) && 0 < j < |ts|
    ensures Level(c, BucketAfter(c, ts, j), ts[j])
         == Min(Level(c, BucketAfter(c, ts, j - 1), ts[j - 1]) - (if Admitted(c, ts, j - 1) then 1.0 else 0.0)
                + Refill(c, ts[j] - ts[j - 1]), c.capacity as real)
  {
    hide Refill;
    var b := BucketAfter(c, ts, j - 1);
    LevelAfterCharge(c, b, Level(c, b, ts[j - 1]), ts[j - 1], ts[j]);
  }

  // The level at request j is the least allowance over all requests up to it,
  // whatever the refill rate and whichever requests were rejected.
  lemma {:induction false} LevelIsLeastAllowance(c: Config, ts: seq<Instant>, j: nat)
    requires Sorted(ts) && j < |ts|
    ensures forall i: nat :: i <= j ==> Level(c, BucketAfter(c, ts, j), ts[j]) <= Allowance(c, ts, i, j)
    ensures exists i: nat :: i <= j && Level(c, BucketAfter(c, ts, j), ts[j]) == Allowance(c, ts, i, j)
  {
    hide Refill;
    RefillAdds(c, 0.0, 0.0);
    if j == 0 {
      assert Allowance(c, ts, 0, 0) == c.capacity as real;
    } else {
      LevelIsLeastAllowance(c, ts, j - 1);
      LevelStep(c, ts, j);
      assert Allowance(c, ts, j, j) == c.capacity as real;
      forall i: nat | i < j
        ensures Level(c, BucketAfter(c, ts, j), ts[j]) <= Allowance(c, ts, i, j)
      {
        AllowanceStep(c, ts, i, j);
      }
      var i: nat :| i <= j - 1 && Level(c, BucketAfter(c, ts, j - 1), ts[j - 1]) == Allowance(c, ts, i, j - 1);
      AllowanceStep(c, ts, i, j);
    }
  }

  lemma {:induction false} AdmissionsWhenAllAdmitted(c: Config, ts: seq<Instant>, n: nat)
    requires n <= |ts| && forall k: nat :: k < n ==> Admitted(c, ts, k)
    ensures Admissions(c, ts, n) == n
  {
    if n > 0 {
      AdmissionsWhenAllAdmitted(c, ts, n - 1);
    }
  }

  // The requests i to j together fit into a full bucket and its refill.
  predicate Fits(c: Config, ts: seq<Instant>, i: nat, j: nat)
    requires i <= j < |ts|
  {
    (j - i + 1) as real <= c.capacity as real + Refill(c, ts[j] - ts[i])
  }

  lemma FitsIffAllowance(c: Config, ts: seq<Instant>, i: nat, j: nat)
    requires i <= j < |ts| && forall k: nat :: k < j ==> Admitted(c, ts, k)
    ensures Fits(c, ts, i, j) <==> Allowance(c, ts, i, j) >= 1.0
  {
    hide Refill;
    AdmissionsWhenAllAdmitted(c, ts, i);
    AdmissionsWhenAllAdmitted(c, ts, j);
  }

  lemma LastAdmittedIff(c: Config, ts: seq<Instant>, j: nat)
    requires Sorted(ts) && j < |ts|
    requires forall k: nat :: k < j ==> Admitted(c, ts, k)
    ensures Admitted(c, ts, j) <==> forall i: nat :: i <= j ==> Fits(c, ts, i, j)
  {
    hide Refill;
    LevelIsLeastAllowance(c, ts, j);
    forall i: nat | i <= j
      ensures Fits(c, ts, i, j) <==> Allowance(c, ts, i, j) >= 1.0
    {
      FitsIffAllowance(c, ts, i, j);
    }
  }

  // Exactly the request sequences that no window overruns are admitted whole.
  lemma {:induction false} AllAdmittedIff(c: Config, ts: seq<Instant>, n: nat)
    requires Sorted(ts) && n <= |ts|
    ensures (forall k: nat :: k < n ==> Admitted(c, ts, k)) <==> (forall i: nat, j: nat :: i <= j < n ==> Fits(c, ts, i, j))
  {
    hide Refill;
    if n > 0 {
      AllAdmittedIff(c, ts, n - 1);
      if forall k: nat :: k < n - 1 ==> Admitted(c, ts, k) {
        LastAdmittedIff(c, ts, n - 1);
      }
    }
  }

  // ---------------------------------------------------------------------
  // Windows
  // ---------------------------------------------------------------------

  // Admitted requests among the first n that fall into the window [a, b].
  function AdmittedIn(c: Config, ts: seq<Instant>, n: nat, a: Instant, b: Instant): nat
    requires n <= |ts|
  {
    if n == 0 then 0 else
      AdmittedIn(c, ts, n - 1, a, b) + (if a <= ts[n - 1] <= b && Admitted(c, ts, n - 1) then 1 else 0)
  }

  lemma {:induction false} AdmissionsGrow(c: Config, ts: seq<Instant>, m: nat, n: nat)
    requires m <= n <= |ts|
    ensures Admissions(c, ts, m) <= Admissions(c, ts, n)
  {
    if m < n {
      AdmissionsGrow(c, ts, m, n - 1);
    }
  }

  // A window with admissions is spanned by two requests in it.
  lemma {:induction false} WindowSpan(c: Config, ts: seq<Instant>, n: nat, a: Instant, b: Instant) returns (i: nat, j: nat)
    requires n <= |ts| && AdmittedIn(c, ts, n, a, b) > 0
    ensures i <= j < n && a <= ts[i] && ts[j] <= b && Admitted(c, ts, j)
    ensures AdmittedIn(c, ts, n, a, b) <= Admissions(c, ts, j) + 1 - Admissions(c, ts, i)
  {
    var last := n - 1;
    if AdmittedIn(c, ts, last, a, b) == 0 {
      i, j := last, last;
    } else {
      i, j := WindowSpan(c, ts, last, a, b);
      if a <= ts[last] <= b && Admitted(c, ts, last) {
        AdmissionsGrow(c, ts, j + 1, last);
        j := last;
      }
    }
  }

  lemma {:induction false} LevelAtMost(c: Config, ts: seq<Instant>, i: nat, j: nat)
    requires Sorted(ts) && i <= j < |ts|
    ensures Level(c, BucketAfter(c, ts, j), ts[j]) <= Allowance(c, ts, i, j)
  {
    hide Refill;
    LevelIsLeastAllowance(c, ts, j);
  }

  lemma {:induction false} SpanBound(c: Config, ts: seq<Instant>, i: nat, j: nat)
    requires Sorted(ts) && i <= j < |ts| && Admitted(c, ts, j)
    ensures (Admissions(c, ts, j) + 1 - Admissions(c, ts, i)) as real <= c.capacity as real + Refill(c, ts[j] - ts[i])
  {
    hide Refill;
    LevelAtMost(c, ts, i, j);
    assert Allowance(c, ts, i, j) >= 1.0;
  }

  // No window lets through more than a full bucket and its refill.
  lemma WindowBound(c: Config, ts: seq<Instant>, n: nat, a: Instant, b: Instant)
    requires c.refillRate >= 0.0 && Sorted(ts) && n <= |ts| && a <= b
    ensures AdmittedIn(c, ts, n, a, b) as real <= c.capacity as real + Refill(c, b - a)
  {
    hide Refill;
    RefillGrows(c, 0.0, b - a);
    if AdmittedIn(c, ts, n, a, b) > 0 {
      var i, j := WindowSpan(c, ts, n, a, b);
      SpanBound(c, ts, i, j);
      RefillGrows(c, ts[j] - ts[i], b - a);
    }
  }

  // ---------------------------------------------------------------------
  // All users together, with clean-up at any time
  // ---------------------------------------------------------------------

  datatype Event = Request(user: UserId, at: Instant) | Sweep(at: Instant)

  ghost predicate InOrder(trace: seq<Event>) {
    forall i, j :: 0 <= i < j < |trace| ==> trace[i].at <= trace[j].at
  }

  function After(c: Config, buckets: map<UserId, Bucket>, e: Event): map<UserId, Bucket> {
    match e
    case Request(user, at) => buckets[user := Charged(c, Lookup(buckets, user), at)]
    case Sweep(at) => Retained(buckets, at)
  }

  function Run(c: Config, buckets: map<UserId, Bucket>, trace: seq<Event>): map<UserId, Bucket> {
    if trace == [] then buckets else After(c, Run(c, buckets, trace[..|trace| - 1]), trace[|trace| - 1])
  }

  // The decision on a request that follows a trace.
  predicate Decision(c: Config, trace: seq<Event>, user: UserId, at: Instant) {
    Admits(c, Lookup(Run(c, map[], trace), user), at)
  }

  function TimesOf(trace: seq<Event>, user: UserId): seq<Instant> {
    if trace == [] then [] else
      var e := trace[|trace| - 1];
      TimesOf(trace[..|trace| - 1], user) + (if e.Request? && e.user == user then [e.at] else [])
  }

  lemma {:induction false} BucketAfterPrefix(c: Config, ts: seq<Instant>, us: seq<Instant>, n: nat)
    requires n <= |ts|
    ensures BucketAfter(c, ts + us, n) == BucketAfter(c, ts, n)
  {
    if n > 0 {
      BucketAfterPrefix(c, ts, us, n - 1);
    }
  }

  // Without clean-up a user's bucket depends on that user's requests only.
  lemma {:induction false} UsersDoNotInterfere(c: Config, trace: seq<Event>, user: UserId)
    requires forall i :: 0 <= i < |trace| ==> trace[i].Request?
    ensures Lookup(Run(c, map[], trace), user) == BucketAfter(c, TimesOf(trace, user), |TimesOf(trace, user)|)
  {
    if trace != [] {
      var front, e := trace[..|trace| - 1], trace[|trace| - 1];
      var ts := TimesOf(front, user);
      UsersDoNotInterfere(c, front, user);
      assert e.Request?;
      if e.user == user {
        BucketAfterPrefix(c, ts, [e.at], |ts|);
        assert TimesOf(trace, user) == ts + [e.at];
        assert BucketAfter(c, ts + [e.at], |ts| + 1) == Some(Charged(c, BucketAfter(c, ts, |ts|), e.at));
      } else {
        assert TimesOf(trace, user) == ts + [] == ts;
      }
    }
  }

  // ---------------------------------------------------------------------
  // What can be deleted from a trace without changing a decision
  // ---------------------------------------------------------------------

  // The buckets decide alike on everything from time t on.
  ghost predicate Alike(c: Config, b: Option<Bucket>, d: Option<Bucket>, t: Instant) {
    && Sound(c, b, t) && Sound(c, d, t)
    && Level(c, b, t) == Level(c, d, t)
  }

  ghost predicate Sound(c: Config, b: Option<Bucket>, t: Instant) {
    b.Some? ==> 0.0 <= b.value.tokens <= c.capacity as real && b.value.lastRefill <= t
  }

  // Waiting only adds the refill.
  lemma LevelLater(c: Config, b: Option<Bucket>, t: Instant, now: Instant)
    requires c.refillRate >= 0.0 && Sound(c, b, t) && t <= now
    ensures Level(c, b, now) == Min(Level(c, b, t) + Refill(c, now - t), c.capacity as real)
    ensures Level(c, b, t) >= 0.0
  {
    hide Refill;
    RefillGrows(c, 0.0, now - t);
    if b.Some? {
      var last := b.value.lastRefill;
      LevelOf(c, b.value.tokens, last, t);
      LevelOf(c, b.value.tokens, last, now);
      RefillGrows(c, 0.0, t - last);
      RefillAdds(c, t - last, now - t);
    }
  }

  lemma AlikeLater(c: Config, b: Option<Bucket>, d: Option<Bucket>, t: Instant, now: Instant)
    requires c.refillRate >= 0.0 && Alike(c, b, d, t) && t <= now
    ensures Alike(c, b, d, now)
  {
    hide Refill;
    LevelLater(c, b, t, now);
    LevelLater(c, d, t, now);
  }

  // A rejected request leaves the bucket as good as untouched.
  lemma RejectionIsInvisible(c: Config, b: Option<Bucket>, d: Option<Bucket>, t: Instant)
    requires c.refillRate >= 0.0 && Alike(c, b, d, t) && !Admits(c, b, t)
    ensures Alike(c, Some(Charged(c, b, t)), d, t)
  {
    hide Refill;
    LevelLater(c, b, t, t);
    LevelOf(c, Level(c, b, t), t, t);
  }

  // A bucket idle for ten minutes is as good as a new one, if ten minutes
  // of refill make a full bucket.
  lemma SweepIsInvisible(c: Config, b: Option<Bucket>, d: Option<Bucket>, t: Instant)
    requires c.refillRate >= 0.0 && Refill(c, IDLE_SECONDS) >= c.capacity as real
    requires Alike(c, b, d, t) && b.Some? && b.value.lastRefill <= t - IDLE_SECONDS
    ensures Alike(c, None, d, t)
  {
    hide Refill;
    var last := b.value.lastRefill;
    LevelOf(c, b.value.tokens, last, t);
    RefillGrows(c, IDLE_SECONDS, t - last);
  }

  // The trace without the events that the mask drops.
  function Kept(trace: seq<Event>, mask: seq<bool>): seq<Event>
    requires |mask| == |trace|
  {
    if trace == [] then [] else
      var last := |trace| - 1;
      Kept(trace[..last], mask[..last]) + (if mask[last] then [trace[last]] else [])
  }

  // What may be dropped as far as one user is concerned: other users'
  // requests, rejected requests, and clean-up.
  ghost predicate Droppable(c: Config, trace: seq<Event>, user: UserId, i: nat)
    requires i < |trace|
  {
    trace[i].Request? && trace[i].user == user ==> !Decision(c, trace[..i], user, trace[i].at)
  }

  // Ten idle minutes refill a whole bucket.
  predicate RefillsWhileIdle(c: Config) {
    Refill(c, IDLE_SECONDS) >= c.capacity as real
  }

  lemma ChargeKeepsAlike(c: Config, b: Option<Bucket>, d: Option<Bucket>, t: Instant)
    requires c.refillRate >= 0.0 && Alike(c, b, d, t)
    ensures Charged(c, b, t) == Charged(c, d, t)
    ensures Alike(c, Some(Charged(c, b, t)), Some(Charged(c, d, t)), t)
  {
    hide Refill;
    LevelLater(c, b, t, t);
  }

  lemma SweepKeepsAlike(c: Config, full: map<UserId, Bucket>, kept: map<UserId, Bucket>, user: UserId, t: Instant)
    requires c.refillRate >= 0.0 && RefillsWhileIdle(c) && Alike(c, Lookup(full, user), Lookup(kept, user), t)
    ensures Alike(c, Lookup(Retained(full, t), user), Lookup(kept, user), t)
  {
    hide Refill;
    if user in full && full[user].lastRefill <= t - IDLE_SECONDS {
      SweepIsInvisible(c, Lookup(full, user), Lookup(kept, user), t);
    }
  }

  lemma OneEventKeepsAlike(c: Config, full: map<UserId, Bucket>, kept: map<UserId, Bucket>, e: Event, keep: bool, user: UserId)
    requires c.refillRate >= 0.0 && Alike(c, Lookup(full, user), Lookup(kept, user), e.at)
    requires e.Sweep? ==> RefillsWhileIdle(c)
    requires !keep && e.Request? && e.user == user ==> !Admits(c, Lookup(full, user), e.at)
    ensures Alike(c, Lookup(After(c, full, e), user), Lookup(if keep then After(c, kept, e) else kept, user), e.at)
  {
    hide Refill;
    if e.Sweep? {
      SweepKeepsAlike(c, full, kept, user, e.at);
      SweepKeepsAlike(c, kept, Retained(full, e.at), user, e.at);
    } else if e.user == user {
      if keep {
        ChargeKeepsAlike(c, Lookup(full, user), Lookup(kept, user), e.at);
      } else {
        RejectionIsInvisible(c, Lookup(full, user), Lookup(kept, user), e.at);
      }
    }
  }

  lemma RunKept(c: Config, trace: seq<Event>, mask: seq<bool>)
    requires |mask| == |trace| > 0
    ensures var last := |trace| - 1;
            var before := Run(c, map[], Kept(trace[..last], mask[..last]));
            Run(c, map[], Kept(trace, mask)) == if mask[last] then After(c, before, trace[last]) else before
  {
    var last := |trace| - 1;
    var kept := Kept(trace[..last], mask[..last]);
    if mask[last] {
      assert (kept + [trace[last]])[..|kept|] == kept;
    } else {
      assert kept + [] == kept;
    }
  }

  lemma {:induction false} DroppingKeepsAlike(c: Config, trace: seq<Event>, mask: seq<bool>, user: UserId, t: Instant)
    requires c.refillRate >= 0.0 && InOrder(trace) && |mask| == |trace|
    requires (exists i :: 0 <= i < |trace| && trace[i].Sweep?) ==> RefillsWhileIdle(c)
    requires forall i: nat :: i < |trace| && !mask[i] ==> Droppable(c, trace, user, i)
    requires trace != [] ==> trace[|trace| - 1].at <= t
    ensures Alike(c, Lookup(Run(c, map[], trace), user), Lookup(Run(c, map[], Kept(trace, mask)), user), t)
  {
    hide Refill;
    if trace != [] {
      var last := |trace| - 1;
      var front, e := trace[..last], trace[last];
      forall i: nat | i < last && !mask[..last][i]
        ensures Droppable(c, front, user, i)
      {
        assert Droppable(c, trace, user, i) && front[..i] == trace[..i];
      }
      DroppingKeepsAlike(c, front, mask[..last], user, e.at);
      var full, kept := Run(c, map[], front), Run(c, map[], Kept(front, mask[..last]));
      assert !mask[last] ==> Droppable(c, trace, user, last);
      OneEventKeepsAlike(c, full, kept, e, mask[last], user);
      RunKept(c, trace, mask);
      AlikeLater(c, Lookup(After(c, full, e), user), Lookup(if mask[last] then After(c, kept, e) else kept, user), e.at, t);
    }
  }

  // Deleting rejected requests, other users' requests and clean-ups from a
  // trace changes no decision for this user. If there are clean-ups at all,
  // ten idle minutes must refill a bucket.
  lemma {:induction false} DroppingChangesNoDecision(c: Config, trace: seq<Event>, mask: seq<bool>, user: UserId, at: Instant)
    requires c.refillRate >= 0.0 && InOrder(trace) && |mask| == |trace|
    requires (exists i :: 0 <= i < |trace| && trace[i].Sweep?) ==> RefillsWhileIdle(c)
    requires forall i: nat :: i < |trace| && !mask[i] ==> Droppable(c, trace, user, i)
    requires trace != [] ==> trace[|trace| - 1].at <= at
    ensures Decision(c, trace, user, at) <==> Decision(c, Kept(trace, mask), user, at)
  {
    hide Refill;
    DroppingKeepsAlike(c, trace, mask, user, at);
  }

  // ---------------------------------------------------------------------
  // When clean-up is unobservable
  // ---------------------------------------------------------------------

  function RequestMask(trace: seq<Event>): (mask: seq<bool>)
    ensures |mask| == |trace|
  {
    seq(|trace|, i requires 0 <= i < |trace| => trace[i].Request?)
  }

  function WithoutSweeps(trace: seq<Event>): seq<Event> {
    Kept(trace, RequestMask(trace))
  }

  lemma WithoutSweepsSnoc(trace: seq<Event>, e: Event)
    ensures WithoutSweeps(trace + [e]) == WithoutSweeps(trace) + (if e.Request? then [e] else [])
  {
    assert (trace + [e])[..|trace|] == trace;
    assert RequestMask(trace + [e])[..|trace|] == RequestMask(trace);
  }

  lemma {:induction false} WithoutSweepsAppend(trace: seq<Event>, requests: seq<Event>)
    requires forall e :: e in requests ==> e.Request?
    ensures WithoutSweeps(trace + requests) == WithoutSweeps(trace) + requests
  {
    if requests == [] {
      assert trace + [] == trace;
    } else {
      var front, e := requests[..|requests| - 1], requests[|requests| - 1];
      WithoutSweepsAppend(trace, front);
      WithoutSweepsSnoc(trace + front, e);
      assert trace + requests == trace + front + [e];
      assert requests == front + [e];
    }
  }

  // No request, in any run, could tell whether clean-ups took place before it.
  ghost predicate CleanUpIsInvisible(c: Config) {
    forall trace: seq<Event>, user: UserId, at: Instant :: InOrder(trace) && (trace != [] ==> trace[|trace| - 1].at <= at) ==>
      (Decision(c, trace, user, at) <==> Decision(c, WithoutSweeps(trace), user, at))
  }

  function Burst(user: UserId, at: Instant, n: nat): seq<Event> {
    seq(n, _ => Request(user, at))
  }

  // A burst at one instant takes one token a request while there are any.
  lemma {:induction false} BurstDrains(c: Config, trace: seq<Event>, user: UserId, at: Instant, level: real, n: nat)
    requires Level(c, Lookup(Run(c, map[], trace), user), at) == level <= c.capacity as real
    requires n as real <= level
    ensures Level(c, Lookup(Run(c, map[], trace + Burst(user, at, n)), user), at) == level - n as real
    ensures n > 0 ==> Lookup(Run(c, map[], trace + Burst(user, at, n)), user) == Some(Bucket(level - n as real, at))
  {
    hide Refill;
    RefillAdds(c, 0.0, 0.0);
    if n == 0 {
      assert trace + [] == trace;
    } else {
      BurstDrains(c, trace, user, at, level, n - 1);
      var before, whole := trace + Burst(user, at, n - 1), trace + Burst(user, at, n);
      assert whole[..|whole| - 1] == before;
      LevelAfterCharge(c, Lookup(Run(c, map[], before), user), level - (n - 1) as real, at, at);
    }
  }

  lemma DrainedAtZero(c: Config)
    requires c.refillRate >= 0.0 && !RefillsWhileIdle(c)
    ensures 0.0 <= Refill(c, IDLE_SECONDS)
    ensures Lookup(Run(c, map[], Burst(0, 0.0, c.capacity)), 0) == Some(Bucket(0.0, 0.0))
    ensures Level(c, Some(Bucket(0.0, 0.0)), IDLE_SECONDS) == Refill(c, IDLE_SECONDS)
  {
    hide Refill;
    RefillGrows(c, 0.0, IDLE_SECONDS);
    assert [] + Burst(0, 0.0, c.capacity) == Burst(0, 0.0, c.capacity);
    BurstDrains(c, [], 0, 0.0, c.capacity as real, c.capacity);
    LevelOf(c, 0.0, 0.0, IDLE_SECONDS);
  }

  lemma SweptAtTenMinutes(c: Config, trace: seq<Event>)
    requires Lookup(Run(c, map[], trace), 0) == Some(Bucket(0.0, 0.0))
    ensures Lookup(Run(c, map[], trace + [Sweep(IDLE_SECONDS)]), 0) == None
    ensures WithoutSweeps(trace + [Sweep(IDLE_SECONDS)]) == WithoutSweeps(trace)
  {
    assert (trace + [Sweep(IDLE_SECONDS)])[..|trace|] == trace;
    WithoutSweepsSnoc(trace, Sweep(IDLE_SECONDS));
  }

  // After a clean-up at ten minutes a fresh bucket still admits request number n.
  lemma SweptAdmits(c: Config, swept: seq<Event>, n: nat)
    requires Lookup(Run(c, map[], swept), 0) == None && n < c.capacity
    ensures Decision(c, swept + Burst(0, IDLE_SECONDS, n), 0, IDLE_SECONDS)
  {
    hide Refill;
    BurstDrains(c, swept, 0, IDLE_SECONDS, c.capacity as real, n);
  }

  lemma UnsweptRejects(c: Config, drained: seq<Event>, level: real, n: nat)
    requires Level(c, Lookup(Run(c, map[], drained), 0), IDLE_SECONDS) == level
    requires n as real <= level < (n + 1) as real && level <= c.capacity as real
    ensures !Decision(c, drained + Burst(0, IDLE_SECONDS, n), 0, IDLE_SECONDS)
  {
    hide Refill;
    BurstDrains(c, drained, 0, IDLE_SECONDS, level, n);
  }

  lemma RemoveTheSweep(drained: seq<Event>, again: seq<Event>)
    requires forall e :: e in drained + again ==> e.Request?
    ensures WithoutSweeps(drained + [Sweep(IDLE_SECONDS)] + again) == drained + again
  {
    assert forall e :: e in drained || e in again ==> e in drained + again;
    WithoutSweepsAppend(drained + [Sweep(IDLE_SECONDS)], again);
    WithoutSweepsSnoc(drained, Sweep(IDLE_SECONDS));
    assert [] + drained == drained;
    WithoutSweepsAppend([], drained);
  }

  // A full bucket emptied at time 0 and idle for ten minutes: clean-up gives
  // back a full one, waiting gives back only the refill.
  lemma CleanUpShows(c: Config) returns (trace: seq<Event>)
    requires c.refillRate >= 0.0 && !RefillsWhileIdle(c)
    ensures InOrder(trace) && trace != [] && trace[|trace| - 1].at <= IDLE_SECONDS
    ensures Decision(c, trace, 0, IDLE_SECONDS) && !Decision(c, WithoutSweeps(trace), 0, IDLE_SECONDS)
  {
    hide Refill, Run, Kept, Decision, WithoutSweeps;
    DrainedAtZero(c);
    var n := Refill(c, IDLE_SECONDS).Floor;
    var drained, again := Burst(0, 0.0, c.capacity), Burst(0, IDLE_SECONDS, n);
    trace := drained + [Sweep(IDLE_SECONDS)] + again;
    SweptAtTenMinutes(c, drained);
    SweptAdmits(c, drained + [Sweep(IDLE_SECONDS)], n);
    RemoveTheSweep(drained, again);
    UnsweptRejects(c, drained, Refill(c, IDLE_SECONDS), n);
  }

  lemma CleanUpIsInvisibleIff(c: Config)
    requires c.refillRate >= 0.0
    ensures CleanUpIsInvisible(c) <==> RefillsWhileIdle(c)
  {
    hide Refill;
    if RefillsWhileIdle(c) {
      forall trace: seq<Event>, user: UserId, at: Instant | InOrder(trace) && (trace != [] ==> trace[|trace| - 1].at <= at)
        ensures Decision(c, trace, user, at) <==> Decision(c, WithoutSweeps(trace), user, at)
      {
        DroppingChangesNoDecision(c, trace, RequestMask(trace), user, at);
      }
    } else {
      var trace := CleanUpShows(c);
      assert !(Decision(c, trace, 0, IDLE_SECONDS) <==> Decision(c, WithoutSweeps(trace), 0, IDLE_SECONDS));
    }
  }
}
