/** The cache of channel members: how stale an answer can be. */
module MemberCache {
  import opened Base

  datatype CachedMembers = CachedMembers(members: seq<UserId>, fetchedAt: Instant)

  type Cache = map<ChannelId, CachedMembers>

  predicate IsFresh(entry: CachedMembers, now: Instant, ttl: real) {
    Elapsed(now, entry.fetchedAt) < ttl
  }

  // The entry that a lookup may answer from.
  function FreshEntry(cache: Cache, channel: ChannelId, now: Instant, ttl: real): Option<CachedMembers> {
    if channel in cache && IsFresh(cache[channel], now, ttl) then Some(cache[channel]) else None
  }

  // The answer of a lookup, and the cache after it; `fetched` is what the
  // database says if it is asked.
  function Found(cache: Cache, channel: ChannelId, now: Instant, ttl: real, fetched: Option<seq<UserId>>): Option<seq<UserId>> {
    var hit := FreshEntry(cache, channel, now, ttl);
    if hit.Some? then Some(hit.value.members) else fetched
  }

  function Filled(cache: Cache, channel: ChannelId, now: Instant, ttl: real, fetched: Option<seq<UserId>>, insertedAt: Instant): Cache {
    if FreshEntry(cache, channel, now, ttl).Some? || fetched.None? then cache
    else cache[channel := CachedMembers(fetched.value, insertedAt)]
  }

  function Unexpired(cache: Cache, now: Instant, ttl: real): Cache {
    map c | c in cache && IsFresh(cache[c], now, ttl) :: cache[c]
  }

  // An entry is answered from for exactly one time to live after its insertion.
  lemma FreshForOneTtl(cache: Cache, channel: ChannelId, now: Instant, ttl: real)
    requires channel in cache && cache[channel].fetchedAt <= now
    ensures FreshEntry(cache, channel, now, ttl) == if now < cache[channel].fetchedAt + ttl then Some(cache[channel]) else None
  {
  }

  // What a lookup fetched is what every lookup of the channel answers for one
  // time to live from then on, and asks for again afterwards.
  lemma FetchedIsFound(cache: Cache, channel: ChannelId, now: Instant, ttl: real, users: seq<UserId>, at: Instant, later: Instant,
                       other: Option<seq<UserId>>)
    requires FreshEntry(cache, channel, now, ttl) == None && at <= later
    ensures Found(cache, channel, now, ttl, Some(users)) == Some(users)
    ensures Found(Filled(cache, channel, now, ttl, Some(users), at), channel, later, ttl, other)
         == if later < at + ttl then Some(users) else other
  {
    FreshForOneTtl(Filled(cache, channel, now, ttl, Some(users), at), channel, later, ttl);
  }

  // A lookup changes no other channel's entry, and nothing at all if it hits or fails.
  lemma LookupTouchesOneEntry(cache: Cache, channel: ChannelId, now: Instant, ttl: real, fetched: Option<seq<UserId>>, at: Instant,
                              other: ChannelId)
    ensures var cache' := Filled(cache, channel, now, ttl, fetched, at);
            && (other != channel ==> (other in cache' <==> other in cache) && (other in cache ==> cache'[other] == cache[other]))
            && (FreshEntry(cache, channel, now, ttl).Some? || fetched.None? ==> cache' == cache)
  {
  }

  // The clean-up drops exactly the entries that are one time to live old.
  lemma UnexpiredKeeps(cache: Cache, channel: ChannelId, now: Instant, ttl: real)
    requires channel in cache && cache[channel].fetchedAt <= now
    ensures channel in Unexpired(cache, now, ttl) <==> now < cache[channel].fetchedAt + ttl
    ensures channel in Unexpired(cache, now, ttl) ==> Unexpired(cache, now, ttl)[channel] == cache[channel]
  {
    FreshForOneTtl(cache, channel, now, ttl);
  }

  // ---------------------------------------------------------------------
  // Concurrent lookups
  // ---------------------------------------------------------------------

  // The membership that the database holds at every instant, the time to
  // live, and how long it may take from the read to the insertion.
  datatype World = World(truth: (ChannelId, Instant) -> seq<UserId>, ttl: real, latency: real)

  // A lookup that missed: before and after its database read.
  datatype Fetch =
    | Asked(channel: ChannelId)
    | Read(channel: ChannelId, members: seq<UserId>, readAt: Instant)

  // `readAt` only records when the members last inserted for a channel were read.
  datatype State = State(cache: Cache, fetches: map<nat, Fetch>, now: Instant, readAt: map<ChannelId, Instant>)

  datatype Step =
    | Pass(to: Instant)
    | Lookup(fetch: nat, channel: ChannelId)
    | Query(fetch: nat)
    | Insert(fetch: nat)
    | Fail(fetch: nat)
    | Invalidate(channel: ChannelId)
    | Sweep

  predicate Enabled(w: World, s: State, step: Step) {
    match step
    case Pass(to) => s.now <= to
    case Lookup(f, _) => f !in s.fetches
    case Query(f) => f in s.fetches && s.fetches[f].Asked?
    case Insert(f) => f in s.fetches && s.fetches[f].Read? && s.now - s.fetches[f].readAt <= w.latency
    case Fail(f) => f in s.fetches
    case Invalidate(_) => true
    case Sweep => true
  }

  function Next(w: World, s: State, step: Step): State
    requires Enabled(w, s, step)
  {
    match step
    case Pass(to) => s.(now := to)
    case Lookup(f, c) =>
      if FreshEntry(s.cache, c, s.now, w.ttl).Some? then s else s.(fetches := s.fetches[f := Asked(c)])
    case Query(f) =>
      var c := s.fetches[f].channel;
      s.(fetches := s.fetches[f := Read(c, w.truth(c, s.now), s.now)])
    case Insert(f) =>
      var Read(c, members, readAt) := s.fetches[f];
      s.(cache := s.cache[c := CachedMembers(members, s.now)], fetches := s.fetches - {f}, readAt := s.readAt[c := readAt])
    case Fail(f) => s.(fetches := s.fetches - {f})
    case Invalidate(c) => s.(cache := s.cache - {c})
    case Sweep => s.(cache := Unexpired(s.cache, s.now, w.ttl))
  }

  // What the caller of a lookup gets, and when the database was read for it.
  datatype Reply = Reply(channel: ChannelId, members: seq<UserId>, readAt: Instant)

  // What a step returns to the caller of a lookup: a hit at once, a miss when
  // its fetch is inserted.
  function Answer(w: World, s: State, step: Step): Option<Reply>
    requires Enabled(w, s, step)
  {
    match step
    case Lookup(_, c) =>
      var e := FreshEntry(s.cache, c, s.now, w.ttl);
      if e.Some? && c in s.readAt then Some(Reply(c, e.value.members, s.readAt[c])) else None
    case Insert(f) => Some(Reply(s.fetches[f].channel, s.fetches[f].members, s.fetches[f].readAt))
    case _ => None
  }

  // The state after a list of steps, if each is possible in turn.
  function Exec(w: World, start: Instant, steps: seq<Step>): Option<State> {
    if steps == [] then Some(State(map[], map[], start, map[]))
    else
      var before := Exec(w, start, steps[..|steps| - 1]);
      if before.Some? && Enabled(w, before.value, steps[|steps| - 1])
      then Some(Next(w, before.value, steps[|steps| - 1])) else None
  }

  // ---------------------------------------------------------------------
  // Bounded staleness
  // ---------------------------------------------------------------------

  // The entry is what the database held at r, at most one latency before it was inserted.
  predicate ReadAt(w: World, channel: ChannelId, entry: CachedMembers, r: Instant) {
    entry.fetchedAt - w.latency <= r <= entry.fetchedAt && entry.members == w.truth(channel, r)
  }

  ghost predicate Sourced(w: World, s: State) {
    && (forall c :: c in s.cache ==> s.cache[c].fetchedAt <= s.now && c in s.readAt && ReadAt(w, c, s.cache[c], s.readAt[c]))
    && (forall f :: f in s.fetches && s.fetches[f].Read? ==>
          s.fetches[f].readAt <= s.now && s.fetches[f].members == w.truth(s.fetches[f].channel, s.fetches[f].readAt))
  }

  lemma StepKeepsSourced(w: World, s: State, step: Step)
    requires Sourced(w, s) && Enabled(w, s, step)
    ensures Sourced(w, Next(w, s, step))
  {
  }

  lemma {:induction false} ReachableIsSourced(w: World, start: Instant, steps: seq<Step>)
    requires Exec(w, start, steps).Some?
    ensures Sourced(w, Exec(w, start, steps).value)
  {
    assert Sourced(w, State(map[], map[], start, map[]));
    hide Sourced;
    if steps != [] {
      ReachableIsSourced(w, start, steps[..|steps| - 1]);
      StepKeepsSourced(w, Exec(w, start, steps[..|steps| - 1]).value, steps[|steps| - 1]);
    }
  }

  // Whatever other lookups, invalidations and clean-ups do meanwhile, every
  // fresh entry is answered, and every answer is the true membership at its
  // reading, at most one latency ago on a miss, and less than the time to live
  // plus one latency ago on a hit.
  lemma AnswersAreRecent(w: World, start: Instant, steps: seq<Step>, step: Step)
    requires Exec(w, start, steps).Some? && Enabled(w, Exec(w, start, steps).value, step)
    ensures var s := Exec(w, start, steps).value;
            && (step.Lookup? && FreshEntry(s.cache, step.channel, s.now, w.ttl).Some? ==> Answer(w, s, step).Some?)
            && (Answer(w, s, step).Some? ==>
                  var reply := Answer(w, s, step).value;
                  && reply.members == w.truth(reply.channel, reply.readAt) && reply.readAt <= s.now
                  && (if step.Lookup? then s.now - reply.readAt < w.ttl + w.latency else s.now - reply.readAt <= w.latency))
  {
    ReachableIsSourced(w, start, steps);
  }

  lemma ExecSnoc(w: World, start: Instant, steps: seq<Step>, step: Step)
    ensures Exec(w, start, steps + [step])
         == if Exec(w, start, steps).Some? && Enabled(w, Exec(w, start, steps).value, step)
            then Some(Next(w, Exec(w, start, steps).value, step)) else None
  {
    assert (steps + [step])[..|steps|] == steps;
  }

  // ---------------------------------------------------------------------
  // The lookup of the router in these terms
  // ---------------------------------------------------------------------

  // A lookup that asks the database, if at all, at `readAt` and inserts at `insertedAt`.
  ghost predicate IsLookup(w: World, s: State, channel: ChannelId, f: nat, fetched: Option<seq<UserId>>, readAt: Instant, insertedAt: Instant) {
    && f !in s.fetches
    && (FreshEntry(s.cache, channel, s.now, w.ttl) == None ==>
          && s.now <= readAt <= insertedAt && insertedAt - readAt <= w.latency
          && (fetched.Some? ==> fetched.value == w.truth(channel, readAt)))
  }

  function MissSteps(channel: ChannelId, f: nat, readAt: Instant, insertedAt: Instant): seq<Step> {
    [Lookup(f, channel), Pass(readAt), Query(f), Pass(insertedAt), Insert(f)]
  }

  function LookupSteps(w: World, s: State, channel: ChannelId, f: nat, fetched: Option<seq<UserId>>, readAt: Instant, insertedAt: Instant): seq<Step> {
    if FreshEntry(s.cache, channel, s.now, w.ttl).Some? then [Lookup(f, channel)]
    else if fetched.Some? then MissSteps(channel, f, readAt, insertedAt)
    else [Lookup(f, channel), Fail(f)]
  }

  // After any run, a lookup in one go takes the state machine's steps: a hit;
  // a miss with its query and insertion; or a miss that fails.
  lemma LookupIsSteps(w: World, start: Instant, steps: seq<Step>, channel: ChannelId, f: nat, fetched: Option<seq<UserId>>,
                      readAt: Instant, insertedAt: Instant)
    requires Exec(w, start, steps).Some?
    requires IsLookup(w, Exec(w, start, steps).value, channel, f, fetched, readAt, insertedAt)
    ensures var s := Exec(w, start, steps).value;
            var after := Exec(w, start, steps + LookupSteps(w, s, channel, f, fetched, readAt, insertedAt));
            && after.Some? && after.value.fetches == s.fetches
            && after.value.cache == Filled(s.cache, channel, s.now, w.ttl, fetched, insertedAt)
  {
    hide Exec, MissSteps;
    var s := Exec(w, start, steps).value;
    if FreshEntry(s.cache, channel, s.now, w.ttl).Some? {
      ExecSnoc(w, start, steps, Lookup(f, channel));
    } else if fetched.Some? {
      MissIsSteps(w, start, steps, channel, f, readAt, insertedAt);
    } else {
      FailureIsSteps(w, start, steps, channel, f);
    }
  }

  lemma FailureIsSteps(w: World, start: Instant, steps: seq<Step>, channel: ChannelId, f: nat)
    requires Exec(w, start, steps).Some? && f !in Exec(w, start, steps).value.fetches
    requires FreshEntry(Exec(w, start, steps).value.cache, channel, Exec(w, start, steps).value.now, w.ttl) == None
    ensures Exec(w, start, steps + [Lookup(f, channel), Fail(f)]) == Exec(w, start, steps)
  {
    hide Exec;
    var s := Exec(w, start, steps).value;
    ExecSnoc(w, start, steps, Lookup(f, channel));
    ExecSnoc(w, start, steps + [Lookup(f, channel)], Fail(f));
    assert steps + [Lookup(f, channel)] + [Fail(f)] == steps + [Lookup(f, channel), Fail(f)];
    assert s.fetches[f := Asked(channel)] - {f} == s.fetches;
  }

  lemma MissIsSteps(w: World, start: Instant, steps: seq<Step>, channel: ChannelId, f: nat, readAt: Instant, insertedAt: Instant)
    requires Exec(w, start, steps).Some? && f !in Exec(w, start, steps).value.fetches
    requires FreshEntry(Exec(w, start, steps).value.cache, channel, Exec(w, start, steps).value.now, w.ttl) == None
    requires Exec(w, start, steps).value.now <= readAt <= insertedAt && insertedAt - readAt <= w.latency
    ensures var s, after := Exec(w, start, steps).value, Exec(w, start, steps + MissSteps(channel, f, readAt, insertedAt));
            && after.Some? && after.value.fetches == s.fetches
            && after.value.cache == s.cache[channel := CachedMembers(w.truth(channel, readAt), insertedAt)]
  {
    hide Exec;
    var s := Exec(w, start, steps).value;
    var asked := steps + [Lookup(f, channel)] + [Pass(readAt)];
    ExecSnoc(w, start, steps, Lookup(f, channel));
    ExecSnoc(w, start, steps + [Lookup(f, channel)], Pass(readAt));
    ExecSnoc(w, start, asked, Query(f));
    ExecSnoc(w, start, asked + [Query(f)], Pass(insertedAt));
    ExecSnoc(w, start, asked + [Query(f)] + [Pass(insertedAt)], Insert(f));
    assert asked + [Query(f)] + [Pass(insertedAt)] + [Insert(f)] == steps + MissSteps(channel, f, readAt, insertedAt);
    assert s.fetches[f := Asked(channel)][f := Read(channel, w.truth(channel, readAt), readAt)] - {f} == s.fetches;
  }

  // So what the router's lookup returns after any run is the true membership
  // at an instant less than the time to live plus one latency before the
  // lookup if it hits, and when the database was read if it misses.
  lemma FoundIsRecent(w: World, start: Instant, steps: seq<Step>, channel: ChannelId, f: nat, fetched: Option<seq<UserId>>,
                      readAt: Instant, insertedAt: Instant) returns (t: Instant)
    requires Exec(w, start, steps).Some?
    requires IsLookup(w, Exec(w, start, steps).value, channel, f, fetched, readAt, insertedAt)
    requires Found(Exec(w, start, steps).value.cache, channel, Exec(w, start, steps).value.now, w.ttl, fetched).Some?
    ensures var s := Exec(w, start, steps).value;
            && Found(s.cache, channel, s.now, w.ttl, fetched).value == w.truth(channel, t)
            && if FreshEntry(s.cache, channel, s.now, w.ttl).Some? then t <= s.now < t + w.ttl + w.latency else t == readAt
  {
    var s := Exec(w, start, steps).value;
    if FreshEntry(s.cache, channel, s.now, w.ttl).Some? {
      AnswersAreRecent(w, start, steps, Lookup(f, channel));
      t := s.readAt[channel];
    } else {
      t := readAt;
    }
  }

  // ---------------------------------------------------------------------
  // Clean-up is unobservable
  // ---------------------------------------------------------------------

  function WithoutSweeps(steps: seq<Step>): seq<Step> {
    if steps == [] then [] else
      var last := |steps| - 1;
      WithoutSweeps(steps[..last]) + (if steps[last].Sweep? then [] else [steps[last]])
  }

  // The states differ at most in expired entries.
  ghost predicate Alike(w: World, s: State, t: State) {
    && s.now == t.now && s.fetches == t.fetches && s.readAt == t.readAt
    && forall c :: FreshEntry(s.cache, c, s.now, w.ttl) == FreshEntry(t.cache, c, s.now, w.ttl)
  }

  ghost predicate BothAlike(w: World, s: Option<State>, t: Option<State>) {
    if s.Some? then t.Some? && Alike(w, s.value, t.value) else t.None?
  }

  // An expired entry does not become fresh again.
  lemma AlikeLater(w: World, s: State, t: State, to: Instant)
    requires Alike(w, s, t) && s.now <= to
    ensures Alike(w, s.(now := to), t.(now := to))
  {
    forall c ensures FreshEntry(s.cache, c, to, w.ttl) == FreshEntry(t.cache, c, to, w.ttl) {
      assert FreshEntry(s.cache, c, s.now, w.ttl) == FreshEntry(t.cache, c, s.now, w.ttl);
    }
  }

  lemma WriteKeepsAlike(w: World, s: State, t: State, step: Step)
    requires Alike(w, s, t) && Enabled(w, s, step) && (step.Insert? || step.Invalidate? || step.Sweep?)
    ensures Alike(w, Next(w, s, step), Next(w, t, step))
  {
    var s', t' := Next(w, s, step), Next(w, t, step);
    forall c ensures FreshEntry(s'.cache, c, s'.now, w.ttl) == FreshEntry(t'.cache, c, t'.now, w.ttl) {
      assert FreshEntry(s.cache, c, s.now, w.ttl) == FreshEntry(t.cache, c, s.now, w.ttl);
    }
  }

  lemma StepKeepsAlike(w: World, s: State, t: State, step: Step)
    requires Alike(w, s, t)
    ensures step.Sweep? ==> Alike(w, Next(w, s, step), t)
    ensures Enabled(w, s, step) == Enabled(w, t, step)
    ensures Enabled(w, s, step) ==> Alike(w, Next(w, s, step), Next(w, t, step)) && Answer(w, s, step) == Answer(w, t, step)
  {
    assert forall c :: FreshEntry(s.cache, c, s.now, w.ttl) == FreshEntry(t.cache, c, s.now, w.ttl);
    if step.Pass? && s.now <= step.to {
      AlikeLater(w, s, t, step.to);
    }
    if Enabled(w, s, step) && (step.Insert? || step.Invalidate? || step.Sweep?) {
      WriteKeepsAlike(w, s, t, step);
    }
  }

  lemma {:induction false} SweepsLeaveStatesAlike(w: World, start: Instant, steps: seq<Step>)
    ensures BothAlike(w, Exec(w, start, steps), Exec(w, start, WithoutSweeps(steps)))
  {
    if steps != [] {
      var front, last := steps[..|steps| - 1], steps[|steps| - 1];
      SweepsLeaveStatesAlike(w, start, front);
      var kept := WithoutSweeps(front);
      assert (kept + [last])[..|kept|] == kept && kept + [] == kept;
      if Exec(w, start, front).Some? {
        StepKeepsAlike(w, Exec(w, start, front).value, Exec(w, start, kept).value, last);
      }
    }
  }

  // After any steps, the same step is possible and gives the same answer as
  // if no clean-up had ever run.
  lemma SweepsChangeNoAnswer(w: World, start: Instant, steps: seq<Step>, step: Step)
    requires Exec(w, start, steps).Some?
    ensures Exec(w, start, WithoutSweeps(steps)).Some?
    ensures var s, t := Exec(w, start, steps).value, Exec(w, start, WithoutSweeps(steps)).value;
            && Enabled(w, s, step) == Enabled(w, t, step)
            && (Enabled(w, s, step) ==> Answer(w, s, step) == Answer(w, t, step))
  {
    SweepsLeaveStatesAlike(w, start, steps);
    StepKeepsAlike(w, Exec(w, start, steps).value, Exec(w, start, WithoutSweeps(steps)).value, step);
  }

  // ---------------------------------------------------------------------
  // What an invalidation achieves
  // ---------------------------------------------------------------------

  // A reading of the channel that is older than now, and still in time to be inserted.
  predicate IsOldReading(w: World, s: State, channel: ChannelId, f: nat) {
    && f in s.fetches && s.fetches[f].Read? && s.fetches[f].channel == channel
    && s.fetches[f].readAt < s.now <= s.fetches[f].readAt + w.latency
  }

  ghost predicate OldReadingInFlight(w: World, s: State, channel: ChannelId) {
    exists f :: IsOldReading(w, s, channel, f)
  }

  // The next step gives no answer for the channel from a reading before `since`.
  predicate UpToDate(w: World, s: State, step: Step, channel: ChannelId, since: Instant) {
    Enabled(w, s, step) && Answer(w, s, step).Some? && Answer(w, s, step).value.channel == channel ==>
      since <= Answer(w, s, step).value.readAt
  }

  // After `before` and an invalidation, no lookup ever hits on members that
  // were read before the invalidation.
  ghost predicate HitsAreRefreshed(w: World, start: Instant, before: seq<Step>, channel: ChannelId)
    requires Exec(w, start, before).Some?
  {
    forall after: seq<Step>, f: nat :: Exec(w, start, before + [Invalidate(channel)] + after).Some? ==>
      UpToDate(w, Exec(w, start, before + [Invalidate(channel)] + after).value, Lookup(f, channel), channel,
               Exec(w, start, before).value.now)
  }

  // Nothing that is cached for the channel, or can be, was read before `since`.
  ghost predicate ReadSince(w: World, s: State, channel: ChannelId, since: Instant) {
    && since <= s.now
    && (channel in s.cache && channel in s.readAt ==> since <= s.readAt[channel])
    && (forall f :: f in s.fetches && s.fetches[f].Read? && s.fetches[f].channel == channel ==>
          since <= s.fetches[f].readAt || s.fetches[f].readAt + w.latency < s.now)
  }

  lemma {:induction false} ReadSinceInvalidation(w: World, start: Instant, before: seq<Step>, channel: ChannelId, after: seq<Step>)
    requires Exec(w, start, before).Some? && !OldReadingInFlight(w, Exec(w, start, before).value, channel)
    requires Exec(w, start, before + [Invalidate(channel)] + after).Some?
    ensures ReadSince(w, Exec(w, start, before + [Invalidate(channel)] + after).value, channel, Exec(w, start, before).value.now)
  {
    var invalidated := before + [Invalidate(channel)];
    assert invalidated[..|invalidated| - 1] == before;
    if after == [] {
      assert invalidated + [] == invalidated;
      var s := Exec(w, start, before).value;
      assert forall f :: f in s.fetches ==> !IsOldReading(w, s, channel, f);
    } else {
      var front, last := after[..|after| - 1], after[|after| - 1];
      assert (invalidated + after)[..|invalidated + after| - 1] == invalidated + front;
      ReadSinceInvalidation(w, start, before, channel, front);
    }
  }

  // After an invalidation that finds no old reading of the channel in time to
  // be inserted, no answer of any kind is older than the invalidation.
  lemma InvalidationRefreshes(w: World, start: Instant, before: seq<Step>, channel: ChannelId, after: seq<Step>, step: Step)
    requires Exec(w, start, before).Some? && !OldReadingInFlight(w, Exec(w, start, before).value, channel)
    requires Exec(w, start, before + [Invalidate(channel)] + after).Some?
    ensures UpToDate(w, Exec(w, start, before + [Invalidate(channel)] + after).value, step, channel, Exec(w, start, before).value.now)
  {
    ReadSinceInvalidation(w, start, before, channel, after);
  }

  // With such a reading, the very next steps can put it back and hit on it.
  lemma InvalidationOvertaken(w: World, start: Instant, before: seq<Step>, channel: ChannelId, f: nat)
    requires w.ttl > 0.0
    requires Exec(w, start, before).Some? && IsOldReading(w, Exec(w, start, before).value, channel, f)
    ensures var steps := before + [Invalidate(channel)] + [Insert(f)];
            && Exec(w, start, steps).Some?
            && !UpToDate(w, Exec(w, start, steps).value, Lookup(f, channel), channel, Exec(w, start, before).value.now)
  {
    var invalidated := before + [Invalidate(channel)];
    assert invalidated[..|invalidated| - 1] == before;
    assert (invalidated + [Insert(f)])[..|invalidated|] == invalidated;
  }

  // Exactly when the invalidation does what it is for.
  lemma InvalidationRefreshesIff(w: World, start: Instant, before: seq<Step>, channel: ChannelId)
    requires w.ttl > 0.0 && Exec(w, start, before).Some?
    ensures HitsAreRefreshed(w, start, before, channel) <==> !OldReadingInFlight(w, Exec(w, start, before).value, channel)
  {
    var s := Exec(w, start, before).value;
    if OldReadingInFlight(w, s, channel) {
      var f :| IsOldReading(w, s, channel, f);
      InvalidationOvertaken(w, start, before, channel, f);
    } else {
      forall after: seq<Step>, f: nat | Exec(w, start, before + [Invalidate(channel)] + after).Some?
        ensures UpToDate(w, Exec(w, start, before + [Invalidate(channel)] + after).value, Lookup(f, channel), channel, s.now)
      {
        InvalidationRefreshes(w, start, before, channel, after, Lookup(f, channel));
      }
    }
  }

  // User 2 joins channel 5 one second after the start.
  function JoinAtOne(): World {
    World((channel: ChannelId, t: Instant) => if t < 1.0 then [1] else [1, 2], 300.0, 2.0)
  }

  // A lookup of the channel reads its members before the join and is slow.
  lemma SlowLookup(steps: seq<Step>)
    requires steps == [Lookup(0, 5)] + [Query(0)] + [Pass(1.0)]
    ensures Exec(JoinAtOne(), 0.0, steps) == Some(State(map[], map[0 := Read(5, [1], 0.0)], 1.0, map[]))
  {
    var w := JoinAtOne();
    assert Exec(w, 0.0, []) == Some(State(map[], map[], 0.0, map[]));
    assert map[0 := Asked(5)][0 := Read(5, [1], 0.0)] == map[0 := Read(5, [1], 0.0)];
    hide Exec;
    ExecSnoc(w, 0.0, [], Lookup(0, 5));
    assert [] + [Lookup(0, 5)] == [Lookup(0, 5)];
    ExecSnoc(w, 0.0, [Lookup(0, 5)], Query(0));
    ExecSnoc(w, 0.0, [Lookup(0, 5)] + [Query(0)], Pass(1.0));
  }

  // The channel is invalidated at the join, the slow lookup ends, and the next
  // lookup answers without user 2.
  lemma NewMemberIsMissed() returns (steps: seq<Step>, step: Step)
    ensures forall t :: JoinAtOne().truth(5, t) == if t < 1.0 then [1] else [1, 2]
    ensures Exec(JoinAtOne(), 0.0, steps).Some? && Exec(JoinAtOne(), 0.0, steps).value.now == 1.0
    ensures Invalidate(5) in steps && step.Lookup? && Enabled(JoinAtOne(), Exec(JoinAtOne(), 0.0, steps).value, step)
    ensures Answer(JoinAtOne(), Exec(JoinAtOne(), 0.0, steps).value, step) == Some(Reply(5, [1], 0.0))
  {
    var w, slow := JoinAtOne(), [Lookup(0, 5)] + [Query(0)] + [Pass(1.0)];
    steps, step := slow + [Invalidate(5)] + [Insert(0)], Lookup(0, 5);
    SlowLookup(slow);
    hide Exec;
    ExecSnoc(w, 0.0, slow, Invalidate(5));
    ExecSnoc(w, 0.0, slow + [Invalidate(5)], Insert(0));
  }
}
