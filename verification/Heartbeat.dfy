/** The monitor that reaps silent sessions. */
module Heartbeat {
  import opened Base
  import opened Registry
  import opened Sessions
  import opened Presence
  import Lifecycle

  // The objects are in the given state of the node's state machine.
  ghost predicate Matches(g: Lifecycle.Gateway, store: SessionStore, presence: PresenceTracker)
    reads store, presence, presence.broadcaster
  {
    && g.registry == store.Ids()
    && g.tracker == presence.Model()
    && g.debounce == presence.offlineDebounce
  }

  // The node after the listed sessions were reaped, one Reap step for each.
  function AfterReaps(g: Lifecycle.Gateway, stale: seq<(UserId, SessionId)>): Lifecycle.Gateway {
    if stale == [] then g else
      var last := stale[|stale| - 1];
      Lifecycle.Next(AfterReaps(g, stale[..|stale| - 1]), Lifecycle.Reap(last.0, last.1))
  }

  // The tracker after the last session of each listed user was closed.
  function ClosedAll(t: Tracker, users: seq<UserId>, deadline: Instant): Tracker {
    if users == [] then t else Closed(ClosedAll(t, users[..|users| - 1], deadline), users[|users| - 1], deadline)
  }

  // One new timer for each listed user, armed with the deadline; everything
  // else about the tracker stays.
  lemma {:induction false} ClosedAllArms(t: Tracker, users: seq<UserId>, deadline: Instant)
    requires TimersMatch(t) && NoDup(users)
    ensures var t' := ClosedAll(t, users, deadline);
            && TimersMatch(t') && |t'.timers| == |t.timers| + |users|
            && (forall u :: u in t'.pendingOffline <==> u in t.pendingOffline || u in users)
            && (forall u :: u in users ==> t'.timers[t'.pendingOffline[u]].deadline == deadline)
            && (forall u :: u in t.pendingOffline && u !in users ==>
                  t'.timers[t'.pendingOffline[u]] == t.timers[t.pendingOffline[u]])
            && t'.state == t.state && t'.sent == t.sent
  {
    hide Closed, Disarmed;
    if users != [] {
      var front, last := users[..|users| - 1], users[|users| - 1];
      assert users == front + [last];
      NoDupSnoc(front, last);
      ClosedAllArms(t, front, deadline);
      ClosedFacts(ClosedAll(t, front, deadline), last, deadline);
    }
  }

  function IdsIn(stale: seq<(UserId, SessionId)>): set<SessionId> {
    set e | e in stale :: e.1
  }

  // The next id of the list is not among the earlier ones.
  lemma NextId(r: Registry, stale: seq<(UserId, SessionId)>, i: nat)
    requires WellKept(r) && NoDup(stale) && i < |stale|
    requires forall u, id :: (u, id) in stale ==> u in r && id in r[u]
    ensures stale[i].0 in r && stale[i].1 in r[stale[i].0] && stale[i].1 !in IdsIn(stale[..i])
    ensures IdsIn(stale[..i + 1]) == IdsIn(stale[..i]) + {stale[i].1}
  {
  }

  // Who has lost every session is who had lost every one before, and the
  // owner of the last removed session if it was the owner's last.
  lemma NextGone(r: Registry, gone: set<SessionId>, user: UserId, id: SessionId)
    requires WellKept(r) && user in r && id in r[user] && id !in gone
    ensures !AllGone(r, user, gone)
    ensures forall u :: u != user ==> (AllGone(r, u, gone + {id}) <==> AllGone(r, u, gone))
    ensures AllGone(r, user, gone + {id}) <==> user !in Pruned(r, gone + {id})
  {
    ConnectedAfterPruning(r, gone + {id}, user);
  }

  // `armed` lists once whoever has lost every session among the first i ids.
  ghost predicate ArmedFor(r: Registry, stale: seq<(UserId, SessionId)>, i: nat, armed: seq<UserId>)
    requires i <= |stale|
  {
    NoDup(armed) && forall u :: u in armed <==> AllGone(r, u, IdsIn(stale[..i]))
  }

  lemma NextReaped(r: Registry, stale: seq<(UserId, SessionId)>, i: nat, armed: seq<UserId>)
    requires WellKept(r) && NoDup(stale) && i < |stale|
    requires forall u, id :: (u, id) in stale ==> u in r && id in r[u]
    requires ArmedFor(r, stale, i, armed)
    ensures var r' := Pruned(r, IdsIn(stale[..i + 1]));
            && Removed(Pruned(r, IdsIn(stale[..i])), stale[i].0, stale[i].1) == r'
            && ArmedFor(r, stale, i + 1, if stale[i].0 in r' then armed else armed + [stale[i].0])
  {
    hide Pruned, Removed, AllGone, IdsIn, Survivors;
    NextId(r, stale, i);
    NextGone(r, IdsIn(stale[..i]), stale[i].0, stale[i].1);
    RemovePrunes(r, IdsIn(stale[..i]), stale[i].0, stale[i].1);
    NoDupSnoc(armed, stale[i].0);
  }

  // What the first i reaps make of the registry and of the tracker.
  ghost predicate ReapedTo(g: Lifecycle.Gateway, stale: seq<(UserId, SessionId)>, i: nat, armed: seq<UserId>)
    requires i <= |stale|
  {
    var g' := AfterReaps(g, stale[..i]);
    && g'.registry == Pruned(g.registry, IdsIn(stale[..i]))
    && g'.tracker == ClosedAll(g.tracker, armed, g.now + g.debounce)
    && g'.debounce == g.debounce && g'.now == g.now
    && ArmedFor(g.registry, stale, i, armed)
  }

  lemma OneMoreReaped(g: Lifecycle.Gateway, stale: seq<(UserId, SessionId)>, i: nat, armed: seq<UserId>)
    requires WellKept(g.registry) && Listed(g.registry, stale) && i < |stale| && ReapedTo(g, stale, i, armed)
    ensures AfterReaps(g, stale[..i + 1]) == Lifecycle.Next(AfterReaps(g, stale[..i]), Lifecycle.Reap(stale[i].0, stale[i].1))
    ensures ReapedTo(g, stale, i + 1,
                     if stale[i].0 in AfterReaps(g, stale[..i + 1]).registry then armed else armed + [stale[i].0])
  {
    hide Pruned, IdsIn, ArmedFor, Survivors, WellKept, Removed, Closed, ClosedAll, AfterReaps, Lifecycle.Next, Lifecycle.Left;
    var (user, id) := stale[i];
    NextReaped(g.registry, stale, i, armed);
    PrunedIsKept(g.registry, IdsIn(stale[..i + 1]));
    ReapsSnoc(g, stale, i);
    ReapIs(AfterReaps(g, stale[..i]), user, id);
    ClosedAllSnoc(g.tracker, armed, user, g.now + g.debounce);
  }

  lemma ReapsSnoc(g: Lifecycle.Gateway, stale: seq<(UserId, SessionId)>, i: nat)
    requires i < |stale|
    ensures AfterReaps(g, stale[..i + 1]) == Lifecycle.Next(AfterReaps(g, stale[..i]), Lifecycle.Reap(stale[i].0, stale[i].1))
  {
    assert stale[..i + 1][..i] == stale[..i];
  }

  lemma ReapIs(g: Lifecycle.Gateway, user: UserId, id: SessionId)
    ensures var g' := Lifecycle.Next(g, Lifecycle.Reap(user, id));
            && g'.registry == Removed(g.registry, user, id) && g'.debounce == g.debounce && g'.now == g.now
            && g'.tracker == if Connected(g'.registry, user) then g.tracker else Closed(g.tracker, user, g.now + g.debounce)
  {
  }

  lemma ClosedAllSnoc(t: Tracker, users: seq<UserId>, user: UserId, deadline: Instant)
    ensures ClosedAll(t, users + [user], deadline) == Closed(ClosedAll(t, users, deadline), user, deadline)
  {
    assert (users + [user])[..|users|] == users;
  }

  lemma PrunedIsKept(r: Registry, gone: set<SessionId>)
    ensures forall u :: u in Pruned(r, gone) ==> Pruned(r, gone)[u] != []
  {
  }

  // One stale session: it is removed, and the timer armed if it was the last.
  method Reap(store: SessionStore, presence: PresenceTracker, user: UserId, id: SessionId, clock: Instant, ghost g: Lifecycle.Gateway)
      returns (last: bool)
    requires store.Valid() && WellFormed(presence.Model())
    requires Matches(g, store, presence) && g.now == clock
    modifies store, presence
    ensures store.Valid() && WellFormed(presence.Model())
    ensures store.Ids() == Removed(old(store.Ids()), user, id)
    ensures last <==> user !in store.Ids()
    ensures presence.Model() == if last then Closed(old(presence.Model()), user, clock + presence.offlineDebounce)
                                else old(presence.Model())
    ensures Matches(Lifecycle.Next(g, Lifecycle.Reap(user, id)), store, presence)
  {
    hide Removed, Closed, Survivors, Registered;
    var removed := store.Remove(user, id);
    last := !store.IsConnected(user);
    if last {
      presence.OnAllSessionsClosed(user, clock);
    }
  }

  // Every listed session is registered.
  ghost predicate Listed(r: Registry, stale: seq<(UserId, SessionId)>) {
    NoDup(stale) && forall u, id :: (u, id) in stale ==> u in r && id in r[u]
  }

  // One round of the loop over the sessions found stale.
  method ReapNext(store: SessionStore, presence: PresenceTracker, stale: seq<(UserId, SessionId)>, i: nat, clock: Instant,
                  armed: seq<UserId>, ghost g: Lifecycle.Gateway) returns (armed': seq<UserId>)
    requires store.Valid() && WellFormed(presence.Model())
    requires WellKept(g.registry) && Listed(g.registry, stale) && i < |stale|
    requires Matches(AfterReaps(g, stale[..i]), store, presence) && g.now == clock && ReapedTo(g, stale, i, armed)
    modifies store, presence
    ensures store.Valid() && WellFormed(presence.Model())
    ensures Matches(AfterReaps(g, stale[..i + 1]), store, presence) && ReapedTo(g, stale, i + 1, armed')
  {
    var (user, id) := stale[i];
    OneMoreReaped(g, stale, i, armed);
    ReapedFacts(g, stale, i, armed);
    hide SessionStore.Valid, WellFormed, WellKept, Removed, Closed, ReapedTo, AfterReaps, Lifecycle.Next, Listed;
    var last := Reap(store, presence, user, id, clock, AfterReaps(g, stale[..i]));
    armed' := if last then armed + [user] else armed;
  }

  // The loop over the sessions found stale.
  method ReapAll(store: SessionStore, presence: PresenceTracker, stale: seq<(UserId, SessionId)>, clock: Instant, ghost g: Lifecycle.Gateway)
      returns (armed: seq<UserId>)
    requires store.Valid() && WellFormed(presence.Model())
    requires Matches(g, store, presence) && g.now == clock && Listed(store.Ids(), stale)
    modifies store, presence
    ensures store.Valid() && WellFormed(presence.Model())
    ensures store.Ids() == Pruned(old(store.Ids()), IdsIn(stale))
    ensures NoDup(armed) && forall u :: u in armed <==> AllGone(old(store.Ids()), u, IdsIn(stale))
    ensures presence.Model() == ClosedAll(old(presence.Model()), armed, clock + presence.offlineDebounce)
    ensures Matches(AfterReaps(g, stale), store, presence)
  {
    armed := [];
    NothingReaped(g, stale);
    Matched(g, store, presence);
    assert WellKept(g.registry);
    hide SessionStore.Valid, WellFormed, WellKept, ReapedTo, AfterReaps, Pruned, AllGone, IdsIn, Matches, ClosedAll, NoDup, Listed;
    for i := 0 to |stale|
      invariant store.Valid() && WellFormed(presence.Model())
      invariant Matches(AfterReaps(g, stale[..i]), store, presence) && ReapedTo(g, stale, i, armed)
    {
      armed := ReapNext(store, presence, stale, i, clock, armed, g);
    }
    AllReaped(g, stale, armed);
    Matched(AfterReaps(g, stale), store, presence);
  }

  lemma Matched(g: Lifecycle.Gateway, store: SessionStore, presence: PresenceTracker)
    requires Matches(g, store, presence)
    ensures g.registry == store.Ids() && g.tracker == presence.Model() && g.debounce == presence.offlineDebounce
  {
  }

  lemma NothingReaped(g: Lifecycle.Gateway, stale: seq<(UserId, SessionId)>)
    requires WellKept(g.registry)
    ensures AfterReaps(g, stale[..0]) == g && ReapedTo(g, stale, 0, [])
  {
    PrunedByNothing(g.registry);
    NobodyGone(g.registry, stale);
  }

  lemma ReapedFacts(g: Lifecycle.Gateway, stale: seq<(UserId, SessionId)>, i: nat, armed: seq<UserId>)
    requires i <= |stale| && ReapedTo(g, stale, i, armed)
    ensures AfterReaps(g, stale[..i]).now == g.now
  {
  }

  lemma AllReaped(g: Lifecycle.Gateway, stale: seq<(UserId, SessionId)>, armed: seq<UserId>)
    requires ReapedTo(g, stale, |stale|, armed)
    ensures stale[..|stale|] == stale
    ensures AfterReaps(g, stale).registry == Pruned(g.registry, IdsIn(stale))
    ensures AfterReaps(g, stale).tracker == ClosedAll(g.tracker, armed, g.now + g.debounce)
    ensures NoDup(armed) && forall u :: u in armed <==> AllGone(g.registry, u, IdsIn(stale))
  {
    assert stale[..|stale|] == stale;
  }

  // One sweep at a fixed time. It returns the sessions it reaped and the users
  // it armed, in order.
  method Sweep(store: SessionStore, presence: PresenceTracker, now: nat, clock: Instant, timeoutSecs: nat, ghost g: Lifecycle.Gateway)
      returns (stale: seq<(UserId, SessionId)>, armed: seq<UserId>)
    requires store.Valid() && WellFormed(presence.Model())
    requires Matches(g, store, presence) && g.now == clock
    modifies store, presence
    ensures store.Valid() && WellFormed(presence.Model())
    ensures var gone := old(store.StaleIds(now, timeoutSecs));
            && IdsIn(stale) == gone && NoDup(stale)
            && store.Ids() == Pruned(old(store.Ids()), gone)
            && store.totalConnections == old(store.totalConnections) - |gone|
            && NoDup(armed)
            && (forall u :: u in armed <==> AllGone(old(store.Ids()), u, gone))
            && presence.Model() == ClosedAll(old(presence.Model()), armed, clock + presence.offlineDebounce)
    ensures Matches(AfterReaps(g, stale), store, presence)
  {
    hide Pruned, AllGone, IdsIn, ClosedAll, Survivors, IsStale;
    ghost var before, gone := store.Ids(), store.StaleIds(now, timeoutSecs);
    stale := store.FindStaleSessions(now, timeoutSecs);
    StaleAreRegistered(store, now, timeoutSecs);
    AllStale(before, stale, gone);
    RegisteredAfterPruning(before, gone);
    hide WellKept, Registered;
    armed := ReapAll(store, presence, stale, clock, g);
  }

  lemma StaleAreRegistered(store: SessionStore, now: nat, timeoutSecs: nat)
    requires store.Valid()
    ensures store.StaleIds(now, timeoutSecs) <= Registered(store.Ids())
  {
    forall id | id in store.StaleIds(now, timeoutSecs) ensures id in Registered(store.Ids()) {
      var s :| s in store.All() && s.sessionId == id;
      assert id in store.Ids()[s.userId];
    }
  }

  lemma NobodyGone(r: Registry, stale: seq<(UserId, SessionId)>)
    requires WellKept(r)
    ensures IdsIn(stale[..0]) == {} && forall u :: !AllGone(r, u, {})
  {
    forall u ensures !AllGone(r, u, {}) {
      if u in r {
        assert r[u][0] in r[u];
      }
    }
  }

  lemma AllStale(r: Registry, stale: seq<(UserId, SessionId)>, gone: set<SessionId>)
    requires forall u, id :: (u, id) in stale <==> u in r && id in r[u] && id in gone
    requires gone <= Registered(r)
    ensures IdsIn(stale) == gone
  {
  }
}
