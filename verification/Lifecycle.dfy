/** Sessions, presence and broadcasting of one gateway node, over every run. */
module Lifecycle {
  import opened Base
  import opened Registry
  import opened Broadcast
  import opened Presence

  datatype Processed = Processed(update: Update, delivered: bool)

  // `handlers` are the connections whose reader loop still runs; a reaped
  // session is out of the registry while its handler may live on. The worker
  // has taken `received` of the updates sent; `flushing` is what is left of
  // the batch it is flushing, `processed` what it has flushed, each with the
  // outcome of its member lookup.
  datatype Gateway = Gateway(
    registry: Registry,
    handlers: map<SessionId, UserId>,
    tracker: Tracker,
    debounce: real,
    now: Instant,
    received: nat,
    batch: seq<Update>,
    flushing: seq<Update>,
    processed: seq<Processed>)

  datatype Step =
    | Connect(id: SessionId, user: UserId)
    | Exit(id: SessionId)
    | Reap(user: UserId, id: SessionId)
    | Fire(timer: nat)
    | SetStatus(id: SessionId, status: PresenceStatus)
    | Pass(to: Instant)
    | Receive
    | Tick
    | Notify(delivered: bool)

  ghost predicate Init(g: Gateway) {
    && g.registry == map[] && g.handlers == map[]
    && g.tracker == Tracker(map[], map[], [], [])
    && g.received == 0 && g.batch == [] && g.flushing == [] && g.processed == []
  }

  // Timers may fire late but not early, and not once cancelled. Any session
  // may be reaped at any time, also one that is gone since a sweep listed it.
  predicate Enabled(g: Gateway, step: Step) {
    match step
    case Connect(id, _) => id !in g.handlers
    case Exit(id) => id in g.handlers
    case Reap(_, _) => true
    case Fire(i) => i < |g.tracker.timers| && g.tracker.timers[i].phase == Sleeping && g.tracker.timers[i].deadline <= g.now
    case SetStatus(id, _) => id in g.handlers
    case Pass(to) => g.now <= to
    case Receive => g.flushing == [] && g.received < |g.tracker.sent|
    case Tick => g.flushing == []
    case Notify(_) => g.flushing != []
  }

  // The removal of a session and what follows if it was the user's last: the
  // tail of a connection handler, and the body of the heartbeat monitor.
  function Left(g: Gateway, user: UserId, id: SessionId): Gateway {
    var registry := Removed(g.registry, user, id);
    g.(registry := registry,
       tracker := if Connected(registry, user) then g.tracker else Closed(g.tracker, user, g.now + g.debounce))
  }

  function Collected(g: Gateway, batch: seq<Update>): Gateway {
    if |batch| >= EARLY_FLUSH then g.(received := g.received + 1, batch := [], flushing := batch)
    else g.(received := g.received + 1, batch := batch)
  }

  function Next(g: Gateway, step: Step): Gateway
    requires Enabled(g, step)
  {
    match step
    case Connect(id, user) =>
      g.(registry := Inserted(g.registry, user, id), handlers := g.handlers[id := user], tracker := Opened(g.tracker, user))
    case Exit(id) => Left(g, g.handlers[id], id).(handlers := g.handlers - {id})
    case Reap(user, id) => Left(g, user, id)
    case Fire(i) => g.(tracker := Fired(g.tracker, i))
    case SetStatus(id, status) => g.(tracker := StatusSet(g.tracker, g.handlers[id], status))
    case Pass(to) => g.(now := to)
    case Receive => Collected(g, Coalesce(g.batch, g.tracker.sent[g.received]))
    case Tick => g.(batch := [], flushing := g.batch)
    case Notify(delivered) =>
      g.(flushing := g.flushing[1..], processed := g.processed + [Processed(g.flushing[0], delivered)])
  }

  ghost predicate IsRun(run: seq<Gateway>, steps: seq<Step>) {
    && |run| == |steps| + 1
    && Init(run[0])
    && forall i :: 0 <= i < |steps| ==> Enabled(run[i], steps[i]) && run[i + 1] == Next(run[i], steps[i])
  }

  // ---------------------------------------------------------------------
  // Sessions, handlers and timers
  // ---------------------------------------------------------------------

  ghost predicate HasHandler(g: Gateway, user: UserId) {
    exists id :: id in g.handlers && g.handlers[id] == user
  }

  // Every registered session has a live handler of its user.
  ghost predicate HandlersCover(g: Gateway) {
    forall u, id :: u in g.registry && id in g.registry[u] ==> id in g.handlers && g.handlers[id] == u
  }

  ghost predicate ArmedMeansGone(g: Gateway) {
    forall u :: u in g.tracker.pendingOffline ==> u !in g.registry
  }

  ghost predicate Counted(g: Gateway) {
    forall u :: u in g.registry ==> u in g.tracker.state && |g.registry[u]| <= g.tracker.state[u].sessionCount
  }

  ghost predicate NobodyStuck(g: Gateway) {
    forall u :: u in g.tracker.state && !HasHandler(g, u) ==>
      g.tracker.state[u].status == Offline || u in g.tracker.pendingOffline
  }

  ghost predicate Inv(g: Gateway) {
    && WellKept(g.registry)
    && TimersMatch(g.tracker)
    && Announced(g.tracker)
    && HandlersCover(g)
    && ArmedMeansGone(g)
    && Counted(g)
    && NobodyStuck(g)
  }

  lemma {:induction false} ConnectKeepsSessions(g: Gateway, id: SessionId, user: UserId)
    requires WellKept(g.registry) && HandlersCover(g) && ArmedMeansGone(g) && Counted(g)
    requires TimersMatch(g.tracker) && Announced(g.tracker)
    requires Enabled(g, Connect(id, user))
    ensures var g' := Next(g, Connect(id, user));
            WellKept(g'.registry) && HandlersCover(g') && ArmedMeansGone(g') && Counted(g')
  {
    hide Opened, TimersMatch, Announced, WellKept, Inserted;
    assert id !in Registered(g.registry);
    InsertKeeps(g.registry, user, id);
    OpenedFacts(g.tracker, user);
  }

  lemma ConnectLeavesNobodyStuck(g: Gateway, id: SessionId, user: UserId)
    requires NobodyStuck(g) && TimersMatch(g.tracker) && Announced(g.tracker)
    requires Enabled(g, Connect(id, user))
    ensures NobodyStuck(Next(g, Connect(id, user)))
  {
    hide Opened, TimersMatch, Announced, Inserted;
    OpenedFacts(g.tracker, user);
    var g' := Next(g, Connect(id, user));
    assert HasHandler(g', user) by { assert g'.handlers[id] == user; }
    forall u | HasHandler(g, u) ensures HasHandler(g', u) {
      var i :| i in g.handlers && g.handlers[i] == u;
      assert g'.handlers[i] == u;
    }
  }

  lemma LeftKeepsSessions(g: Gateway, user: UserId, id: SessionId)
    requires WellKept(g.registry) && HandlersCover(g) && ArmedMeansGone(g) && Counted(g)
    requires TimersMatch(g.tracker)
    ensures var g' := Left(g, user, id);
            && WellKept(g'.registry) && HandlersCover(g') && ArmedMeansGone(g') && Counted(g')
            && (user in g'.registry ==> id !in g'.registry[user])
  {
    hide Closed, TimersMatch, Survivors, WellKept;
    RemoveKeeps(g.registry, user, id);
    ClosedFacts(g.tracker, user, g.now + g.debounce);
    if user in g.registry {
      SurvivorsMembers(g.registry[user], {id});
      SurvivorsShorter(g.registry[user], {id});
    }
  }

  // Whoever was not stuck is not after a session ended, and the user of that
  // session has another one or an armed timer.
  lemma LeftArms(g: Gateway, user: UserId, id: SessionId)
    requires TimersMatch(g.tracker) && Announced(g.tracker)
    ensures var g' := Left(g, user, id);
            && TimersMatch(g'.tracker) && Announced(g'.tracker)
            && g'.tracker.state == g.tracker.state
            && g.tracker.pendingOffline.Keys <= g'.tracker.pendingOffline.Keys
            && (Connected(g'.registry, user) || user in g'.tracker.pendingOffline)
  {
    hide Closed, TimersMatch, Removed;
    ClosedFacts(g.tracker, user, g.now + g.debounce);
  }

  lemma ReapLeavesNobodyStuck(g: Gateway, user: UserId, id: SessionId)
    requires NobodyStuck(g) && TimersMatch(g.tracker) && Announced(g.tracker)
    ensures NobodyStuck(Left(g, user, id))
  {
  }

  lemma ExitLeavesNobodyStuck(g: Gateway, id: SessionId)
    requires Inv(g) && id in g.handlers
    ensures NobodyStuck(Next(g, Exit(id)))
  {
    hide TimersMatch, Announced, Removed, Closed, WellKept, ArmedMeansGone, Counted;
    var user := g.handlers[id];
    var left, g' := Left(g, user, id), Next(g, Exit(id));
    LeftArms(g, user, id);
    LeftKeepsSessions(g, user, id);
    forall u | HasHandler(g, u) && u != user ensures HasHandler(g', u) {
      var i :| i in g.handlers && g.handlers[i] == u;
      assert i in g'.handlers && g'.handlers[i] == u;
    }
    if Connected(left.registry, user) {
      var i := left.registry[user][0];
      assert i in left.registry[user];
      assert g'.handlers[i] == user;
    }
  }

  lemma ExitKeepsInv(g: Gateway, id: SessionId)
    requires Inv(g) && id in g.handlers
    ensures Inv(Next(g, Exit(id)))
  {
    hide TimersMatch, Announced, Removed, Closed, WellKept, NobodyStuck;
    ExitLeavesNobodyStuck(g, id);
    LeftKeepsSessions(g, g.handlers[id], id);
    LeftArms(g, g.handlers[id], id);
  }

  lemma FireKeepsInv(g: Gateway, i: nat)
    requires Inv(g) && Enabled(g, Fire(i))
    ensures Inv(Next(g, Fire(i)))
  {
    var user := g.tracker.timers[i].user;
    assert user in g.tracker.pendingOffline;
    hide TimersMatch, Announced, Fired, WellKept;
    FiredFacts(g.tracker, i);
    assert forall u :: HasHandler(Next(g, Fire(i)), u) <==> HasHandler(g, u);
  }

  lemma SetStatusKeepsInv(g: Gateway, id: SessionId, status: PresenceStatus)
    requires Inv(g) && Enabled(g, SetStatus(id, status))
    ensures Inv(Next(g, SetStatus(id, status)))
  {
    assert TimersMatch(Next(g, SetStatus(id, status)).tracker);
    hide TimersMatch, Announced, StatusSet, WellKept;
    StatusSetFacts(g.tracker, g.handlers[id], status);
    var g' := Next(g, SetStatus(id, status));
    assert HasHandler(g', g.handlers[id]);
    assert forall u :: HasHandler(g', u) <==> HasHandler(g, u);
  }

  lemma StepKeepsInv(g: Gateway, step: Step)
    requires Inv(g) && Enabled(g, step)
    ensures Inv(Next(g, step))
  {
    hide TimersMatch, Announced, WellKept, HandlersCover, ArmedMeansGone, Counted, NobodyStuck;
    match step
    case Connect(id, user) =>
      ConnectKeepsSessions(g, id, user);
      ConnectLeavesNobodyStuck(g, id, user);
      OpenedFacts(g.tracker, user);
    case Exit(id) =>
      ExitKeepsInv(g, id);
    case Reap(user, id) =>
      LeftKeepsSessions(g, user, id);
      LeftArms(g, user, id);
      ReapLeavesNobodyStuck(g, user, id);
    case Fire(i) =>
      FireKeepsInv(g, i);
    case SetStatus(id, status) =>
      SetStatusKeepsInv(g, id, status);
    case _ =>
      QuietStepKeepsInv(g, step);
  }

  // Time and the worker do not touch sessions or the tracker.
  lemma QuietStepKeepsInv(g: Gateway, step: Step)
    requires Inv(g) && Enabled(g, step)
    requires step.Pass? || step.Receive? || step.Tick? || step.Notify?
    ensures Inv(Next(g, step))
  {
    hide TimersMatch, Announced, WellKept, Coalesce;
    assert forall u :: HasHandler(Next(g, step), u) <==> HasHandler(g, u);
  }

  // Every reachable state satisfies the invariant.
  lemma {:induction false} Reachable(run: seq<Gateway>, steps: seq<Step>, n: nat)
    requires IsRun(run, steps) && n < |run|
    ensures Inv(run[n])
    ensures run[n].debounce == run[0].debounce
  {
    if n > 0 {
      Reachable(run, steps, n - 1);
      assert run[n] == Next(run[n - 1], steps[n - 1]);
      StepKeepsInv(run[n - 1], steps[n - 1]);
    } else {
      assert Announced(run[0].tracker);
    }
  }

  lemma {:induction false} SurvivorsShorter(ids: seq<SessionId>, gone: set<SessionId>)
    ensures |Survivors(ids, gone)| <= |ids|
  {
    if ids != [] {
      SurvivorsShorter(ids[..|ids| - 1], gone);
    }
  }

  // ---------------------------------------------------------------------
  // What each step does, in plain terms
  // ---------------------------------------------------------------------

  predicate IsRegistered(g: Gateway, user: UserId, id: SessionId) {
    user in g.registry && id in g.registry[user]
  }

  // Step `step` is the clean-up of a session of the user.
  predicate CleansUp(g: Gateway, step: Step, user: UserId, id: SessionId) {
    (step == Exit(id) && id in g.handlers && g.handlers[id] == user) || step == Reap(user, id)
  }

  // Sessions come by Connect and go by clean-ups, each alone.
  lemma SessionsAfter(g: Gateway, step: Step, user: UserId, id: SessionId)
    requires Inv(g) && Enabled(g, step)
    ensures IsRegistered(Next(g, step), user, id) <==>
              (IsRegistered(g, user, id) && !CleansUp(g, step, user, id)) || step == Connect(id, user)
  {
    hide TimersMatch, Announced, Opened, Closed, Coalesce, Survivors, Fired, StatusSet, Removed;
    match step
    case Exit(i) => RemovedIsGone(g.registry, g.handlers[i], i, user, id);
    case Reap(u, i) => RemovedIsGone(g.registry, u, i, user, id);
    case _ =>
  }

  // A user is listed exactly while one of the user's sessions is.
  lemma ListedMeansRegistered(g: Gateway, user: UserId)
    requires WellKept(g.registry)
    ensures user in g.registry <==> exists id :: IsRegistered(g, user, id)
  {
    assert user in g.registry ==> IsRegistered(g, user, g.registry[user][0]);
  }

  lemma RemovedIsGone(r: Registry, u: UserId, i: SessionId, user: UserId, id: SessionId)
    requires WellKept(r)
    ensures user in Removed(r, u, i) && id in Removed(r, u, i)[user] <==> user in r && id in r[user] && (user != u || id != i)
  {
    RemoveKeeps(r, u, i);
    if u in r {
      SurvivorsMembers(r[u], {i});
    }
  }

  // Connecting makes an offline user online, a timer takes its user offline,
  // a choice is the status, and nothing else touches a status.
  lemma StatusAfter(g: Gateway, step: Step, user: UserId)
    requires Inv(g) && Enabled(g, step)
    ensures StatusOf(Next(g, step).tracker, user)
         == if step.Connect? && step.user == user && StatusOf(g.tracker, user) == Offline then Online
            else if step.Fire? && g.tracker.timers[step.timer].user == user then Offline
            else if step.SetStatus? && g.handlers[step.id] == user && user in g.tracker.state then step.status
            else StatusOf(g.tracker, user)
  {
    hide TimersMatch, Announced, WellKept, Opened, Closed, Coalesce, Removed, Inserted, Fired, StatusSet;
    match step
    case Connect(_, u) => OpenedFacts(g.tracker, u);
    case Exit(id) => ClosedFacts(g.tracker, g.handlers[id], g.now + g.debounce);
    case Reap(u, id) => ClosedFacts(g.tracker, u, g.now + g.debounce);
    case Fire(i) => FiredStatus(g.tracker, i, user);
    case SetStatus(id, status) => ChosenStatus(g.tracker, g.handlers[id], status, user);
    case _ =>
  }

  lemma FiredStatus(t: Tracker, i: nat, user: UserId)
    requires i < |t.timers|
    ensures StatusOf(Fired(t, i), user) == if t.timers[i].user == user then Offline else StatusOf(t, user)
  {
  }

  lemma ChosenStatus(t: Tracker, u: UserId, status: PresenceStatus, user: UserId)
    ensures StatusOf(StatusSet(t, u, status), user) == if u == user && user in t.state then status else StatusOf(t, user)
  {
  }

  // What a step announces: a status exactly when it changes, and every timer that fires.
  lemma AnnouncedBy(g: Gateway, step: Step)
    requires Inv(g) && Enabled(g, step)
    ensures Next(g, step).tracker.sent == g.tracker.sent +
              if step.Connect? && StatusOf(g.tracker, step.user) == Offline then [Update(step.user, Online)]
              else if step.Fire? then [Update(g.tracker.timers[step.timer].user, Offline)]
              else if step.SetStatus? && g.handlers[step.id] in g.tracker.state && StatusOf(g.tracker, g.handlers[step.id]) != step.status
              then [Update(g.handlers[step.id], step.status)]
              else []
  {
    hide TimersMatch, Announced, WellKept, Opened, Closed, Coalesce, Removed, Inserted;
    match step
    case Connect(_, u) => OpenedFacts(g.tracker, u);
    case Exit(id) => ClosedFacts(g.tracker, g.handlers[id], g.now + g.debounce);
    case Reap(u, id) => ClosedFacts(g.tracker, u, g.now + g.debounce);
    case _ =>
  }

  // The deadline of the user's timer, if one is armed.
  function ArmedUntil(t: Tracker, user: UserId): Option<Instant> {
    if user in t.pendingOffline && t.pendingOffline[user] < |t.timers| then Some(t.timers[t.pendingOffline[user]].deadline)
    else None
  }

  // The step is a clean-up after which the user has no session.
  predicate Leaves(g: Gateway, step: Step, user: UserId)
    requires Enabled(g, step)
  {
    && ((step.Exit? && g.handlers[step.id] == user) || (step.Reap? && step.user == user))
    && user !in Next(g, step).registry
  }

  // A clean-up that leaves the user without a session always starts a new
  // debounce, also while one is running; connecting ends it, and so does the
  // timer. Nothing else touches a user's timer.
  lemma TimerAfter(g: Gateway, step: Step, user: UserId)
    requires Inv(g) && Enabled(g, step)
    ensures ArmedUntil(Next(g, step).tracker, user)
         == if Leaves(g, step, user) then Some(g.now + g.debounce)
            else if (step.Connect? && step.user == user) || (step.Fire? && g.tracker.timers[step.timer].user == user) then None
            else ArmedUntil(g.tracker, user)
  {
    hide Announced, Coalesce, Inserted, Survivors;
    match step
    case Connect(_, u) => OpenedTimer(g.tracker, u, user);
    case Exit(id) => LeftTimer(g, g.handlers[id], id, user);
    case Reap(u, id) => LeftTimer(g, u, id, user);
    case Fire(i) => FiredTimer(g.tracker, i, user);
    case _ =>
  }

  lemma OpenedTimer(t: Tracker, u: UserId, user: UserId)
    requires TimersMatch(t)
    ensures ArmedUntil(Opened(t, u), user) == if u == user then None else ArmedUntil(t, user)
  {
  }

  lemma FiredTimer(t: Tracker, i: nat, user: UserId)
    requires TimersMatch(t) && i < |t.timers|
    ensures ArmedUntil(Fired(t, i), user) == if t.timers[i].user == user then None else ArmedUntil(t, user)
  {
  }

  lemma LeftTimer(g: Gateway, u: UserId, id: SessionId, user: UserId)
    requires TimersMatch(g.tracker) && WellKept(g.registry)
    ensures ArmedUntil(Left(g, u, id).tracker, user)
         == if u == user && user !in Left(g, u, id).registry then Some(g.now + g.debounce) else ArmedUntil(g.tracker, user)
  {
    RemoveKeeps(g.registry, u, id);
    ClosedFacts(g.tracker, u, g.now + g.debounce);
    hide Removed, Closed, Survivors;
  }

  // ---------------------------------------------------------------------
  // Presence safety, as statements about runs
  // ---------------------------------------------------------------------

  // At most one task of a user can still take the user offline, it is the
  // one whose handle is stored, and it exists only while there is no session.
  lemma OneTimerPerUser(run: seq<Gateway>, steps: seq<Step>, n: nat, i: nat, j: nat)
    requires IsRun(run, steps) && n < |run|
    requires i < |run[n].tracker.timers| && run[n].tracker.timers[i].phase == Sleeping
    requires j < |run[n].tracker.timers| && run[n].tracker.timers[j].phase == Sleeping
    requires run[n].tracker.timers[i].user == run[n].tracker.timers[j].user
    ensures i == j
    ensures var u := run[n].tracker.timers[i].user;
            u in run[n].tracker.pendingOffline && run[n].tracker.pendingOffline[u] == i && u !in run[n].registry
  {
    Reachable(run, steps, n);
  }

  // A user whose connections have all ended is offline, or about to be.
  lemma NoUserIsStuckOnline(run: seq<Gateway>, steps: seq<Step>, n: nat, user: UserId)
    requires IsRun(run, steps) && n < |run|
    requires !HasHandler(run[n], user) && StatusOf(run[n].tracker, user) != Offline
    ensures user in run[n].tracker.pendingOffline
    ensures var i := run[n].tracker.pendingOffline[user];
            i < |run[n].tracker.timers| && IsArmed(run[n].tracker, user, i)
  {
    Reachable(run, steps, n);
  }

  ghost predicate ChosenOffline(run: seq<Gateway>, steps: seq<Step>, j: nat, user: UserId)
    requires |run| == |steps| + 1 && j < |steps|
  {
    && steps[j].SetStatus? && steps[j].status == Offline
    && steps[j].id in run[j].handlers && run[j].handlers[steps[j].id] == user
    && StatusOf(run[j].tracker, user) != Offline
  }

  // Which steps can make a user offline: the timer, when there is no session,
  // or the user's own choice.
  lemma GoingOffline(g: Gateway, step: Step, user: UserId)
    requires Inv(g) && Enabled(g, step)
    requires StatusOf(g.tracker, user) != Offline && StatusOf(Next(g, step).tracker, user) == Offline
    ensures || (step.Fire? && g.tracker.timers[step.timer].user == user && user !in g.registry)
            || (step.SetStatus? && step.status == Offline && g.handlers[step.id] == user)
  {
    StatusAfter(g, step, user);
    if step.Fire? {
      SleepingIsArmed(g, step.timer);
    }
    hide Next;
  }

  // The first session of a user never finds the user offline.
  lemma ConnectingShows(g: Gateway, step: Step, user: UserId)
    requires Inv(g) && Enabled(g, step)
    requires user !in g.registry && user in Next(g, step).registry
    ensures StatusOf(Next(g, step).tracker, user) != Offline
  {
    StatusAfter(g, step, user);
    hide TimersMatch, Announced, Opened, Closed, Coalesce, Fired, StatusSet, Survivors;
  }

  // One step before a connected user is seen offline.
  lemma BeforeConnectedOffline(g: Gateway, step: Step, user: UserId)
    requires Inv(g) && Enabled(g, step)
    requires user in Next(g, step).registry && StatusOf(Next(g, step).tracker, user) == Offline
    ensures if StatusOf(g.tracker, user) == Offline then user in g.registry
            else step.SetStatus? && step.status == Offline && step.id in g.handlers && g.handlers[step.id] == user
  {
    hide Inv;
    if StatusOf(g.tracker, user) != Offline {
      GoingOffline(g, step, user);
    } else if user !in g.registry {
      ConnectingShows(g, step, user);
    }
  }

  ghost predicate OfflineFrom(run: seq<Gateway>, j: nat, n: nat, user: UserId)
    requires n < |run|
  {
    forall k :: j < k <= n ==> StatusOf(run[k].tracker, user) == Offline
  }

  lemma StepAt(run: seq<Gateway>, steps: seq<Step>, n: nat)
    requires IsRun(run, steps) && 0 < n < |run|
    ensures |run| == |steps| + 1
    ensures Inv(run[n - 1]) && Enabled(run[n - 1], steps[n - 1]) && run[n] == Next(run[n - 1], steps[n - 1])
  {
    Reachable(run, steps, n - 1);
  }

  lemma NobodyAtStart(run: seq<Gateway>, steps: seq<Step>)
    requires IsRun(run, steps)
    ensures |run| == |steps| + 1 && run[0].registry == map[] && run[0].tracker.pendingOffline == map[]
  {
  }

  // A connected user is offline only by an own choice that was the latest
  // change of status.
  lemma {:induction false} ConnectedOfflineIsChosen(run: seq<Gateway>, steps: seq<Step>, n: nat, user: UserId) returns (j: nat)
    requires IsRun(run, steps) && n < |run| == |steps| + 1
    requires user in run[n].registry && StatusOf(run[n].tracker, user) == Offline
    ensures j < n && ChosenOffline(run, steps, j, user) && OfflineFrom(run, j, n, user)
  {
    hide IsRun, Inv, Next, Enabled, StatusOf;
    NobodyAtStart(run, steps);
    StepAt(run, steps, n);
    BeforeConnectedOffline(run[n - 1], steps[n - 1], user);
    if StatusOf(run[n - 1].tracker, user) != Offline {
      j := n - 1;
    } else {
      j := ConnectedOfflineIsChosen(run, steps, n - 1, user);
    }
  }

  // ---------------------------------------------------------------------
  // What a debounced offline certifies
  // ---------------------------------------------------------------------

  ghost predicate AwayThroughout(run: seq<Gateway>, a: nat, n: nat, user: UserId)
    requires n < |run|
  {
    forall k :: a <= k <= n ==> user !in run[k].registry
  }

  // Step k is a clean-up of the user that leaves no session, the last one
  // before state n, and the user has had no session since.
  ghost predicate LeftLast(run: seq<Gateway>, steps: seq<Step>, k: nat, n: nat, user: UserId)
    requires IsRun(run, steps) && k < n < |run|
  {
    && Leaves(run[k], steps[k], user) && AwayThroughout(run, k + 1, n, user)
    && forall j :: k < j < n ==> !Leaves(run[j], steps[j], user)
  }

  // An armed timer: its deadline is one debounce after the last clean-up that
  // left the user without a session, and the user has had none since.
  lemma {:induction false} ArmedSince(run: seq<Gateway>, steps: seq<Step>, n: nat, user: UserId) returns (k: nat)
    requires IsRun(run, steps) && n < |run| && ArmedUntil(run[n].tracker, user).Some?
    ensures k < n && LeftLast(run, steps, k, n, user)
    ensures ArmedUntil(run[n].tracker, user) == Some(run[k].now + run[k].debounce)
  {
    hide IsRun, Inv, Next, Enabled, ArmedUntil, Leaves;
    NobodyAtStart(run, steps);
    NoneArmed(run[0], user);
    StepAt(run, steps, n);
    Reachable(run, steps, n);
    ArmedIsGone(run[n], user);
    TimerAfter(run[n - 1], steps[n - 1], user);
    if Leaves(run[n - 1], steps[n - 1], user) {
      k := n - 1;
    } else {
      k := ArmedSince(run, steps, n - 1, user);
    }
  }

  lemma NoneArmed(g: Gateway, user: UserId)
    requires g.tracker.pendingOffline == map[]
    ensures ArmedUntil(g.tracker, user) == None
  {
  }

  lemma ArmedIsGone(g: Gateway, user: UserId)
    requires Inv(g) && ArmedUntil(g.tracker, user).Some?
    ensures user !in g.registry
  {
  }

  lemma SleepingIsArmed(g: Gateway, i: nat)
    requires TimersMatch(g.tracker) && i < |g.tracker.timers| && g.tracker.timers[i].phase == Sleeping
    ensures ArmedUntil(g.tracker, g.tracker.timers[i].user) == Some(g.tracker.timers[i].deadline)
  {
  }

  // A debounced offline at time T: since the last clean-up that left the user
  // without a session, which was at or before T minus the debounce, the user
  // has had no session.
  lemma OfflineCertifiesAbsence(run: seq<Gateway>, steps: seq<Step>, n: nat, user: UserId) returns (k: nat)
    requires IsRun(run, steps) && n < |steps| && steps[n].Fire?
    requires run[n].tracker.timers[steps[n].timer].user == user
    ensures run[n + 1].tracker.sent == run[n].tracker.sent + [Update(user, Offline)]
    ensures k < n && LeftLast(run, steps, k, n, user) && run[k + 1].now == run[k].now
    ensures run[k].now + run[0].debounce <= run[n].now
  {
    Reachable(run, steps, n);
    SleepingIsArmed(run[n], steps[n].timer);
    k := ArmedSince(run, steps, n, user);
    Reachable(run, steps, k);
    StepAt(run, steps, k + 1);
  }

  // Every clean-up that leaves the user without a session gives a full
  // debounce: no debounced offline of the user comes sooner after it.
  lemma CleanUpGivesAFullDebounce(run: seq<Gateway>, steps: seq<Step>, j: nat, n: nat, user: UserId)
    requires IsRun(run, steps) && j < n < |steps| && Leaves(run[j], steps[j], user)
    requires steps[n].Fire? && run[n].tracker.timers[steps[n].timer].user == user
    ensures run[j].now + run[0].debounce <= run[n].now
  {
    var k := OfflineCertifiesAbsence(run, steps, n, user);
    TimeDoesNotRunBack(run, steps, j, k);
  }

  // ---------------------------------------------------------------------
  // No flicker
  // ---------------------------------------------------------------------

  // Between states m and n every absence of the user is shorter than the debounce.
  ghost predicate ShortAbsences(run: seq<Gateway>, m: nat, n: nat, user: UserId)
    requires n < |run|
  {
    forall a, b :: m <= a <= b <= n && AwayThroughout(run, a, b, user) ==> run[b].now < run[a].now + run[0].debounce
  }

  ghost predicate NoOwnChoice(run: seq<Gateway>, steps: seq<Step>, m: nat, n: nat, user: UserId)
    requires |run| == |steps| + 1 && n <= |steps|
  {
    forall k :: m <= k < n && steps[k].SetStatus? ==>
      steps[k].id in run[k].handlers && run[k].handlers[steps[k].id] != user
  }

  // Steps that announce nothing about a user who is not offline.
  lemma SilentStep(g: Gateway, step: Step, user: UserId)
    requires Inv(g) && Enabled(g, step) && StatusOf(g.tracker, user) != Offline
    requires step.Fire? ==> g.tracker.timers[step.timer].user != user
    requires step.SetStatus? ==> g.handlers[step.id] != user
    ensures StatusOf(Next(g, step).tracker, user) == StatusOf(g.tracker, user)
    ensures StatusesOf(Next(g, step).tracker.sent, user) == StatusesOf(g.tracker.sent, user)
  {
    StatusAfter(g, step, user);
    AnnouncedBy(g, step);
    hide Next, Enabled, Inv, StatusesOf;
    if step.Connect? {
      SilentAppend(g.tracker.sent, Update(step.user, Online), user);
    } else if step.Fire? {
      SilentAppend(g.tracker.sent, Update(g.tracker.timers[step.timer].user, Offline), user);
    } else if step.SetStatus? {
      SilentAppend(g.tracker.sent, Update(g.handlers[step.id], step.status), user);
    }
    assert g.tracker.sent + [] == g.tracker.sent;
  }

  lemma SilentAppend(sent: seq<Update>, update: Update, user: UserId)
    ensures update.user != user ==> StatusesOf(sent + [update], user) == StatusesOf(sent, user)
  {
  }

  lemma NoTimerFires(run: seq<Gateway>, steps: seq<Step>, m: nat, k: nat, user: UserId)
    requires IsRun(run, steps) && m <= k < |steps| && steps[k].Fire?
    requires user in run[m].registry && ShortAbsences(run, m, k, user)
    ensures steps[k].timer < |run[k].tracker.timers| && run[k].tracker.timers[steps[k].timer].user != user
  {
    assert Enabled(run[k], steps[k]);
    if run[k].tracker.timers[steps[k].timer].user == user {
      var j := OfflineCertifiesAbsence(run, steps, k, user);
    }
  }

  // However often the user's connections drop and come back, if every
  // absence is shorter than the debounce and the user sets no status, nothing
  // at all is broadcast about the user and the status stays.
  lemma {:induction false} ShortAbsencesAreSilent(run: seq<Gateway>, steps: seq<Step>, m: nat, n: nat, user: UserId)
    requires IsRun(run, steps) && m <= n < |run|
    requires user in run[m].registry && StatusOf(run[m].tracker, user) != Offline
    requires NoOwnChoice(run, steps, m, n, user) && ShortAbsences(run, m, n, user)
    ensures StatusOf(run[n].tracker, user) == StatusOf(run[m].tracker, user)
    ensures StatusesOf(run[n].tracker.sent, user) == StatusesOf(run[m].tracker.sent, user)
  {
    hide Inv, Next, StatusOf, StatusesOf, Enabled, AwayThroughout;
    if m < n {
      ShortAbsencesAreSilent(run, steps, m, n - 1, user);
      var g, step := run[n - 1], steps[n - 1];
      assert Enabled(g, step) && run[n] == Next(g, step);
      Reachable(run, steps, n - 1);
      if step.Fire? {
        NoTimerFires(run, steps, m, n - 1, user);
      }
      if step.SetStatus? {
        assert step.id in g.handlers && g.handlers[step.id] != user;
      }
      SilentStep(g, step, user);
    }
  }

  lemma {:induction false} TimeDoesNotRunBack(run: seq<Gateway>, steps: seq<Step>, m: nat, n: nat)
    requires IsRun(run, steps) && m <= n < |run|
    ensures run[m].now <= run[n].now
  {
    if m < n {
      TimeDoesNotRunBack(run, steps, m, n - 1);
      assert Enabled(run[n - 1], steps[n - 1]) && run[n] == Next(run[n - 1], steps[n - 1]);
    }
  }

  // A connected user whose connections come and go within one debounce,
  // for example the last one closing and a new one opening in time.
  lemma ReconnectingInTimeIsSilent(run: seq<Gateway>, steps: seq<Step>, m: nat, n: nat, user: UserId)
    requires IsRun(run, steps) && m <= n < |run|
    requires user in run[m].registry && StatusOf(run[m].tracker, user) != Offline
    requires NoOwnChoice(run, steps, m, n, user)
    requires run[n].now < run[m].now + run[0].debounce
    ensures StatusOf(run[n].tracker, user) == StatusOf(run[m].tracker, user)
    ensures StatusesOf(run[n].tracker.sent, user) == StatusesOf(run[m].tracker.sent, user)
  {
    forall a, b | m <= a <= b <= n && AwayThroughout(run, a, b, user)
      ensures run[b].now < run[a].now + run[0].debounce
    {
      TimeDoesNotRunBack(run, steps, m, a);
      TimeDoesNotRunBack(run, steps, b, n);
    }
    ShortAbsencesAreSilent(run, steps, m, n, user);
  }

  // ---------------------------------------------------------------------
  // What observers see in the end
  // ---------------------------------------------------------------------

  function UpdatesIn(log: seq<Processed>): seq<Update> {
    if log == [] then [] else UpdatesIn(log[..|log| - 1]) + [log[|log| - 1].update]
  }

  // The updates that reached the users who share a guild.
  function DeliveredIn(log: seq<Processed>): seq<Update> {
    if log == [] then [] else
      var last := log[|log| - 1];
      DeliveredIn(log[..|log| - 1]) + (if last.delivered then [last.update] else [])
  }

  // Whether the lookup succeeded for the latest flushed update of a user.
  predicate LatestLookupSucceeded(log: seq<Processed>, user: UserId) {
    log != [] ==>
      var last := log[|log| - 1];
      if last.update.user == user then last.delivered else LatestLookupSucceeded(log[..|log| - 1], user)
  }

  lemma {:induction false} LatestIsDelivered(log: seq<Processed>, user: UserId)
    requires LatestLookupSucceeded(log, user)
    ensures LastStatus(DeliveredIn(log), user) == LastStatus(UpdatesIn(log), user)
  {
    if log != [] {
      var front, last := log[..|log| - 1], log[|log| - 1];
      LastStatusConcat(UpdatesIn(front), [last.update], user);
      LastStatusConcat(DeliveredIn(front), [last.update], user);
      LastStatusOne(last.update, user);
      if last.update.user != user {
        LatestIsDelivered(front, user);
        assert DeliveredIn(front) + [] == DeliveredIn(front);
      }
    }
  }

  function Latest(a: Option<PresenceStatus>, b: Option<PresenceStatus>): Option<PresenceStatus> {
    if b.Some? then b else a
  }

  function Queue(g: Gateway): seq<Update> {
    if g.received <= |g.tracker.sent| then g.tracker.sent[g.received..] else []
  }

  // The last status of a user on the way from the tracker to the observers.
  function InPipeline(g: Gateway, user: UserId): Option<PresenceStatus> {
    Latest(Latest(Latest(LastStatus(UpdatesIn(g.processed), user), LastStatus(g.flushing, user)),
                  LastStatus(g.batch, user)),
           LastStatus(Queue(g), user))
  }

  ghost predicate WorkerInv(g: Gateway) {
    && g.received <= |g.tracker.sent|
    && (g.flushing != [] ==> g.batch == [])
    && |g.batch| < EARLY_FLUSH
    && (forall u :: InPipeline(g, u) == LastStatus(g.tracker.sent, u))
  }

  lemma SentGrows(g: Gateway, step: Step) returns (more: seq<Update>)
    requires Enabled(g, step)
    ensures Next(g, step).tracker.sent == g.tracker.sent + more
    ensures step.Receive? || step.Tick? || step.Notify? ==> more == []
  {
    var sent, sent' := g.tracker.sent, Next(g, step).tracker.sent;
    more := if |sent'| > |sent| then [sent'[|sent|]] else [];
  }

  lemma TrackerStepKeepsPipeline(g: Gateway, step: Step, user: UserId)
    requires WorkerInv(g) && Enabled(g, step) && !step.Receive? && !step.Tick? && !step.Notify?
    ensures InPipeline(Next(g, step), user) == LastStatus(Next(g, step).tracker.sent, user)
  {
    var more := SentGrows(g, step);
    WorkerWaits(g, step);
    assert InPipeline(g, user) == LastStatus(g.tracker.sent, user);
    hide Next, Enabled, LastStatus, UpdatesIn, WorkerInv;
    LastStatusConcat(g.tracker.sent, more, user);
    LastStatusConcat(Queue(g), more, user);
    QueueGrows(g, Next(g, step), more);
  }

  lemma WorkerWaits(g: Gateway, step: Step)
    requires Enabled(g, step) && !step.Receive? && !step.Tick? && !step.Notify?
    ensures var g' := Next(g, step);
            g'.received == g.received && g'.batch == g.batch && g'.flushing == g.flushing && g'.processed == g.processed
  {
    hide Closed, Opened, Fired, StatusSet, Removed, Inserted;
  }

  lemma QueueGrows(g: Gateway, g': Gateway, more: seq<Update>)
    requires g.received <= |g.tracker.sent| && g'.received == g.received && g'.tracker.sent == g.tracker.sent + more
    ensures Queue(g') == Queue(g) + more
  {
  }

  lemma CollectedKeeps(g: Gateway, batch: seq<Update>, user: UserId)
    requires g.flushing == []
    ensures var g' := Collected(g, batch);
            && g'.received == g.received + 1 && g'.processed == g.processed && g'.tracker == g.tracker
            && Latest(LastStatus(g'.flushing, user), LastStatus(g'.batch, user)) == LastStatus(batch, user)
  {
  }

  lemma QueueHead(g: Gateway, user: UserId)
    requires g.received < |g.tracker.sent|
    ensures LastStatus(Queue(g), user)
         == Latest(LastStatus([g.tracker.sent[g.received]], user), LastStatus(g.tracker.sent[g.received + 1..], user))
  {
    assert Queue(g) == [g.tracker.sent[g.received]] + g.tracker.sent[g.received + 1..];
    LastStatusConcat([g.tracker.sent[g.received]], g.tracker.sent[g.received + 1..], user);
  }

  lemma CoalescedLatest(batch: seq<Update>, update: Update, user: UserId)
    ensures LastStatus(Coalesce(batch, update), user) == Latest(LastStatus(batch, user), LastStatus([update], user))
  {
    LastStatusCoalesce(batch, update, user);
    LastStatusConcat(batch, [update], user);
  }

  lemma ReceiveKeepsPipeline(g: Gateway, user: UserId)
    requires g.received <= |g.tracker.sent| && Enabled(g, Receive)
    ensures InPipeline(Next(g, Receive), user) == InPipeline(g, user)
  {
    hide Coalesce, Collected, LastStatus, UpdatesIn;
    assert LastStatus([], user) == None by { LastStatusEmpty(user); }
    QueueHead(g, user);
    CoalescedLatest(g.batch, g.tracker.sent[g.received], user);
    CollectedKeeps(g, Coalesce(g.batch, g.tracker.sent[g.received]), user);
  }

  lemma LastStatusEmpty(user: UserId)
    ensures LastStatus([], user) == None
  {
  }

  lemma NotifyKeepsPipeline(g: Gateway, delivered: bool, user: UserId)
    requires WorkerInv(g) && Enabled(g, Notify(delivered))
    ensures InPipeline(Next(g, Notify(delivered)), user) == LastStatus(g.tracker.sent, user)
  {
    var head, rest := g.flushing[0], g.flushing[1..];
    assert InPipeline(g, user) == LastStatus(g.tracker.sent, user);
    assert g.flushing == [head] + rest;
    LastStatusConcat([head], rest, user);
    LastStatusConcat(UpdatesIn(g.processed), [head], user);
  }

  lemma StepKeepsWorkerInv(g: Gateway, step: Step)
    requires WorkerInv(g) && Enabled(g, step)
    ensures WorkerInv(Next(g, step))
  {
    var g' := Next(g, step);
    var more := SentGrows(g, step);
    forall u ensures InPipeline(g', u) == LastStatus(g'.tracker.sent, u) {
      match step
      case Receive => ReceiveKeepsPipeline(g, u); assert InPipeline(g, u) == LastStatus(g.tracker.sent, u);
      case Notify(delivered) => NotifyKeepsPipeline(g, delivered, u);
      case Tick => assert InPipeline(g, u) == LastStatus(g.tracker.sent, u);
      case _ => TrackerStepKeepsPipeline(g, step, u);
    }
  }

  lemma {:induction false} WorkerReachable(run: seq<Gateway>, steps: seq<Step>, n: nat)
    requires IsRun(run, steps) && n < |run|
    ensures WorkerInv(run[n])
  {
    if n > 0 {
      WorkerReachable(run, steps, n - 1);
      assert Enabled(run[n - 1], steps[n - 1]) && run[n] == Next(run[n - 1], steps[n - 1]);
      StepKeepsWorkerInv(run[n - 1], steps[n - 1]);
    }
  }

  // Once nothing is queued, collected or being flushed, whoever follows the
  // delivered notices knows the user's status, if the lookup for the user's
  // latest update succeeded.
  lemma ObserversAgree(run: seq<Gateway>, steps: seq<Step>, n: nat, user: UserId)
    requires IsRun(run, steps) && n < |run|
    requires run[n].received == |run[n].tracker.sent| && run[n].batch == [] && run[n].flushing == []
    requires LatestLookupSucceeded(run[n].processed, user)
    ensures Announcement(DeliveredIn(run[n].processed), user) == StatusOf(run[n].tracker, user)
  {
    var g := run[n];
    WorkerReachable(run, steps, n);
    Reachable(run, steps, n);
    LatestIsDelivered(g.processed, user);
    assert InPipeline(g, user) == LastStatus(g.tracker.sent, user);
    assert StatusOf(g.tracker, user) == Announcement(g.tracker.sent, user);
  }

  // ---------------------------------------------------------------------
  // The machine's worker is the broadcaster's loop, and it gets done
  // ---------------------------------------------------------------------

  // The batch is what the loop has after these inputs.
  ghost predicate Follows(g: Gateway, inputs: seq<Input>) {
    g.batch == KeepLast(After(inputs).since)
  }

  lemma ReceiveFollows(g: Gateway, inputs: seq<Input>)
    requires Enabled(g, Receive) && Follows(g, inputs)
    ensures var p, p' := After(inputs), After(inputs + [Received(g.tracker.sent[g.received])]);
            && Follows(Next(g, Receive), inputs + [Received(g.tracker.sent[g.received])])
            && p'.flushed == (if p'.since == [] then p.flushed + [p.since + [g.tracker.sent[g.received]]] else p.flushed)
            && Next(g, Receive).flushing == (if p'.since == [] then KeepLast(p.since + [g.tracker.sent[g.received]]) else [])
  {
    var update := g.tracker.sent[g.received];
    assert (inputs + [Received(update)])[..|inputs|] == inputs;
    CoalescingKeepsLast(After(inputs).since, update);
    hide Coalesce, KeepLast;
    KeepLastEmpty([]);
  }

  lemma TickFollows(g: Gateway, inputs: seq<Input>)
    requires Enabled(g, Tick) && Follows(g, inputs)
    ensures Follows(Next(g, Tick), inputs + [IntervalTick])
    ensures Next(g, Tick).batch == [] && Next(g, Tick).flushing == KeepLast(After(inputs).since)
  {
    TickFlushes(inputs);
    KeepLastEmpty([]);
  }

  ghost predicate AllDelivered(log: seq<Processed>) {
    forall i :: 0 <= i < |log| ==> log[i].delivered
  }

  predicate IsSettled(g: Gateway) {
    g.received == |g.tracker.sent| && g.batch == [] && g.flushing == []
  }

  lemma Extend(run: seq<Gateway>, steps: seq<Step>, step: Step) returns (run': seq<Gateway>, steps': seq<Step>)
    requires IsRun(run, steps) && Enabled(run[|steps|], step)
    ensures IsRun(run', steps') && |steps'| == |steps| + 1 && run <= run' && steps <= steps'
    ensures run'[|steps'|] == Next(run[|steps|], step)
  {
    run', steps' := run + [Next(run[|steps|], step)], steps + [step];
  }

  // In every reachable state the worker alone, with lookups that succeed, can
  // bring all that is queued, collected or being flushed to the observers.
  lemma {:induction false} WorkerCanSettle(run: seq<Gateway>, steps: seq<Step>)
      returns (run': seq<Gateway>, steps': seq<Step>, more: seq<Processed>)
    requires IsRun(run, steps)
    ensures IsRun(run', steps') && run <= run' && steps <= steps'
    ensures run'[|steps'|].tracker == run[|steps|].tracker && IsSettled(run'[|steps'|])
    ensures run'[|steps'|].processed == run[|steps|].processed + more && AllDelivered(more)
    decreases |Queue(run[|steps|])|, |run[|steps|].batch|, |run[|steps|].flushing|
  {
    var g := run[|steps|];
    WorkerReachable(run, steps, |steps|);
    hide IsRun, InPipeline, LastStatus, Coalesce;
    if g.flushing != [] {
      run', steps' := Extend(run, steps, Notify(true));
      run', steps', more := WorkerCanSettle(run', steps');
      more := [Processed(g.flushing[0], true)] + more;
    } else if g.received < |g.tracker.sent| {
      run', steps' := Extend(run, steps, Receive);
      run', steps', more := WorkerCanSettle(run', steps');
    } else if g.batch != [] {
      run', steps' := Extend(run, steps, Tick);
      run', steps', more := WorkerCanSettle(run', steps');
    } else {
      run', steps', more := run, steps, [];
    }
  }

  // ---------------------------------------------------------------------
  // What a session's notices add up to
  // ---------------------------------------------------------------------

  // lookup(i) is the answer to the member lookup of flushed update number i;
  // whoever shares a guild with the user is in it, once.
  ghost predicate LookupsMatch(log: seq<Processed>, lookup: nat -> Option<seq<UserId>>, observer: UserId, user: UserId) {
    forall i :: 0 <= i < |log| ==>
      && (log[i].delivered <==> lookup(i).Some?)
      && (lookup(i).Some? ==> NoDup(lookup(i).value))
      && (lookup(i).Some? && log[i].update.user == user ==> observer in lookup(i).value)
  }

  lemma {:induction false} NoticesReplay(log: seq<Processed>, lookup: nat -> Option<seq<UserId>>, observer: UserId, user: UserId)
    requires LookupsMatch(log, lookup, observer, user)
    ensures |UpdatesIn(log)| == |log|
    ensures LastSeen(Notices(UpdatesIn(log), lookup, observer), user) == LastStatus(DeliveredIn(log), user)
  {
    if log != [] {
      var front, last := log[..|log| - 1], log[|log| - 1];
      NoticesReplay(front, lookup, observer, user);
      NoticesSnoc(UpdatesIn(front), last.update, lookup, observer);
      LastSeenSnoc(Notices(UpdatesIn(front), lookup, observer), last.update, user);
      LastStatusConcat(DeliveredIn(front), [last.update], user);
      LastStatusOne(last.update, user);
      assert Notices(UpdatesIn(front), lookup, observer) + [] == Notices(UpdatesIn(front), lookup, observer);
      assert DeliveredIn(front) + [] == DeliveredIn(front);
    }
  }

  // Once the worker is done, replaying the notices that the flushes put into
  // the inbox of an observer's session gives the user's status, if the lookup
  // for the user's latest update succeeded.
  lemma SessionsAgree(run: seq<Gateway>, steps: seq<Step>, n: nat, lookup: nat -> Option<seq<UserId>>, observer: UserId, user: UserId)
    requires IsRun(run, steps) && n < |run| && IsSettled(run[n])
    requires LatestLookupSucceeded(run[n].processed, user) && LookupsMatch(run[n].processed, lookup, observer, user)
    ensures StatusOf(run[n].tracker, user)
         == var seen := LastSeen(Notices(UpdatesIn(run[n].processed), lookup, observer), user); if seen.Some? then seen.value else Offline
  {
    ObserversAgree(run, steps, n, user);
    NoticesReplay(run[n].processed, lookup, observer, user);
  }
}
