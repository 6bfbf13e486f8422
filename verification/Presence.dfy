/** The presence tracker: statuses, and the debounced way to offline. */
module Presence {
  import opened Base
  import opened Broadcast

  datatype UserPresence = UserPresence(status: PresenceStatus, sessionCount: nat)

  datatype TimerPhase = Sleeping | Cancelled | Expired

  // A spawned debounce task.
  datatype Timer = Timer(user: UserId, deadline: Instant, phase: TimerPhase)

  // `pendingOffline` names the timer whose cancel handle is stored for a user;
  // `sent` is everything ever handed to the broadcaster, in order.
  datatype Tracker = Tracker(
    state: map<UserId, UserPresence>,
    pendingOffline: map<UserId, nat>,
    timers: seq<Timer>,
    sent: seq<Update>)

  ghost predicate WellFormed(t: Tracker) {
    forall u :: u in t.pendingOffline ==> t.pendingOffline[u] < |t.timers|
  }

  function Notified(timer: Timer): Timer {
    if timer.phase == Sleeping then timer.(phase := Cancelled) else timer
  }

  function Disarmed(t: Tracker, user: UserId): Tracker {
    var armed := user in t.pendingOffline && t.pendingOffline[user] < |t.timers|;
    t.(pendingOffline := t.pendingOffline - {user},
       timers := if armed then t.timers[t.pendingOffline[user] := Notified(t.timers[t.pendingOffline[user]])] else t.timers)
  }

  function Opened(t: Tracker, user: UserId): Tracker {
    var d := Disarmed(t, user);
    var known := user in d.state;
    var count := if known then d.state[user].sessionCount + 1 else 1;
    if known && d.state[user].status != Offline
    then d.(state := d.state[user := d.state[user].(sessionCount := count)])
    else d.(state := d.state[user := UserPresence(Online, count)], sent := d.sent + [Update(user, Online)])
  }

  function Closed(t: Tracker, user: UserId, deadline: Instant): Tracker {
    var d := Disarmed(t, user);
    d.(pendingOffline := d.pendingOffline[user := |d.timers|], timers := d.timers + [Timer(user, deadline, Sleeping)])
  }

  function Fired(t: Tracker, id: nat): Tracker
    requires id < |t.timers|
  {
    var user := t.timers[id].user;
    t.(state := if user in t.state then t.state[user := UserPresence(Offline, 0)] else t.state,
       pendingOffline := t.pendingOffline - {user},
       timers := t.timers[id := t.timers[id].(phase := Expired)],
       sent := t.sent + [Update(user, Offline)])
  }

  function StatusSet(t: Tracker, user: UserId, status: PresenceStatus): Tracker {
    if user in t.state && t.state[user].status != status
    then t.(state := t.state[user := t.state[user].(status := status)], sent := t.sent + [Update(user, status)])
    else t
  }

  function StatusOf(t: Tracker, user: UserId): PresenceStatus {
    if user in t.state then t.state[user].status else Offline
  }

  // ---------------------------------------------------------------------
  // What the operations keep
  // ---------------------------------------------------------------------

  // The stored handles are those of the sleeping tasks: a user has at most
  // one, and no task sleeps without its handle.
  ghost predicate TimersMatch(t: Tracker) {
    && (forall u :: u in t.pendingOffline ==> t.pendingOffline[u] < |t.timers| && IsArmed(t, u, t.pendingOffline[u]))
    && (forall i :: 0 <= i < |t.timers| && t.timers[i].phase == Sleeping ==>
          t.timers[i].user in t.pendingOffline && t.pendingOffline[t.timers[i].user] == i)
  }

  predicate IsArmed(t: Tracker, user: UserId, id: nat)
    requires id < |t.timers|
  {
    t.timers[id].user == user && t.timers[id].phase == Sleeping
  }

  lemma DisarmedFacts(t: Tracker, user: UserId)
    requires TimersMatch(t)
    ensures TimersMatch(Disarmed(t, user))
  {
  }

  // Observers following the updates know everyone's status.
  ghost predicate Announced(t: Tracker) {
    forall u :: StatusOf(t, u) == Announcement(t.sent, u)
  }

  function Announcement(log: seq<Update>, user: UserId): PresenceStatus {
    var last := LastStatus(log, user);
    if last == None then Offline else last.value
  }

  lemma AnnouncementSnoc(log: seq<Update>, update: Update, user: UserId)
    ensures Announcement(log + [update], user) == if update.user == user then update.status else Announcement(log, user)
  {
  }

  lemma OpenedFacts(t: Tracker, user: UserId)
    requires TimersMatch(t) && Announced(t)
    ensures var t' := Opened(t, user);
            && TimersMatch(t') && Announced(t')
            && t'.pendingOffline == t.pendingOffline - {user}
            && t'.state.Keys == t.state.Keys + {user}
            && (forall u :: u in t.state && u != user ==> t'.state[u] == t.state[u])
            && t'.state[user].sessionCount == (if user in t.state then t.state[user].sessionCount else 0) + 1
            && t'.state[user].status == (if StatusOf(t, user) == Offline then Online else StatusOf(t, user))
            && t'.sent == (if StatusOf(t, user) == Offline then t.sent + [Update(user, Online)] else t.sent)
  {
    DisarmedFacts(t, user);
    forall u ensures StatusOf(Opened(t, user), u) == Announcement(Opened(t, user).sent, u) {
      AnnouncementSnoc(t.sent, Update(user, Online), u);
      assert StatusOf(t, u) == Announcement(t.sent, u);
    }
  }

  lemma ClosedFacts(t: Tracker, user: UserId, deadline: Instant)
    requires TimersMatch(t)
    ensures var t' := Closed(t, user, deadline);
            && TimersMatch(t') && |t'.timers| == |t.timers| + 1
            && t'.pendingOffline.Keys == t.pendingOffline.Keys + {user}
            && t'.state == t.state && t'.sent == t.sent
            && t'.timers[t'.pendingOffline[user]].deadline == deadline
            && (forall u :: u in t.pendingOffline && u != user ==>
                  && t'.pendingOffline[u] == t.pendingOffline[u]
                  && t'.timers[t'.pendingOffline[u]] == t.timers[t.pendingOffline[u]])
  {
    DisarmedFacts(t, user);
  }

  // Whether or not a timer was armed before, the user's timer is a new one.
  lemma ClosedRestarts(t: Tracker, user: UserId, deadline: Instant)
    ensures var t' := Closed(t, user, deadline);
            && user in t'.pendingOffline && t'.pendingOffline[user] < |t'.timers|
            && t'.timers[t'.pendingOffline[user]] == Timer(user, deadline, Sleeping)
  {
  }

  lemma FiredFacts(t: Tracker, id: nat)
    requires TimersMatch(t) && Announced(t) && id < |t.timers| && t.timers[id].phase == Sleeping
    ensures var t', user := Fired(t, id), t.timers[id].user;
            && TimersMatch(t') && Announced(t')
            && t'.pendingOffline == t.pendingOffline - {user}
            && t'.state.Keys == t.state.Keys
            && StatusOf(t', user) == Offline
            && (user in t.state ==> t'.state[user].sessionCount == 0)
            && (forall u :: u in t.state && u != user ==> t'.state[u] == t.state[u])
            && t'.sent == t.sent + [Update(user, Offline)]
            && (forall u :: u in t'.pendingOffline ==> t'.timers[t'.pendingOffline[u]] == t.timers[t.pendingOffline[u]])
  {
    forall u ensures StatusOf(Fired(t, id), u) == Announcement(Fired(t, id).sent, u) {
      AnnouncementSnoc(t.sent, Update(t.timers[id].user, Offline), u);
      assert StatusOf(t, u) == Announcement(t.sent, u);
    }
  }

  lemma StatusSetFacts(t: Tracker, user: UserId, status: PresenceStatus)
    requires Announced(t)
    ensures var t' := StatusSet(t, user, status);
            && Announced(t')
            && t'.pendingOffline == t.pendingOffline && t'.timers == t.timers
            && t'.state.Keys == t.state.Keys
            && (forall u :: u in t.state ==> t'.state[u].sessionCount == t.state[u].sessionCount)
            && (forall u :: u in t.state && u != user ==> t'.state[u] == t.state[u])
            && (user in t.state ==> t'.state[user].status == status)
            && t'.sent == if user in t.state && t.state[user].status != status then t.sent + [Update(user, status)] else t.sent
  {
    forall u ensures StatusOf(StatusSet(t, user, status), u) == Announcement(StatusSet(t, user, status).sent, u) {
      AnnouncementSnoc(t.sent, Update(user, status), u);
      assert StatusOf(t, u) == Announcement(t.sent, u);
    }
  }

  // ---------------------------------------------------------------------
  // The objects
  // ---------------------------------------------------------------------

  class PresenceBroadcaster {
    var sent: seq<Update>

    constructor ()
      ensures sent == []
    {
      sent := [];
    }

    method Broadcast(user: UserId, status: PresenceStatus)
      modifies this
      ensures sent == old(sent) + [Update(user, status)]
    {
      sent := sent + [Update(user, status)];
    }
  }

  class PresenceTracker {
    var state: map<UserId, UserPresence>
    var pendingOffline: map<UserId, nat>
    var timers: seq<Timer>
    const broadcaster: PresenceBroadcaster
    const offlineDebounce: real

    ghost function Model(): Tracker
      reads this, broadcaster
    {
      Tracker(state, pendingOffline, timers, broadcaster.sent)
    }

    constructor (broadcaster: PresenceBroadcaster, offlineDebounce: real)
      ensures this.broadcaster == broadcaster && this.offlineDebounce == offlineDebounce
      ensures Model() == Tracker(map[], map[], [], broadcaster.sent)
      ensures WellFormed(Model())
    {
      this.broadcaster := broadcaster;
      this.offlineDebounce := offlineDebounce;
      state, pendingOffline, timers := map[], map[], [];
    }

    // Removes a stored cancel handle and notifies its task.
    method Disarm(user: UserId)
      requires WellFormed(Model())
      modifies this
      ensures WellFormed(Model()) && Model() == Disarmed(old(Model()), user)
    {
      if user in pendingOffline {
        var id := pendingOffline[user];
        pendingOffline := pendingOffline - {user};
        timers := timers[id := Notified(timers[id])];
      }
      assert Model().pendingOffline == old(pendingOffline) - {user};
    }

    method OnSessionOpen(user: UserId)
      requires WellFormed(Model())
      modifies this, broadcaster
      ensures WellFormed(Model()) && Model() == Opened(old(Model()), user)
    {
      Disarm(user);
      var changed := false;
      if user in state {
        var p := state[user];
        p := p.(sessionCount := p.sessionCount + 1);
        if p.status == Offline {
          p := p.(status := Online);
          changed := true;
        }
        state := state[user := p];
      } else {
        changed := true;
        state := state[user := UserPresence(Online, 1)];
      }
      if changed {
        broadcaster.Broadcast(user, Online);
      }
    }

    method OnAllSessionsClosed(user: UserId, now: Instant)
      requires WellFormed(Model())
      modifies this
      ensures WellFormed(Model()) && Model() == Closed(old(Model()), user, now + offlineDebounce)
    {
      Disarm(user);
      pendingOffline := pendingOffline[user := |timers|];
      timers := timers + [Timer(user, now + offlineDebounce, Sleeping)];
    }

    // The sleep branch of a debounce task, which runs at most once.
    method Fire(id: nat)
      requires WellFormed(Model()) && id < |timers| && timers[id].phase != Expired
      modifies this, broadcaster
      ensures WellFormed(Model()) && Model() == Fired(old(Model()), id)
    {
      var user := timers[id].user;
      if user in state {
        state := state[user := UserPresence(Offline, 0)];
      }
      pendingOffline := pendingOffline - {user};
      timers := timers[id := timers[id].(phase := Expired)];
      broadcaster.Broadcast(user, Offline);
    }

    method SetStatus(user: UserId, status: PresenceStatus)
      requires WellFormed(Model())
      modifies this, broadcaster
      ensures WellFormed(Model()) && Model() == StatusSet(old(Model()), user, status)
    {
      var changed := false;
      if user in state {
        if state[user].status != status {
          state := state[user := state[user].(status := status)];
          changed := true;
        }
      }
      if changed {
        broadcaster.Broadcast(user, status);
      }
    }

    // Whoever follows the announcements knows what this returns.
    function GetStatus(user: UserId): (status: PresenceStatus)
      reads this, broadcaster
      ensures Announced(Model()) ==> status == Announcement(broadcaster.sent, user)
    {
      if user in state then state[user].status else Offline
    }
  }
}
