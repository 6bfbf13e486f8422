/** Sessions, and the store that holds those of one gateway node. */
module Sessions {
  import opened Base
  import opened Registry

  class Session {
    const sessionId: SessionId
    const userId: UserId
    var lastHeartbeat: nat       // seconds of wall-clock time
    var inbox: seq<ServerEvent>  // what was put into the session's pipe
    var open: bool               // whether the pipe still has a reader

    constructor (sessionId: SessionId, userId: UserId, now: nat)
      ensures this.sessionId == sessionId && this.userId == userId
      ensures lastHeartbeat == now && inbox == [] && open
    {
      this.sessionId := sessionId;
      this.userId := userId;
      lastHeartbeat := now;
      inbox := [];
      open := true;
    }

    method Touch(now: nat)
      modifies this`lastHeartbeat
      ensures lastHeartbeat == now
    {
      lastHeartbeat := now;
    }

    // Zero if the clock was set back.
    function SecondsSinceHeartbeat(now: nat): (age: nat)
      reads this
      ensures age > 0 ==> lastHeartbeat + age == now
      ensures age == 0 <==> now <= lastHeartbeat
    {
      if now < lastHeartbeat then 0 else now - lastHeartbeat
    }

    method Send(event: ServerEvent) returns (ok: bool)
      modifies this`inbox
      ensures ok == open
      ensures inbox == if open then old(inbox) + [event] else old(inbox)
    {
      ok := open;
      if ok {
        inbox := inbox + [event];
      }
    }
  }

  function IdsOf(list: seq<Session>): (ids: seq<SessionId>)
    ensures |ids| == |list|
    ensures forall i :: 0 <= i < |list| ==> ids[i] == list[i].sessionId
  {
    seq(|list|, i requires 0 <= i < |list| => list[i].sessionId)
  }

  // The vector after a retain that drops one session id.
  function Dropped(list: seq<Session>, id: SessionId): (rest: seq<Session>)
    ensures forall s :: s in rest ==> s in list
  {
    if list == [] then [] else
      var last := |list| - 1;
      Dropped(list[..last], id) + (if list[last].sessionId == id then [] else [list[last]])
  }

  lemma {:induction false} DroppedIds(list: seq<Session>, id: SessionId)
    ensures IdsOf(Dropped(list, id)) == Survivors(IdsOf(list), {id})
    ensures id in IdsOf(list) <==> |Dropped(list, id)| < |list|
    ensures |Dropped(list, id)| <= |list|
  {
    if list != [] {
      var front, last := list[..|list| - 1], list[|list| - 1];
      DroppedIds(front, id);
      assert IdsOf(list) == IdsOf(front) + [last.sessionId];
      assert IdsOf(list)[..|list| - 1] == IdsOf(front);
      assert IdsOf(Dropped(front, id) + [last]) == IdsOf(Dropped(front, id)) + [last.sessionId];
    }
  }

  function OpenCount(list: seq<Session>): nat
    reads (set s | s in list)`open
  {
    if list == [] then 0 else OpenCount(list[..|list| - 1]) + (if list[|list| - 1].open then 1 else 0)
  }

  // It counts the open ones.
  lemma {:induction false} OpenCountIsSize(list: seq<Session>)
    requires NoDup(list)
    ensures OpenCount(list) == |set s | s in list && s.open|
  {
    if list != [] {
      var front, last := list[..|list| - 1], list[|list| - 1];
      assert list == front + [last];
      NoDupSnoc(front, last);
      OpenCountIsSize(front);
      var before, after := set s | s in front && s.open, set s | s in list && s.open;
      assert after == if last.open then before + {last} else before;
    }
  }

  // The open sessions of a list of users, counted once for each listing.
  function Reached(open: map<UserId, nat>, users: seq<UserId>): nat {
    if users == [] then 0 else
      var last := users[|users| - 1];
      Reached(open, users[..|users| - 1]) + (if last in open then open[last] else 0)
  }

  // It adds up over the list, user by user.
  lemma {:induction false} ReachedAddsUp(open: map<UserId, nat>, a: seq<UserId>, b: seq<UserId>, user: UserId)
    ensures Reached(open, a + b) == Reached(open, a) + Reached(open, b)
    ensures Reached(open, [user]) == if user in open then open[user] else 0
  {
    if b == [] {
      assert a + b == a;
    } else {
      assert (a + b)[..|a + b| - 1] == a + b[..|b| - 1];
      ReachedAddsUp(open, a, b[..|b| - 1], user);
    }
  }

  // Pushes an event into every session of one list.
  method Deliver(list: seq<Session>, event: ServerEvent) returns (sent: nat)
    requires NoDup(list)
    modifies (set s | s in list)`inbox
    ensures forall s :: s in list ==> s.inbox == if s.open then old(s.inbox) + [event] else old(s.inbox)
    ensures sent == OpenCount(list)
  {
    sent := 0;
    for i := 0 to |list|
      invariant forall j :: 0 <= j < i ==> list[j].inbox == if list[j].open then old(list[j].inbox) + [event] else old(list[j].inbox)
      invariant forall j :: i <= j < |list| ==> list[j].inbox == old(list[j].inbox)
      invariant sent == OpenCount(list[..i])
    {
      assert list[..i + 1][..i] == list[..i];
      var ok := list[i].Send(event);
      if ok {
        sent := sent + 1;
      }
    }
    assert list[..|list|] == list;
  }

  predicate IsStale(s: Session, now: nat, timeoutSecs: nat): (stale: bool)
    reads s
    ensures stale <==> now > s.lastHeartbeat + timeoutSecs
  {
    s.SecondsSinceHeartbeat(now) > timeoutSecs
  }

  // The stale sessions of one user's list.
  function StaleOf(user: UserId, list: seq<Session>, now: nat, timeoutSecs: nat): seq<(UserId, SessionId)>
    reads list
  {
    if list == [] then [] else
      var last := |list| - 1;
      StaleOf(user, list[..last], now, timeoutSecs)
      + (if IsStale(list[last], now, timeoutSecs) then [(user, list[last].sessionId)] else [])
  }

  lemma {:induction false} StaleOfMembers(user: UserId, list: seq<Session>, now: nat, timeoutSecs: nat)
    ensures forall u, id :: (u, id) in StaleOf(user, list, now, timeoutSecs) <==>
              u == user && exists s :: s in list && s.sessionId == id && IsStale(s, now, timeoutSecs)
    ensures NoDup(IdsOf(list)) ==> NoDup(StaleOf(user, list, now, timeoutSecs))
  {
    if list != [] {
      var front, last := list[..|list| - 1], list[|list| - 1];
      StaleOfMembers(user, front, now, timeoutSecs);
      assert list == front + [last];
      assert IdsOf(list) == IdsOf(front) + [last.sessionId];
      NoDupSnoc(IdsOf(front), last.sessionId);
      NoDupSnoc(StaleOf(user, front, now, timeoutSecs), (user, last.sessionId));
      if NoDup(IdsOf(list)) {
        assert forall s :: s in front ==> s.sessionId in IdsOf(front);
      }
    }
  }

  // The ids of the sessions of every user.
  function RegistryOf(sessions: map<UserId, seq<Session>>): (r: Registry)
    ensures r.Keys == sessions.Keys
  {
    map u | u in sessions :: IdsOf(sessions[u])
  }

  ghost function SessionsIn(sessions: map<UserId, seq<Session>>): set<Session> {
    set u, s | u in sessions && s in sessions[u] :: s
  }

  function WithSession(sessions: map<UserId, seq<Session>>, user: UserId, session: Session): map<UserId, seq<Session>> {
    sessions[user := (if user in sessions then sessions[user] else []) + [session]]
  }

  lemma RegistryWithSession(sessions: map<UserId, seq<Session>>, user: UserId, session: Session)
    ensures RegistryOf(WithSession(sessions, user, session)) == Inserted(RegistryOf(sessions), user, session.sessionId)
  {
    var list := if user in sessions then sessions[user] else [];
    assert IdsOf(list + [session]) == IdsOf(list) + [session.sessionId];
  }

  lemma SessionsWithSession(sessions: map<UserId, seq<Session>>, user: UserId, session: Session)
    ensures SessionsIn(WithSession(sessions, user, session)) == SessionsIn(sessions) + {session}
  {
    var sessions' := WithSession(sessions, user, session);
    assert forall u :: u in sessions ==> u in sessions' && forall s :: s in sessions[u] ==> s in sessions'[u];
    assert session in sessions'[user];
  }

  function WithoutSession(sessions: map<UserId, seq<Session>>, user: UserId, id: SessionId): map<UserId, seq<Session>>
    requires user in sessions
  {
    var rest := Dropped(sessions[user], id);
    if rest == [] then sessions - {user} else sessions[user := rest]
  }

  lemma RegistryWithoutSession(sessions: map<UserId, seq<Session>>, user: UserId, id: SessionId)
    requires user in sessions
    ensures RegistryOf(WithoutSession(sessions, user, id)) == Removed(RegistryOf(sessions), user, id)
    ensures id in RegistryOf(sessions)[user] <==> |Dropped(sessions[user], id)| < |sessions[user]|
  {
    DroppedIds(sessions[user], id);
    var rest := Dropped(sessions[user], id);
    assert IdsOf(rest) == [] <==> rest == [];
    hide Dropped, Survivors;
  }

  lemma SessionsWithoutSession(sessions: map<UserId, seq<Session>>, user: UserId, id: SessionId)
    requires user in sessions
    ensures SessionsIn(WithoutSession(sessions, user, id)) <= SessionsIn(sessions)
    ensures forall u, s :: u in WithoutSession(sessions, user, id) && s in WithoutSession(sessions, user, id)[u] ==>
              u in sessions && s in sessions[u]
  {
  }

  class SessionStore {
    var sessions: map<UserId, seq<Session>>
    var totalConnections: nat

    ghost function Ids(): (r: Registry)
      reads this
      ensures r.Keys == sessions.Keys
    {
      RegistryOf(sessions)
    }

    ghost function All(): set<Session>
      reads this
    {
      SessionsIn(sessions)
    }

    ghost predicate Valid()
      reads this
    {
      && WellKept(Ids())
      && totalConnections == |Registered(Ids())|
      && (forall u, s :: u in sessions && s in sessions[u] ==> s.userId == u)
    }

    ghost function StaleIds(now: nat, timeoutSecs: nat): set<SessionId>
      reads this, All()
    {
      set s | s in All() && IsStale(s, now, timeoutSecs) :: s.sessionId
    }

    constructor ()
      ensures Valid() && sessions == map[] && totalConnections == 0
    {
      sessions := map[];
      totalConnections := 0;
      new;
      assert Registered(Ids()) == {};
    }

    // Session ids are random UUIDs, taken to be new.
    method Insert(session: Session) returns (id: SessionId)
      requires Valid() && session.sessionId !in Registered(Ids())
      modifies this
      ensures Valid()
      ensures id == session.sessionId && Ids() == Inserted(old(Ids()), session.userId, session.sessionId)
      ensures All() == old(All()) + {session}
      ensures totalConnections == old(totalConnections) + 1
    {
      hide WellKept, Registered, OpenCount, RegistryOf, SessionsIn, Inserted;
      id := session.sessionId;
      var user := session.userId;
      InsertKeeps(Ids(), user, id);
      RegistryWithSession(sessions, user, session);
      SessionsWithSession(sessions, user, session);
      sessions := sessions[user := (if user in sessions then sessions[user] else []) + [session]];
      totalConnections := totalConnections + 1;
    }

    method Remove(user: UserId, id: SessionId) returns (removed: bool)
      requires Valid()
      modifies this
      ensures Valid()
      ensures Ids() == Removed(old(Ids()), user, id)
      ensures removed <==> user in old(Ids()) && id in old(Ids())[user]
      ensures totalConnections == if removed then old(totalConnections) - 1 else old(totalConnections)
      ensures All() <= old(All())
    {
      hide WellKept, Registered, Survivors, Dropped, RegistryOf, SessionsIn, Removed;
      removed := false;
      RemoveKeeps(Ids(), user, id);
      if user in sessions {
        RegistryWithoutSession(sessions, user, id);
        SessionsWithoutSession(sessions, user, id);
        var rest := Dropped(sessions[user], id);
        removed := |rest| < |sessions[user]|;
        if removed {
          InRegistry(Ids(), user, id);
        }
        if rest == [] {
          sessions := sessions - {user};
        } else {
          sessions := sessions[user := rest];
        }
      } else {
        RemovedStranger(Ids(), user, id);
      }
      if removed {
        totalConnections := totalConnections - 1;
      }
    }

    static lemma RemovedStranger(r: Registry, user: UserId, id: SessionId)
      requires user !in r
      ensures Removed(r, user, id) == r
    {
    }

    static lemma InRegistry(r: Registry, user: UserId, id: SessionId)
      requires user in r && id in r[user]
      ensures id in Registered(r)
    {
    }

    function IsConnected(user: UserId): bool
      reads this
    {
      user in sessions && sessions[user] != []
    }

    method SendToUser(user: UserId, event: ServerEvent) returns (sent: nat)
      requires Valid()
      modifies All()`inbox
      ensures forall s :: s in All() ==>
                s.inbox == if s.open then Received(old(s.inbox), event, [user], s.userId) else old(s.inbox)
      ensures sent == if user in sessions then OpenCount(sessions[user]) else 0
    {
      ReceivedByOne(event, user);
      sent := 0;
      if user in sessions {
        DistinctSessions(user);
        sent := Deliver(sessions[user], event);
      }
    }

    lemma DistinctSessions(user: UserId)
      requires Valid() && user in sessions
      ensures NoDup(sessions[user])
    {
    }

    // The number of open sessions of each registered user.
    ghost function OpenSessions(): map<UserId, nat>
      reads this, All()`open
    {
      map u | u in sessions :: OpenCount(sessions[u])
    }

    // Every session gets the event once for each time its user is listed.
    method SendToUsers(users: seq<UserId>, event: ServerEvent) returns (sent: nat)
      requires Valid()
      modifies All()`inbox
      ensures forall s :: s in All() ==>
                s.inbox == if s.open then Received(old(s.inbox), event, users, s.userId) else old(s.inbox)
      ensures sent == Reached(OpenSessions(), users)
    {
      hide SessionStore.Valid, OpenCount, Received;
      ReceivedNothing(event);
      ghost var open := OpenSessions();
      sent := 0;
      for i := 0 to |users|
        invariant OpenSessions() == open && sent == Reached(open, users[..i])
        invariant forall s :: s in All() ==>
                    s.inbox == if s.open then Received(old(s.inbox), event, users[..i], s.userId) else old(s.inbox)
      {
        assert users[..i + 1] == users[..i] + [users[i]] && users[..i + 1][..i] == users[..i];
        ReceivedSnoc(event, users[..i], users[i]);
        var n := SendToUser(users[i], event);
        sent := sent + n;
      }
      assert users[..|users|] == users;
    }

    // The users come in no particular order.
    method FindStaleSessions(now: nat, timeoutSecs: nat) returns (stale: seq<(UserId, SessionId)>)
      requires Valid()
      ensures NoDup(stale)
      ensures forall u, id :: (u, id) in stale <==> u in Ids() && id in Ids()[u] && id in StaleIds(now, timeoutSecs)
    {
      stale := [];
      var left := sessions.Keys;
      while left != {}
        invariant left <= sessions.Keys
        invariant NoDup(stale)
        invariant forall u, id :: (u, id) in stale <==>
                    u in sessions && u !in left && exists s :: s in sessions[u] && s.sessionId == id && IsStale(s, now, timeoutSecs)
        decreases left
      {
        var user :| user in left;
        left := left - {user};
        var found := StaleIn(user, now, timeoutSecs);
        assert forall x :: x in stale ==> x == (x.0, x.1) && x.0 != user;
        assert forall x :: x in found ==> x == (x.0, x.1) && x.0 == user;
        NoDupConcat(stale, found);
        stale := stale + found;
      }
      forall u, id
        ensures (u, id) in stale <==> u in Ids() && id in Ids()[u] && id in StaleIds(now, timeoutSecs)
      {
        StaleIdsOfUser(u, id, now, timeoutSecs);
      }
    }

    method StaleIn(user: UserId, now: nat, timeoutSecs: nat) returns (stale: seq<(UserId, SessionId)>)
      requires Valid() && user in sessions
      ensures NoDup(stale)
      ensures forall u, id :: (u, id) in stale <==>
                u == user && exists s :: s in sessions[user] && s.sessionId == id && IsStale(s, now, timeoutSecs)
    {
      var list := sessions[user];
      stale := [];
      for i := 0 to |list|
        invariant stale == StaleOf(user, list[..i], now, timeoutSecs)
      {
        assert list[..i + 1][..i] == list[..i];
        if list[i].SecondsSinceHeartbeat(now) > timeoutSecs {
          stale := stale + [(user, list[i].sessionId)];
        }
      }
      assert list[..|list|] == list;
      StaleOfMembers(user, list, now, timeoutSecs);
      assert NoDup(Ids()[user]);
    }

    lemma StaleIdsOfUser(user: UserId, id: SessionId, now: nat, timeoutSecs: nat)
      requires Valid()
      ensures user in Ids() && id in Ids()[user] && id in StaleIds(now, timeoutSecs) <==>
                user in sessions && exists s :: s in sessions[user] && s.sessionId == id && IsStale(s, now, timeoutSecs)
    {
    }
  }
}
