/** A connection's handler on the node's shared objects, as steps of the node's state machine. */
module Handler {
  import opened Base
  import opened Registry
  import opened Sessions
  import opened Presence
  import opened Router
  import Positions = ReadState
  import ReadStates = ReadStateCache
  import MemberCache
  import Heartbeat
  import Lifecycle

  datatype ClientMessage =
    | SendMessage(channel: ChannelId)
    | AckMessage(channel: ChannelId, message: MessageId)
    | UpdatePresence(status: PresenceStatus)
    | Heartbeat(seqNo: nat)
    | StartTyping(channel: ChannelId)

  // What arrives on a socket; the message is nothing if it cannot be parsed.
  datatype Frame = Text(message: Option<ClientMessage>) | Ping | Close | Failure | Other

  // What the database, the clock and Redis answer while one message is handled.
  datatype Answers = Answers(stored: Option<MessageId>, now: Instant, fetched: Option<seq<UserId>>, insertedAt: Instant, redisOk: bool)

  // The list without one user.
  function Others(users: seq<UserId>, user: UserId): seq<UserId> {
    Absent({user}, users)
  }

  // The event that a message makes, and whom it is pushed to; with nobody to
  // push to the event does not matter.
  function Push(message: ClientMessage, user: UserId, stored: Option<MessageId>, members: Option<seq<UserId>>): (ServerEvent, seq<UserId>) {
    match message
    case SendMessage(channel) =>
      if stored.Some? && members.Some? then (MessageCreate(stored.value, channel, user), members.value) else (HeartbeatAck(0), [])
    case Heartbeat(seqNo) => (HeartbeatAck(seqNo), [user])
    case StartTyping(channel) =>
      (TypingStart(user, channel), if members.Some? then Others(members.value, user) else [])
    case _ => (HeartbeatAck(0), [])
  }

  // A sent message goes to all members if it was stored and they were found, a
  // heartbeat is answered to its user alone, and typing is shown once to each
  // other member.
  lemma PushFacts(user: UserId, channel: ChannelId, seqNo: nat, id: MessageId, members: seq<UserId>)
    requires NoDup(members)
    ensures Push(SendMessage(channel), user, Some(id), Some(members)) == (MessageCreate(id, channel, user), members)
    ensures Push(SendMessage(channel), user, None, Some(members)).1 == [] && Push(SendMessage(channel), user, Some(id), None).1 == []
    ensures Push(Heartbeat(seqNo), user, None, None) == (HeartbeatAck(seqNo), [user])
    ensures Push(StartTyping(channel), user, None, None).1 == []
    ensures var (event, others) := Push(StartTyping(channel), user, None, Some(members));
            && event == TypingStart(user, channel) && NoDup(others)
            && forall u :: u in others <==> u in members && u != user
    ensures forall message: ClientMessage :: message.AckMessage? || message.UpdatePresence? ==> Push(message, user, None, None).1 == []
  {
    AbsentMembers({user}, members);
  }

  class AppState {
    const sessions: SessionStore
    const presence: PresenceTracker
    const router: MessageRouter
    const readStates: ReadStates.ReadStateCache

    ghost predicate Valid()
      reads this, sessions, sessions.All(), presence, presence.broadcaster
    {
      && router.sessions == sessions
      && sessions.Valid()
      && WellFormed(presence.Model())
    }

    // The shared objects are in the given state of the node's state machine.
    ghost predicate Matches(g: Lifecycle.Gateway)
      reads this, sessions, presence, presence.broadcaster
    {
      Heartbeat.Matches(g, sessions, presence)
    }

    constructor (sessions: SessionStore, presence: PresenceTracker, router: MessageRouter, readStates: ReadStates.ReadStateCache)
      ensures this.sessions == sessions && this.presence == presence && this.router == router && this.readStates == readStates
    {
      this.sessions := sessions;
      this.presence := presence;
      this.router := router;
      this.readStates := readStates;
    }

    // A user has authenticated.
    method Connect(session: Session, ghost g: Lifecycle.Gateway)
      requires Valid() && Matches(g) && Lifecycle.Inv(g)
      requires session.sessionId !in g.handlers
      modifies sessions, presence, presence.broadcaster
      ensures Valid() && Matches(Lifecycle.Next(g, Lifecycle.Connect(session.sessionId, session.userId)))
      ensures sessions.Ids() == Inserted(old(sessions.Ids()), session.userId, session.sessionId)
      ensures presence.Model() == Opened(old(presence.Model()), session.userId)
      ensures sessions.All() == old(sessions.All()) + {session}
    {
      assert session.sessionId !in Registered(sessions.Ids());
      hide WellKept, Registered, Inserted, Opened, WellFormed;
      var id := sessions.Insert(session);
      presence.OnSessionOpen(session.userId);
    }

    // The reader loop of a session has ended.
    method Cleanup(user: UserId, id: SessionId, clock: Instant, ghost g: Lifecycle.Gateway)
      requires Valid() && Matches(g) && g.now == clock
      requires id in g.handlers && g.handlers[id] == user
      modifies sessions, presence
      ensures Valid() && Matches(Lifecycle.Next(g, Lifecycle.Exit(id)))
      ensures sessions.Ids() == Removed(old(sessions.Ids()), user, id)
      ensures user in sessions.Ids() ==> presence.Model() == old(presence.Model())
      ensures user !in sessions.Ids() ==>
                && user in presence.pendingOffline && presence.pendingOffline[user] < |presence.timers|
                && presence.timers[presence.pendingOffline[user]] == Timer(user, clock + presence.offlineDebounce, Sleeping)
    {
      hide Registered, Removed, Closed, WellFormed;
      ClosedRestarts(presence.Model(), user, clock + presence.offlineDebounce);
      var removed := sessions.Remove(user, id);
      if !sessions.IsConnected(user) {
        presence.OnAllSessionsClosed(user, clock);
      }
    }

    // The members that the message's channel has, as far as the message asks for them.
    ghost function MembersFor(message: ClientMessage, answers: Answers): Option<seq<UserId>>
      reads router
    {
      if message.SendMessage? || message.StartTyping?
      then MemberCache.Found(router.memberCache, message.channel, answers.now, router.cacheTtl, answers.fetched)
      else None
    }

    // What the node looks like after one message: each kind of message
    // changes its own part, and all else stays.
    twostate predicate Handled(user: UserId, message: ClientMessage, answers: Answers)
      reads this, router, router.redis, presence, presence.broadcaster, readStates, sessions, sessions.All()
    {
      var members := old(MembersFor(message, answers));
      var (event, users) := Push(message, user, answers.stored, members);
      var targets := Absent(ConnectedUsers(sessions.Ids()), users);
      && presence.Model() == (if message.UpdatePresence? then StatusSet(old(presence.Model()), user, message.status)
                              else old(presence.Model()))
      && readStates.pending == (if message.AckMessage?
                                then Positions.Advance(old(readStates.pending), Positions.Row(Positions.Key(user, message.channel), message.message))
                                else old(readStates.pending))
      && readStates.pendingCount == old(readStates.pendingCount) + (if message.AckMessage? then 1 else 0)
      && readStates.totalOps == old(readStates.totalOps) + (if message.AckMessage? then 1 else 0)
      && router.memberCache == (if message.StartTyping? || (message.SendMessage? && answers.stored.Some?)
                                then MemberCache.Filled(old(router.memberCache), message.channel, answers.now, router.cacheTtl, answers.fetched, answers.insertedAt)
                                else old(router.memberCache))
      && router.redis.published == (if message.SendMessage? && targets != [] && !router.redis.disabled && answers.redisOk
                                    then old(router.redis.published) + [CrossNodePayload(router.nodeId, targets, event)]
                                    else old(router.redis.published))
      && sessions.sessions == old(sessions.sessions)
      && forall s :: s in old(sessions.All()) ==>
           s.inbox == if s.open then Received(old(s.inbox), event, users, s.userId) else old(s.inbox)
    }

    // One message of a connected client.
    method HandleClientMessage(user: UserId, message: ClientMessage, answers: Answers)
      requires Valid()
      modifies router, router.redis, presence, presence.broadcaster, readStates, sessions.All()`inbox
      ensures Valid() && Handled(user, message, answers)
    {
      hide SessionStore.Valid, WellFormed, OpenCount, Received, Absent, StatusSet, Reached;
      ReceivedNothing(HeartbeatAck(0));
      match message
      case SendMessage(channel) =>
        RouteMessage(user, channel, answers);
      case AckMessage(channel, read) =>
        readStates.Update(user, channel, read);
      case UpdatePresence(status) =>
        presence.SetStatus(user, status);
      case Heartbeat(seqNo) =>
        var sent := sessions.SendToUser(user, HeartbeatAck(seqNo));
      case StartTyping(channel) =>
        FanOutTyping(user, channel, answers);
    }

    // A failure is logged and forgotten.
    method RouteMessage(user: UserId, channel: ChannelId, answers: Answers)
      requires Valid()
      modifies router, router.redis, sessions.All()`inbox
      ensures Valid() && Handled(user, SendMessage(channel), answers)
    {
      assert forall here :: Absent(here, []) == [];
      ReceivedNothing(HeartbeatAck(0));
      hide SessionStore.Valid, WellFormed, OpenCount, Received, Absent, Reached;
      var ok := router.HandleSend(user, channel, answers.stored, answers.now, answers.fetched, answers.insertedAt, answers.redisOk);
    }

    method FanOutTyping(user: UserId, channel: ChannelId, answers: Answers)
      requires Valid()
      modifies router, sessions.All()`inbox
      ensures Valid() && Handled(user, StartTyping(channel), answers)
    {
      var event := TypingStart(user, channel);
      ReceivedNothing(event);
      hide SessionStore.Valid, WellFormed, OpenCount, Received, Absent, Reached;
      var members := router.GetChannelMembers(channel, answers.now, answers.fetched, answers.insertedAt);
      if members.Some? {
        var sent := sessions.SendToUsers(Others(members.value, user), event);
      }
    }

    // One frame in the reader loop of a session whose connection is alive,
    // reaped or not. The result says whether the loop goes on.
    method OnFrame(session: Session, frame: Frame, now: nat, answers: Answers, ghost g: Lifecycle.Gateway) returns (more: bool)
      requires Valid() && Matches(g)
      requires session.sessionId in g.handlers && g.handlers[session.sessionId] == session.userId
      modifies session`lastHeartbeat, router, router.redis, presence, presence.broadcaster, readStates, sessions.All()`inbox
      ensures Valid()
      ensures more <==> !frame.Close? && !frame.Failure?
      ensures session.lastHeartbeat == if frame.Text? || frame.Ping? then now else old(session.lastHeartbeat)
      ensures if frame.Text? && frame.message.Some? then Handled(session.userId, frame.message.value, answers)
              else unchanged(router, router.redis, presence, presence.broadcaster, readStates, sessions, sessions.All()`inbox)
      ensures Matches(if frame.Text? && frame.message.Some? && frame.message.value.UpdatePresence?
                      then Lifecycle.Next(g, Lifecycle.SetStatus(session.sessionId, frame.message.value.status)) else g)
    {
      hide SessionStore.Valid, WellFormed, Received, Absent, StatusSet;
      match frame
      case Text(message) =>
        session.Touch(now);
        if message.Some? {
          HandleClientMessage(session.userId, message.value, answers);
        }
        return true;
      case Ping =>
        session.Touch(now);
        return true;
      case Close => return false;
      case Failure => return false;
      case Other => return true;
    }
  }
}
