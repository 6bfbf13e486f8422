/** Routing a message: the member cache, local delivery, and the bridge to other nodes. */
module Router {
  import opened Base
  import opened Registry
  import opened Sessions
  import opened MemberCache

  datatype CrossNodePayload = CrossNodePayload(sourceNode: string, targetUserIds: seq<UserId>, event: ServerEvent)

  // The listed users that are not among those here, in order.
  function Absent(here: set<UserId>, users: seq<UserId>): seq<UserId> {
    if users == [] then [] else
      var last := users[|users| - 1];
      Absent(here, users[..|users| - 1]) + (if last in here then [] else [last])
  }

  lemma {:induction false} AbsentMembers(here: set<UserId>, users: seq<UserId>)
    ensures forall u :: u in Absent(here, users) <==> u in users && u !in here
    ensures NoDup(users) ==> NoDup(Absent(here, users))
  {
    if users != [] {
      var front, last := users[..|users| - 1], users[|users| - 1];
      AbsentMembers(here, front);
      assert users == front + [last];
      NoDupSnoc(front, last);
      NoDupSnoc(Absent(here, front), last);
    }
  }

  // They stand in the order of the list.
  lemma {:induction false} AbsentInOrder(here: set<UserId>, a: seq<UserId>, b: seq<UserId>)
    ensures Absent(here, a + b) == Absent(here, a) + Absent(here, b)
  {
    if b == [] {
      assert a + b == a;
    } else {
      assert (a + b)[..|a + b| - 1] == a + b[..|b| - 1];
      AbsentInOrder(here, a, b[..|b| - 1]);
    }
  }

  class RedisBridge {
    const nodeId: string
    const disabled: bool
    var published: seq<CrossNodePayload>

    constructor (nodeId: string, disabled: bool)
      ensures this.nodeId == nodeId && this.disabled == disabled && published == []
    {
      this.nodeId := nodeId;
      this.disabled := disabled;
      published := [];
    }

    // A disabled bridge accepts everything and publishes nothing.
    method PublishEvent(payload: CrossNodePayload, redisOk: bool) returns (ok: bool)
      modifies this
      ensures ok <==> disabled || redisOk
      ensures published == if !disabled && redisOk then old(published) + [payload] else old(published)
    {
      if disabled {
        return true;
      }
      ok := redisOk;
      if ok {
        published := published + [payload];
      }
    }
  }

  class MessageRouter {
    const sessions: SessionStore
    const redis: RedisBridge
    const nodeId: string
    const cacheTtl: real
    var memberCache: Cache

    constructor (sessions: SessionStore, redis: RedisBridge, nodeId: string, cacheTtl: real)
      ensures this.sessions == sessions && this.redis == redis && this.nodeId == nodeId && this.cacheTtl == cacheTtl
      ensures memberCache == map[]
    {
      this.sessions := sessions;
      this.redis := redis;
      this.nodeId := nodeId;
      this.cacheTtl := cacheTtl;
      memberCache := map[];
    }

    // `fetched` is the database's answer if it is asked, `insertedAt` the
    // clock after it.
    method GetChannelMembers(channel: ChannelId, now: Instant, fetched: Option<seq<UserId>>, insertedAt: Instant)
        returns (members: Option<seq<UserId>>)
      modifies this
      ensures members == Found(old(memberCache), channel, now, cacheTtl, fetched)
      ensures memberCache == Filled(old(memberCache), channel, now, cacheTtl, fetched, insertedAt)
    {
      if channel in memberCache {
        var entry := memberCache[channel];
        if Elapsed(now, entry.fetchedAt) < cacheTtl {
          return Some(entry.members);
        }
      }
      members := fetched;
      if members.Some? {
        memberCache := memberCache[channel := CachedMembers(members.value, insertedAt)];
      }
    }

    method InvalidateChannelCache(channel: ChannelId)
      modifies this
      ensures memberCache == old(memberCache) - {channel}
    {
      memberCache := memberCache - {channel};
    }

    method CleanUpCache(now: Instant)
      modifies this
      ensures memberCache == Unexpired(old(memberCache), now, cacheTtl)
      ensures forall c :: c in memberCache <==> c in old(memberCache) && Elapsed(now, old(memberCache)[c].fetchedAt) < cacheTtl
      ensures forall c :: c in memberCache ==> memberCache[c] == old(memberCache)[c]
    {
      memberCache := map c | c in memberCache && Elapsed(now, memberCache[c].fetchedAt) < cacheTtl :: memberCache[c];
    }

    // One member: a push if the member is here.
    method DeliverIfConnected(member: UserId, event: ServerEvent) returns (connected: bool)
      requires sessions.Valid()
      modifies sessions.All()`inbox
      ensures connected <==> member in ConnectedUsers(sessions.Ids())
      ensures forall s :: s in sessions.All() ==>
                s.inbox == if s.open then Received(old(s.inbox), event, [member], s.userId) else old(s.inbox)
    {
      ConnectedById(member);
      ReceivedByOne(event, member);
      hide WellKept, Registered, OpenCount, Received, ConnectedUsers;
      connected := sessions.IsConnected(member);
      if connected {
        var sent := sessions.SendToUser(member, event);
      }
    }

    // The loop over the members: push to those who are here, collect the others.
    method DeliverLocally(members: seq<UserId>, event: ServerEvent) returns (remoteTargets: seq<UserId>)
      requires sessions.Valid()
      modifies sessions.All()`inbox
      ensures remoteTargets == Absent(ConnectedUsers(sessions.Ids()), members)
      ensures forall s :: s in sessions.All() ==>
                s.inbox == if s.open then Received(old(s.inbox), event, members, s.userId) else old(s.inbox)
    {
      hide SessionStore.Valid, OpenCount, Received, ConnectedUsers;
      remoteTargets := [];
      ReceivedNothing(event);
      for i := 0 to |members|
        invariant remoteTargets == Absent(ConnectedUsers(sessions.Ids()), members[..i])
        invariant forall s :: s in sessions.All() ==>
                    s.inbox == if s.open then Received(old(s.inbox), event, members[..i], s.userId) else old(s.inbox)
      {
        assert members[..i + 1][..i] == members[..i] && members[..i + 1] == members[..i] + [members[i]];
        ReceivedSnoc(event, members[..i], members[i]);
        var connected := DeliverIfConnected(members[i], event);
        if !connected {
          remoteTargets := remoteTargets + [members[i]];
        }
      }
      assert members[..|members|] == members;
    }

    lemma ConnectedById(user: UserId)
      requires sessions.Valid()
      ensures sessions.IsConnected(user) <==> user in ConnectedUsers(sessions.Ids())
      ensures sessions.IsConnected(user) <==> user in sessions.sessions
    {
    }

    // `stored` is the database's answer to the insertion of the message.
    method HandleSend(author: UserId, channel: ChannelId, stored: Option<MessageId>, now: Instant,
                      fetched: Option<seq<UserId>>, insertedAt: Instant, redisOk: bool) returns (ok: bool)
      requires sessions.Valid()
      modifies this, redis, sessions.All()`inbox
      ensures memberCache == if stored.None? then old(memberCache)
                             else Filled(old(memberCache), channel, now, cacheTtl, fetched, insertedAt)
      ensures var members := Found(old(memberCache), channel, now, cacheTtl, fetched);
              if stored.None? || members.None? then
                !ok && redis.published == old(redis.published)
                && forall s :: s in sessions.All() ==> s.inbox == old(s.inbox)
              else
                var event := MessageCreate(stored.value, channel, author);
                var targets := Absent(ConnectedUsers(sessions.Ids()), members.value);
                && (forall s :: s in sessions.All() ==>
                      s.inbox == if s.open then Received(old(s.inbox), event, members.value, s.userId) else old(s.inbox))
                && (ok <==> targets == [] || redis.disabled || redisOk)
                && redis.published == if targets != [] && !redis.disabled && redisOk
                                      then old(redis.published) + [CrossNodePayload(nodeId, targets, event)]
                                      else old(redis.published)
    {
      if stored.None? {
        return false;
      }
      var event := MessageCreate(stored.value, channel, author);
      var members := GetChannelMembers(channel, now, fetched, insertedAt);
      if members.None? {
        return false;
      }
      var targets := DeliverLocally(members.value, event);
      ok := true;
      if targets != [] {
        ok := redis.PublishEvent(CrossNodePayload(nodeId, targets, event), redisOk);
      }
    }
  }

  // The subscriber's side. `raw` is nothing if the payload cannot be parsed.
  method HandleCrossNodeEvent(sessions: SessionStore, myNodeId: string, raw: Option<CrossNodePayload>)
    requires sessions.Valid()
    modifies sessions.All()`inbox
    ensures forall s :: s in sessions.All() ==>
              s.inbox == if raw.Some? && raw.value.sourceNode != myNodeId && s.open
                         then Received(old(s.inbox), raw.value.event, raw.value.targetUserIds, s.userId)
                         else old(s.inbox)
  {
    if raw.None? {
      return;
    }
    var payload := raw.value;
    if payload.sourceNode == myNodeId {
      return;
    }
    var delivered := sessions.SendToUsers(payload.targetUserIds, payload.event);
  }
}
