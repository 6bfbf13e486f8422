/** Identifiers, events, and the few facts about lists that every component uses. */
module Base {

  // A UUID stands for its 128-bit value. Rust and PostgreSQL both order UUIDs
  // by their bytes from the front, which is the order of these numbers.
  type UserId = nat
  type ChannelId = nat
  type MessageId = nat
  type SessionId = nat

  // A reading of the monotonic clock, in seconds.
  type Instant = real

  // Time passed since `since`; zero if the clock seems to have run backwards.
  function Elapsed(now: Instant, since: Instant): real {
    if now < since then 0.0 else now - since
  }

  datatype Option<+T> = None | Some(value: T)

  datatype PresenceStatus = Online | Idle | Dnd | Offline

  // What a session can receive; payload fields that nothing depends on are left out.
  datatype ServerEvent =
    | MessageCreate(id: MessageId, channel: ChannelId, author: UserId)
    | PresenceUpdate(user: UserId, status: PresenceStatus)
    | TypingStart(user: UserId, channel: ChannelId)
    | HeartbeatAck(seqNo: nat)

  ghost predicate NoDup<T>(xs: seq<T>) {
    forall i, j :: 0 <= i < j < |xs| ==> xs[i] != xs[j]
  }

  // n copies of x.
  function Repeat<T>(x: T, n: nat): (xs: seq<T>)
    ensures |xs| == n
  {
    seq(n, _ => x)
  }

  lemma NoDupSnoc<T>(xs: seq<T>, x: T)
    ensures NoDup(xs + [x]) <==> NoDup(xs) && x !in xs
  {
    var ys := xs + [x];
    assert forall i :: 0 <= i < |xs| ==> ys[i] == xs[i];
    assert NoDup(ys) ==> forall i :: 0 <= i < |xs| ==> ys[i] != ys[|xs|];
  }

  lemma NoDupConcat<T>(xs: seq<T>, ys: seq<T>)
    requires NoDup(xs) && NoDup(ys) && forall x :: x in xs ==> x !in ys
    ensures NoDup(xs + ys)
  {
    var zs := xs + ys;
    forall i, j | 0 <= i < j < |zs| ensures zs[i] != zs[j] {
      if i < |xs| <= j {
        assert zs[i] in xs && zs[j] in ys;
      }
    }
  }

  // In a list without repetition an element occurs once or not at all.
  lemma {:induction false} NoDupCount<T>(xs: seq<T>, x: T)
    requires NoDup(xs)
    ensures multiset(xs)[x] == (if x in xs then 1 else 0)
  {
    if xs != [] {
      var front, last := xs[..|xs| - 1], xs[|xs| - 1];
      assert xs == front + [last];
      NoDupSnoc(front, last);
      NoDupCount(front, x);
    }
  }

  // What a session's pipe holds after an event was sent to a list of users.
  function Received<E>(inbox: seq<E>, event: E, users: seq<UserId>, user: UserId): seq<E> {
    inbox + Repeat(event, multiset(users)[user])
  }

  lemma ReceivedNothing<E>(event: E)
    ensures forall inbox: seq<E>, user :: Received(inbox, event, [], user) == inbox
  {
  }

  lemma ReceivedByOne<E>(event: E, only: UserId)
    ensures forall inbox: seq<E>, user ::
              Received(inbox, event, [only], user) == if user == only then inbox + [event] else inbox
  {
  }

  lemma ReceivedSnoc<E>(event: E, users: seq<UserId>, last: UserId)
    ensures forall inbox: seq<E>, user ::
              Received(Received(inbox, event, users, user), event, [last], user) == Received(inbox, event, users + [last], user)
  {
  }
}
