/** The broadcaster that batches presence changes and keeps the last one per user. */
module Broadcast {
  import opened Base
  import opened Sessions

  datatype Update = Update(user: UserId, status: PresenceStatus)

  const EARLY_FLUSH := 50

  // ---------------------------------------------------------------------
  // Keeping the last update of each user
  // ---------------------------------------------------------------------

  predicate Mentions(updates: seq<Update>, user: UserId) {
    exists i :: 0 <= i < |updates| && updates[i].user == user
  }

  // The updates that no later update of the same user overtakes, in order.
  function KeepLast(updates: seq<Update>): seq<Update> {
    if updates == [] then []
    else (if Mentions(updates[1..], updates[0].user) then [] else [updates[0]]) + KeepLast(updates[1..])
  }

  // The batch without the entries of one user.
  function Without(batch: seq<Update>, user: UserId): seq<Update> {
    if batch == [] then []
    else (if batch[0].user == user then [] else [batch[0]]) + Without(batch[1..], user)
  }

  // What the worker does with an update it receives.
  function Coalesce(batch: seq<Update>, update: Update): seq<Update> {
    Without(batch, update.user) + [update]
  }

  lemma MentionsConcat(a: seq<Update>, b: seq<Update>, user: UserId)
    ensures Mentions(a + b, user) <==> Mentions(a, user) || Mentions(b, user)
  {
    if Mentions(a, user) {
      var i :| 0 <= i < |a| && a[i].user == user;
      assert (a + b)[i].user == user;
    }
    if Mentions(b, user) {
      var i :| 0 <= i < |b| && b[i].user == user;
      assert (a + b)[|a| + i].user == user;
    }
  }

  lemma MentionsOne(update: Update, user: UserId)
    ensures Mentions([update], user) <==> update.user == user
  {
    assert [update][0] == update;
  }

  lemma {:induction false} CoalescingKeepsLast(updates: seq<Update>, update: Update)
    ensures KeepLast(updates + [update]) == Coalesce(KeepLast(updates), update)
  {
    if updates == [] {
      assert [update][1..] == [];
    } else {
      CoalescingKeepsLast(updates[1..], update);
      OneMoreCoalesced(updates[0], updates[1..], update);
      assert updates == [updates[0]] + updates[1..];
    }
  }

  lemma OneMoreCoalesced(head: Update, tail: seq<Update>, update: Update)
    requires KeepLast(tail + [update]) == Coalesce(KeepLast(tail), update)
    ensures KeepLast([head] + tail + [update]) == Coalesce(KeepLast([head] + tail), update)
  {
    hide Mentions, Without, KeepLast;
    KeepLastCons(head, tail);
    KeepLastCons(head, tail + [update]);
    assert [head] + tail + [update] == [head] + (tail + [update]);
    MentionsConcat(tail, [update], head.user);
    MentionsOne(update, head.user);
    if !Mentions(tail, head.user) {
      WithoutFirst(head, KeepLast(tail), update.user);
    }
  }

  lemma KeepLastCons(head: Update, tail: seq<Update>)
    ensures KeepLast([head] + tail) == if Mentions(tail, head.user) then KeepLast(tail) else [head] + KeepLast(tail)
  {
    assert ([head] + tail)[1..] == tail;
  }

  lemma WithoutFirst(head: Update, rest: seq<Update>, user: UserId)
    ensures Without([head] + rest, user) == (if head.user == user then [] else [head]) + Without(rest, user)
  {
  }

  ghost predicate DistinctUsers(batch: seq<Update>) {
    forall i, j :: 0 <= i < j < |batch| ==> batch[i].user != batch[j].user
  }

  lemma {:induction false} KeepLastIsDistinct(updates: seq<Update>)
    ensures DistinctUsers(KeepLast(updates))
    ensures forall user :: Mentions(KeepLast(updates), user) <==> Mentions(updates, user)
  {
    if updates != [] {
      var head, tail := updates[0], updates[1..];
      KeepLastIsDistinct(tail);
      assert updates == [head] + tail;
      forall user ensures Mentions(KeepLast(updates), user) <==> Mentions(updates, user) {
        MentionsConcat([head], tail, user);
        MentionsConcat([head], KeepLast(tail), user);
        assert KeepLast(updates) == if Mentions(tail, head.user) then KeepLast(tail) else [head] + KeepLast(tail);
        MentionsOne(head, user);
      }
    }
  }

  lemma KeepLastEmpty(updates: seq<Update>)
    ensures KeepLast(updates) == [] <==> updates == []
  {
    KeepLastIsDistinct(updates);
    assert updates != [] ==> Mentions(updates, updates[0].user);
  }

  // There is one entry for each user who sent an update.
  lemma {:induction false} KeepLastCount(updates: seq<Update>)
    ensures |KeepLast(updates)| == |set u | u in updates :: u.user|
  {
    if updates != [] {
      var head, tail := updates[0], updates[1..];
      KeepLastCount(tail);
      assert updates == [head] + tail;
      var whole, rest := set u | u in updates :: u.user, set u | u in tail :: u.user;
      assert whole == rest + {head.user};
      assert Mentions(tail, head.user) <==> head.user in rest;
    }
  }

  // Nothing after the update is about its user.
  ghost predicate IsLatest(updates: seq<Update>, i: nat)
    requires i < |updates|
  {
    forall j :: i < j < |updates| ==> updates[j].user != updates[i].user
  }

  lemma {:induction false} LatestAreKept(updates: seq<Update>)
    ensures forall i: nat :: i < |updates| && IsLatest(updates, i) ==> updates[i] in KeepLast(updates)
  {
    if updates != [] {
      var tail := updates[1..];
      LatestAreKept(tail);
      forall i: nat | i < |updates| && IsLatest(updates, i) ensures updates[i] in KeepLast(updates) {
        if i > 0 {
          assert tail[i - 1] == updates[i];
          assert forall j :: i - 1 < j < |tail| ==> tail[j] == updates[j + 1];
          assert IsLatest(tail, i - 1);
        } else {
          assert forall j :: 0 <= j < |tail| ==> tail[j] == updates[j + 1];
        }
      }
    }
  }

  // The latest updates of the users stand in the order they were received.
  lemma {:induction false} KeepLastOrder(updates: seq<Update>, i: nat, j: nat) returns (p: nat, q: nat)
    requires i < j < |updates| && IsLatest(updates, i) && IsLatest(updates, j)
    ensures p < q < |KeepLast(updates)| && KeepLast(updates)[p] == updates[i] && KeepLast(updates)[q] == updates[j]
  {
    var tail := updates[1..];
    assert forall k :: 0 <= k < |tail| ==> tail[k] == updates[k + 1];
    if i == 0 {
      p := 0;
      assert IsLatest(tail, j - 1);
      LatestAreKept(tail);
      q :| 0 <= q < |KeepLast(tail)| && KeepLast(tail)[q] == tail[j - 1];
      q := q + 1;
    } else {
      assert IsLatest(tail, i - 1) && IsLatest(tail, j - 1);
      p, q := KeepLastOrder(tail, i - 1, j - 1);
      if !Mentions(tail, updates[0].user) {
        p, q := p + 1, q + 1;
      }
    }
  }

  // The last status that a log gives for a user.
  function LastStatus(log: seq<Update>, user: UserId): Option<PresenceStatus> {
    if log == [] then None
    else
      var last := log[|log| - 1];
      if last.user == user then Some(last.status) else LastStatus(log[..|log| - 1], user)
  }

  lemma {:induction false} LastStatusConcat(a: seq<Update>, b: seq<Update>, user: UserId)
    ensures LastStatus(a + b, user) == if LastStatus(b, user).Some? then LastStatus(b, user) else LastStatus(a, user)
  {
    if b == [] {
      assert a + b == a;
    } else {
      assert (a + b)[..|a + b| - 1] == a + b[..|b| - 1];
      LastStatusConcat(a, b[..|b| - 1], user);
    }
  }

  lemma LastStatusOne(update: Update, user: UserId)
    ensures LastStatus([update], user) == if update.user == user then Some(update.status) else None
  {
  }

  lemma {:induction false} LastStatusWithout(batch: seq<Update>, user: UserId, other: UserId)
    ensures LastStatus(Without(batch, other), user) == if user == other then None else LastStatus(batch, user)
  {
    if batch != [] {
      LastStatusWithout(batch[1..], user, other);
      assert batch == [batch[0]] + batch[1..];
      LastStatusConcat([batch[0]], batch[1..], user);
      if batch[0].user == other {
        assert Without(batch, other) == Without(batch[1..], other);
      } else {
        LastStatusConcat([batch[0]], Without(batch[1..], other), user);
      }
      LastStatusOne(batch[0], user);
    }
  }

  lemma LastStatusCoalesce(batch: seq<Update>, update: Update, user: UserId)
    ensures LastStatus(Coalesce(batch, update), user) == LastStatus(batch + [update], user)
  {
    LastStatusWithout(batch, user, update.user);
    LastStatusConcat(Without(batch, update.user), [update], user);
    LastStatusConcat(batch, [update], user);
  }

  lemma {:induction false} LastStatusKeepLast(updates: seq<Update>, user: UserId)
    ensures LastStatus(KeepLast(updates), user) == LastStatus(updates, user)
  {
    if updates != [] {
      var front, last := updates[..|updates| - 1], updates[|updates| - 1];
      assert updates == front + [last];
      LastStatusKeepLast(front, user);
      CoalescingKeepsLast(front, last);
      LastStatusCoalesce(KeepLast(front), last, user);
      LastStatusConcat(KeepLast(front), [last], user);
      LastStatusConcat(front, [last], user);
    }
  }

  // ---------------------------------------------------------------------
  // The worker
  // ---------------------------------------------------------------------

  datatype Input = Received(update: Update) | IntervalTick

  // The updates of each flush so far as they were received, and those since.
  datatype Progress = Progress(flushed: seq<seq<Update>>, since: seq<Update>)

  function After(inputs: seq<Input>): Progress {
    if inputs == [] then Progress([], []) else
      var p := After(inputs[..|inputs| - 1]);
      match inputs[|inputs| - 1]
      case Received(update) =>
        var since := p.since + [update];
        if |KeepLast(since)| >= EARLY_FLUSH then Progress(p.flushed + [since], []) else Progress(p.flushed, since)
      case IntervalTick =>
        if p.since == [] then p else Progress(p.flushed + [p.since], [])
  }

  // A tick ends a stretch exactly if something was received since the last end.
  lemma TickFlushes(inputs: seq<Input>)
    ensures After(inputs + [IntervalTick]).since == []
    ensures After(inputs + [IntervalTick]).flushed
         == if After(inputs).since == [] then After(inputs).flushed else After(inputs).flushed + [After(inputs).since]
  {
    assert (inputs + [IntervalTick])[..|inputs|] == inputs;
  }

  // A receipt ends a stretch exactly if it is of the 50th user in it.
  lemma ReceiptFlushes(inputs: seq<Input>, update: Update)
    ensures var p, p' := After(inputs), After(inputs + [Received(update)]);
            var users := set u | u in p.since + [update] :: u.user;
            && |users| <= 50
            && p' == if |users| == 50 then Progress(p.flushed + [p.since + [update]], []) else Progress(p.flushed, p.since + [update])
  {
    assert (inputs + [Received(update)])[..|inputs|] == inputs;
    var since := After(inputs).since;
    FewSince(inputs);
    KeepLastCount(since + [update]);
    assert (set u | u in since + [update] :: u.user) == (set u | u in since :: u.user) + {update.user};
  }

  // Fewer than 50 users have sent an update since the last flush.
  lemma {:induction false} FewSince(inputs: seq<Input>)
    ensures |set u | u in After(inputs).since :: u.user| < 50
  {
    KeepLastCount(After(inputs).since);
    if inputs == [] {
      assert (set u | u in After(inputs).since :: u.user) == {};
    } else {
      FewSince(inputs[..|inputs| - 1]);
      KeepLastCount(After(inputs[..|inputs| - 1]).since);
    }
  }

  function EachKeepLast(segments: seq<seq<Update>>): seq<seq<Update>> {
    seq(|segments|, i requires 0 <= i < |segments| => KeepLast(segments[i]))
  }

  function Flat(segments: seq<seq<Update>>): seq<Update> {
    if segments == [] then [] else Flat(segments[..|segments| - 1]) + segments[|segments| - 1]
  }

  function Updates(inputs: seq<Input>): seq<Update> {
    if inputs == [] then [] else
      var last := inputs[|inputs| - 1];
      Updates(inputs[..|inputs| - 1]) + (if last.Received? then [last.update] else [])
  }

  method Retain(batch: seq<Update>, user: UserId) returns (rest: seq<Update>)
    ensures rest == Without(batch, user)
  {
    rest := [];
    for i := 0 to |batch|
      invariant rest + Without(batch[i..], user) == Without(batch, user)
    {
      assert batch[i..][1..] == batch[i + 1..];
      if batch[i].user != user {
        rest := rest + [batch[i]];
      }
    }
    assert batch[|batch|..] == [];
  }

  // The worker's loop over what its channel and its interval hand it. It
  // returns the batches it flushed and the one it is collecting.
  method Worker(inputs: seq<Input>) returns (flushes: seq<seq<Update>>, batch: seq<Update>)
    ensures flushes == EachKeepLast(After(inputs).flushed)
    ensures batch == KeepLast(After(inputs).since)
    ensures DistinctUsers(batch) && |batch| < 50
    ensures inputs != [] && inputs[|inputs| - 1] == IntervalTick ==> batch == []
  {
    hide KeepLast, Without, Mentions;
    KeepLastEmpty([]);
    flushes, batch := [], [];
    for i := 0 to |inputs|
      invariant flushes == EachKeepLast(After(inputs[..i]).flushed)
      invariant batch == KeepLast(After(inputs[..i]).since)
      invariant |batch| < EARLY_FLUSH
    {
      ghost var p := After(inputs[..i]);
      assert inputs[..i + 1][..i] == inputs[..i];
      KeepLastEmpty(p.since);
      match inputs[i] {
        case Received(update) =>
          CoalescingKeepsLast(p.since, update);
          batch := Retain(batch, update.user);
          batch := batch + [update];
          if |batch| >= EARLY_FLUSH {
            flushes, batch := flushes + [batch], [];
          }
        case IntervalTick =>
          if batch != [] {
            flushes, batch := flushes + [batch], [];
          }
      }
    }
    assert inputs[..|inputs|] == inputs;
    KeepLastIsDistinct(After(inputs).since);
    if inputs != [] && inputs[|inputs| - 1] == IntervalTick {
      assert inputs == inputs[..|inputs| - 1] + [IntervalTick];
      TickFlushes(inputs[..|inputs| - 1]);
    }
  }

  lemma {:induction false} EveryUpdateIsAccountedFor(inputs: seq<Input>)
    ensures Flat(After(inputs).flushed) + After(inputs).since == Updates(inputs)
  {
    if inputs != [] {
      var p := After(inputs[..|inputs| - 1]);
      EveryUpdateIsAccountedFor(inputs[..|inputs| - 1]);
      assert (p.flushed + [p.since])[..|p.flushed|] == p.flushed;
      if inputs[|inputs| - 1].Received? {
        var since := p.since + [inputs[|inputs| - 1].update];
        assert (p.flushed + [since])[..|p.flushed|] == p.flushed;
      }
    }
  }

  lemma {:induction false} LastFlushed(segments: seq<seq<Update>>, user: UserId)
    ensures LastStatus(Flat(EachKeepLast(segments)), user) == LastStatus(Flat(segments), user)
  {
    if segments != [] {
      var front, last := segments[..|segments| - 1], segments[|segments| - 1];
      LastFlushed(front, user);
      assert EachKeepLast(segments)[..|front|] == EachKeepLast(front);
      LastStatusConcat(Flat(front), last, user);
      LastStatusConcat(Flat(EachKeepLast(front)), KeepLast(last), user);
      LastStatusKeepLast(last, user);
    }
  }

  // Whenever the batch is empty, the last status flushed for a user is the
  // last one received.
  lemma EmptyBatchMeansUpToDate(inputs: seq<Input>, user: UserId)
    requires After(inputs).since == []
    ensures LastStatus(Flat(EachKeepLast(After(inputs).flushed)), user) == LastStatus(Updates(inputs), user)
  {
    EveryUpdateIsAccountedFor(inputs);
    LastFlushed(After(inputs).flushed, user);
    assert Flat(After(inputs).flushed) + [] == Flat(After(inputs).flushed);
  }

  function StatusesOf(log: seq<Update>, user: UserId): seq<PresenceStatus> {
    if log == [] then [] else
      var last := log[|log| - 1];
      StatusesOf(log[..|log| - 1], user) + (if last.user == user then [last.status] else [])
  }

  // a can be got from b by leaving out entries.
  ghost predicate Subsequence(a: seq<PresenceStatus>, b: seq<PresenceStatus>) {
    || a == []
    || (b != [] && (|| Subsequence(a, b[..|b| - 1])
                    || (a[|a| - 1] == b[|b| - 1] && Subsequence(a[..|a| - 1], b[..|b| - 1]))))
  }

  lemma {:induction false} SubsequenceConcat(a: seq<PresenceStatus>, b: seq<PresenceStatus>, c: seq<PresenceStatus>, d: seq<PresenceStatus>)
    requires Subsequence(a, b) && Subsequence(c, d)
    ensures Subsequence(a + c, b + d)
    decreases |d|, |b|
  {
    if d == [] {
      assert a + c == a && b + d == b;
    } else {
      assert (b + d)[..|b + d| - 1] == b + d[..|d| - 1];
      if Subsequence(c, d[..|d| - 1]) {
        SubsequenceConcat(a, b, c, d[..|d| - 1]);
      } else {
        assert (a + c)[..|a + c| - 1] == a + c[..|c| - 1];
        SubsequenceConcat(a, b, c[..|c| - 1], d[..|d| - 1]);
      }
    }
  }

  lemma {:induction false} StatusesConcat(a: seq<Update>, b: seq<Update>, user: UserId)
    ensures StatusesOf(a + b, user) == StatusesOf(a, user) + StatusesOf(b, user)
  {
    if b == [] {
      assert a + b == a;
    } else {
      assert (a + b)[..|a + b| - 1] == a + b[..|b| - 1];
      StatusesConcat(a, b[..|b| - 1], user);
    }
  }

  lemma {:induction false} SubsequenceOfItself(a: seq<PresenceStatus>)
    ensures Subsequence(a, a)
  {
    if a != [] {
      SubsequenceOfItself(a[..|a| - 1]);
    }
  }

  lemma {:induction false} KeptStatuses(updates: seq<Update>, user: UserId)
    ensures Subsequence(StatusesOf(KeepLast(updates), user), StatusesOf(updates, user))
  {
    if updates != [] {
      var head, tail := updates[0], updates[1..];
      KeptStatuses(tail, user);
      assert updates == [head] + tail;
      StatusesConcat([head], tail, user);
      var first := if Mentions(tail, head.user) then [] else [head];
      StatusesConcat(first, KeepLast(tail), user);
      SubsequenceOfItself(StatusesOf([head], user));
      SubsequenceConcat(StatusesOf(first, user), StatusesOf([head], user), StatusesOf(KeepLast(tail), user), StatusesOf(tail, user));
    }
  }

  lemma {:induction false} FlatStatuses(segments: seq<seq<Update>>, user: UserId)
    ensures Subsequence(StatusesOf(Flat(EachKeepLast(segments)), user), StatusesOf(Flat(segments), user))
  {
    if segments != [] {
      var front, last := segments[..|segments| - 1], segments[|segments| - 1];
      FlatStatuses(front, user);
      KeptStatuses(last, user);
      assert EachKeepLast(segments)[..|front|] == EachKeepLast(front);
      StatusesConcat(Flat(front), last, user);
      StatusesConcat(Flat(EachKeepLast(front)), KeepLast(last), user);
      SubsequenceConcat(StatusesOf(Flat(EachKeepLast(front)), user), StatusesOf(Flat(front), user),
                        StatusesOf(KeepLast(last), user), StatusesOf(last, user));
    }
  }

  // The statuses flushed for a user are a subsequence of those received.
  lemma FlushedStatusesAreReceived(inputs: seq<Input>, user: UserId)
    ensures Subsequence(StatusesOf(Flat(EachKeepLast(After(inputs).flushed)), user), StatusesOf(Updates(inputs), user))
  {
    var p := After(inputs);
    EveryUpdateIsAccountedFor(inputs);
    FlatStatuses(p.flushed, user);
    StatusesConcat(Flat(p.flushed), p.since, user);
    var kept := StatusesOf(Flat(EachKeepLast(p.flushed)), user);
    SubsequenceConcat(kept, StatusesOf(Flat(p.flushed), user), [], StatusesOf(p.since, user));
    assert kept + [] == kept;
  }

  // ---------------------------------------------------------------------
  // One flush
  // ---------------------------------------------------------------------

  // What one update makes for a session of one user.
  function NoticesOf(update: Update, targets: Option<seq<UserId>>, user: UserId): seq<ServerEvent> {
    match targets
    case None => []
    case Some(users) => Repeat(PresenceUpdate(update.user, update.status), multiset(users)[user])
  }

  // What a flush puts into the pipe of a session of one user; lookup(i) are
  // the users to notify of update number i, or nothing if the query failed.
  function Notices(updates: seq<Update>, lookup: nat -> Option<seq<UserId>>, user: UserId): seq<ServerEvent> {
    if updates == [] then [] else
      var last := |updates| - 1;
      Notices(updates[..last], lookup, user) + NoticesOf(updates[last], lookup(last), user)
  }

  // An update makes one notice for a listed user, none if the lookup failed
  // or does not list the user.
  lemma NoticesSnoc(updates: seq<Update>, update: Update, lookup: nat -> Option<seq<UserId>>, user: UserId)
    requires lookup(|updates|).Some? ==> NoDup(lookup(|updates|).value)
    ensures Notices(updates + [update], lookup, user)
         == Notices(updates, lookup, user)
            + (if lookup(|updates|).Some? && user in lookup(|updates|).value then [PresenceUpdate(update.user, update.status)] else [])
  {
    assert (updates + [update])[..|updates|] == updates;
    if lookup(|updates|).Some? {
      NoDupCount(lookup(|updates|).value, user);
      assert Repeat(PresenceUpdate(update.user, update.status), 1) == [PresenceUpdate(update.user, update.status)];
    }
  }

  // The notices of two flushes in a row are those of both batches together.
  lemma {:induction false} NoticesConcat(a: seq<Update>, b: seq<Update>, lookup: nat -> Option<seq<UserId>>, user: UserId)
    ensures Notices(a + b, lookup, user) == Notices(a, lookup, user) + Notices(b, i => lookup(|a| + i), user)
  {
    hide NoticesOf;
    if b == [] {
      assert a + b == a;
    } else {
      assert (a + b)[..|a + b| - 1] == a + b[..|b| - 1];
      NoticesConcat(a, b[..|b| - 1], lookup, user);
    }
  }

  // What a session that was sent these events believes about a user.
  function LastSeen(events: seq<ServerEvent>, about: UserId): Option<PresenceStatus> {
    if events == [] then None else
      var last := events[|events| - 1];
      if last.PresenceUpdate? && last.user == about then Some(last.status) else LastSeen(events[..|events| - 1], about)
  }

  lemma LastSeenSnoc(events: seq<ServerEvent>, update: Update, about: UserId)
    ensures LastSeen(events + [PresenceUpdate(update.user, update.status)], about)
         == if update.user == about then Some(update.status) else LastSeen(events, about)
  {
    assert (events + [PresenceUpdate(update.user, update.status)])[..|events|] == events;
  }

  method FlushBatch(store: SessionStore, updates: seq<Update>, lookup: nat -> Option<seq<UserId>>)
    requires store.Valid()
    modifies store.All()`inbox
    ensures forall s :: s in store.All() ==>
              s.inbox == if s.open then old(s.inbox) + Notices(updates, lookup, s.userId) else old(s.inbox)
  {
    hide OpenCount, Reached;
    for i := 0 to |updates|
      invariant forall s :: s in store.All() ==>
                  s.inbox == if s.open then old(s.inbox) + Notices(updates[..i], lookup, s.userId) else old(s.inbox)
    {
      assert updates[..i + 1][..i] == updates[..i];
      match lookup(i) {
        case Some(targets) =>
          var sent := store.SendToUsers(targets, PresenceUpdate(updates[i].user, updates[i].status));
        case None =>
      }
    }
    assert updates[..|updates|] == updates;
  }
}
