/** In which order the sessions of a node get the messages of its senders. */
module DeliveryOrder {
  import opened Base
  import opened Delivery
  import opened DeliveryRuns

  // ---------------------------------------------------------------------
  // Order across senders
  // ---------------------------------------------------------------------

  lemma Extend(run: seq<Network>, steps: seq<Step>, step: Step) returns (run': seq<Network>, steps': seq<Step>)
    requires IsRun(run, steps) && Enabled(run[|steps|], step)
    ensures IsRun(run', steps') && |steps'| == |steps| + 1 && steps <= steps' && run <= run'
    ensures run'[|steps'|] == Next(run[|steps|], step)
  {
    run', steps' := run + [Next(run[|steps|], step)], steps + [step];
  }

  // The state with another send of sender x and other inboxes.
  function Moved(net: Network, x: nat, send: Send, inbox: map<SessionId, seq<MessageId>>): Network {
    net.(sends := net.sends[x := send], inbox := inbox)
  }

  // The send without the next k members.
  function TurnedOver(send: Send, k: nat, remote: seq<UserId>): Send
    requires k <= |send.rest|
  {
    Send(send.message, send.rest[k..], false, remote)
  }

  // One turn of a sender: its next member is looked up, and pushed to if here.
  lemma OneTurn(run: seq<Network>, steps: seq<Step>, x: nat) returns (run': seq<Network>, steps': seq<Step>, remote: seq<UserId>)
    requires IsRun(run, steps) && x in run[|steps|].at && x in run[|steps|].sends && run[|steps|].sends[x].rest != []
    ensures IsRun(run', steps') && steps <= steps' && run <= run'
    ensures run'[|steps'|] == Moved(run[|steps|], x, TurnedOver(run[|steps|].sends[x], 1, remote),
                                    Pushed(run[|steps|], run[|steps|].at[x], run[|steps|].sends[x].message, run[|steps|].sends[x].rest[0]))
  {
    var net := run[|steps|];
    var send := net.sends[x];
    hide IsRun, Pushed, UsersAt, NoDup;
    run', steps', remote := run, steps, send.remote;
    if !send.found {
      run', steps' := Extend(run, steps, Look(x));
    }
    RunLength(run', steps');
    if run'[|steps'|].sends[x].found {
      SameSessions(net, run'[|steps'|], net.at[x], send.message, send.rest[0]);
      run', steps' := Extend(run', steps', Push(x));
    } else {
      NobodyToPushTo(net, net.at[x], send.message, send.rest[0]);
      remote := send.remote + [send.rest[0]];
    }
  }

  lemma SameSessions(net: Network, net': Network, n: nat, m: MessageId, user: UserId)
    requires net'.home == net.home && net'.live == net.live && net'.hungUp == net.hungUp && net'.inbox == net.inbox
    ensures Pushed(net', n, m, user) == Pushed(net, n, m, user)
  {
  }

  lemma NobodyToPushTo(net: Network, n: nat, m: MessageId, user: UserId)
    requires user !in UsersAt(net, n)
    ensures Pushed(net, n, m, user) == net.inbox
  {
  }

  // What the sessions have after a sender went through the given members.
  function PushedAll(net: Network, n: nat, m: MessageId, users: seq<UserId>): map<SessionId, seq<MessageId>> {
    map id | id in net.inbox :: if Reaches(net, id, n) && net.home[id].user in users then net.inbox[id] + [m] else net.inbox[id]
  }

  function AfterTurns(net: Network, x: nat, k: nat, remote: seq<UserId>): Network
    requires x in net.at && x in net.sends && k <= |net.sends[x].rest|
  {
    Moved(net, x, TurnedOver(net.sends[x], k, remote), PushedAll(net, net.at[x], net.sends[x].message, net.sends[x].rest[..k]))
  }

  lemma PushedAllSplits(net: Network, net': Network, n: nat, m: MessageId, users: seq<UserId>)
    requires users != [] && NoDup(users)
    requires net'.home == net.home && net'.live == net.live && net'.hungUp == net.hungUp && net'.inbox == Pushed(net, n, m, users[0])
    ensures PushedAll(net', n, m, users[1..]) == PushedAll(net, n, m, users)
  {
    FirstOrLater(users);
    hide NoDup, Pushed, Reaches;
    forall id | id in net.inbox ensures PushedAll(net', n, m, users[1..])[id] == PushedAll(net, n, m, users)[id] {
      PushedAt(net, n, m, users[0], id);
      assert Reaches(net', id, n) == Reaches(net, id, n) by { SameReach(net, net', id, n); }
    }
  }

  lemma FirstOrLater(users: seq<UserId>)
    requires users != [] && NoDup(users)
    ensures users[0] !in users[1..] && forall u :: u in users <==> u == users[0] || u in users[1..]
  {
    NoDupTail(users);
  }

  lemma PushedAt(net: Network, n: nat, m: MessageId, user: UserId, id: SessionId)
    requires id in net.inbox
    ensures Pushed(net, n, m, user)[id] == if Reaches(net, id, n) && net.home[id].user == user then net.inbox[id] + [m] else net.inbox[id]
    ensures Reaches(net, id, n) ==> id in net.home
  {
  }

  lemma SameReach(net: Network, net': Network, id: SessionId, n: nat)
    requires net'.home == net.home && net'.live == net.live && net'.hungUp == net.hungUp
    ensures Reaches(net', id, n) == Reaches(net, id, n)
  {
  }

  // A sender can go through the next k members while everything else waits.
  lemma {:induction false} Turns(run: seq<Network>, steps: seq<Step>, x: nat, k: nat)
      returns (run': seq<Network>, steps': seq<Step>, remote: seq<UserId>)
    requires IsRun(run, steps) && x in run[|steps|].at && x in run[|steps|].sends
    requires 0 < k <= |run[|steps|].sends[x].rest| && NoDup(run[|steps|].sends[x].rest)
    ensures IsRun(run', steps') && steps <= steps' && run <= run'
    ensures run'[|steps'|] == AfterTurns(run[|steps|], x, k, remote)
    decreases k
  {
    var net := run[|steps|];
    var send := net.sends[x];
    assert NoDup(send.rest[..k]);
    NoDupTail(send.rest);
    hide IsRun, Pushed, PushedAll, NoDup;
    run', steps', remote := OneTurn(run, steps, x);
    RunLength(run', steps');
    PushedAllSplits(net, run'[|steps'|], net.at[x], send.message, send.rest[..k]);
    assert send.rest[..k][1..] == send.rest[1..][..k - 1];
    if k == 1 {
      PushedToNobody(run'[|steps'|], net.at[x], send.message);
    } else {
      assert send.rest[1..][k - 1..] == send.rest[k..];
      run', steps', remote := Turns(run', steps', x, k - 1);
    }
  }

  lemma PushedToNobody(net: Network, n: nat, m: MessageId)
    ensures PushedAll(net, n, m, []) == net.inbox
  {
  }

  // The session of a member with one message more.
  predicate Gets(before: Network, after: Network, id: SessionId, messages: seq<MessageId>) {
    id in before.inbox && id in after.inbox && after.inbox[id] == before.inbox[id] + messages
  }

  lemma GetsInTurns(net: Network, x: nat, k: nat, remote: seq<UserId>, id: SessionId, home: Home)
    requires x in net.at && x in net.sends && k <= |net.sends[x].rest| && net.at[x] == home.node
    requires id in net.inbox && Reaches(net, id, home.node) && net.home[id] == home
    ensures Gets(net, AfterTurns(net, x, k, remote), id, if home.user in net.sends[x].rest[..k] then [net.sends[x].message] else [])
    ensures Reaches(AfterTurns(net, x, k, remote), id, home.node) && AfterTurns(net, x, k, remote).home == net.home
    ensures id in AfterTurns(net, x, k, remote).inbox && AfterTurns(net, x, k, remote).at == net.at
    ensures AfterTurns(net, x, k, remote).sends == net.sends[x := TurnedOver(net.sends[x], k, remote)]
  {
    assert net.inbox[id] + [] == net.inbox[id];
  }

  lemma RestsAreDistinct(run: seq<Network>, steps: seq<Step>, x: nat)
    requires IsRun(run, steps) && x in run[|steps|].sends
    ensures x in run[|steps|].at && NoDup(run[|steps|].sends[x].rest)
  {
    Invariant(run, steps, |steps|);
    var send := run[|steps|].sends[x];
    assert GoodSend(run[|steps|], x);
    assert forall i :: 0 <= i < |send.rest| ==> send.rest[i] == (send.remote + send.rest)[|send.remote| + i];
  }

  // Sender x goes through i members, then y through l, then x through k more.
  function AfterLegs(net: Network, x: nat, y: nat, i: nat, l: nat, k: nat, remote: seq<seq<UserId>>): Network
    requires x != y && x in net.at && x in net.sends && y in net.at && y in net.sends && |remote| == 3
    requires i + k <= |net.sends[x].rest| && l <= |net.sends[y].rest|
  {
    AfterTurns(AfterTurns(AfterTurns(net, x, i, remote[0]), y, l, remote[1]), x, k, remote[2])
  }

  lemma Legs(run: seq<Network>, steps: seq<Step>, x: nat, y: nat, i: nat, l: nat, k: nat)
      returns (run': seq<Network>, steps': seq<Step>, remote: seq<seq<UserId>>)
    requires IsRun(run, steps) && x != y && x in run[|steps|].sends && y in run[|steps|].sends
    requires x in run[|steps|].at && y in run[|steps|].at
    requires i > 0 && l > 0 && k > 0 && i + k <= |run[|steps|].sends[x].rest| && l <= |run[|steps|].sends[y].rest|
    ensures IsRun(run', steps') && run <= run' && steps <= steps' && |remote| == 3
    ensures run'[|steps'|] == AfterLegs(run[|steps|], x, y, i, l, k, remote)
  {
    hide IsRun, PushedAll, NoDup;
    var r0, r1, r2;
    RestsAreDistinct(run, steps, x);
    run', steps', r0 := Turns(run, steps, x, i);
    RestsAreDistinct(run', steps', y);
    run', steps', r1 := Turns(run', steps', y, l);
    RestsAreDistinct(run', steps', x);
    run', steps', r2 := Turns(run', steps', x, k);
    remote := [r0, r1, r2];
  }

  // What a session of the node gets on these legs.
  lemma GetsOnLegs(net: Network, x: nat, y: nat, i: nat, l: nat, k: nat, remote: seq<seq<UserId>>, id: SessionId, home: Home)
    requires x != y && x in net.at && x in net.sends && y in net.at && y in net.sends && |remote| == 3
    requires i + k <= |net.sends[x].rest| && l <= |net.sends[y].rest| && net.at[x] == net.at[y] == home.node
    requires id in net.inbox && Reaches(net, id, home.node) && net.home[id] == home
    ensures Gets(net, AfterLegs(net, x, y, i, l, k, remote), id,
                 (if home.user in net.sends[x].rest[..i] then [net.sends[x].message] else [])
                 + (if home.user in net.sends[y].rest[..l] then [net.sends[y].message] else [])
                 + (if home.user in net.sends[x].rest[i..i + k] then [net.sends[x].message] else []))
  {
    var net1 := AfterTurns(net, x, i, remote[0]);
    var net2 := AfterTurns(net1, y, l, remote[1]);
    var net3 := AfterTurns(net2, x, k, remote[2]);
    hide AfterTurns, Gets, Reaches, PushedAll, Moved;
    GetsInTurns(net, x, i, remote[0], id, home);
    GetsInTurns(net1, y, l, remote[1], id, home);
    GetsInTurns(net2, x, k, remote[2], id, home);
    SliceOfTail(net.sends[x].rest, i, k);
    var m0 := if home.user in net.sends[x].rest[..i] then [net.sends[x].message] else [];
    var m1 := if home.user in net.sends[y].rest[..l] then [net.sends[y].message] else [];
    var m2 := if home.user in net.sends[x].rest[i..i + k] then [net.sends[x].message] else [];
    GetsTwice(net, net1, net2, id, m0, m1);
    GetsTwice(net, net2, net3, id, m0 + m1, m2);
  }

  lemma SliceOfTail(users: seq<UserId>, i: nat, k: nat)
    requires i + k <= |users|
    ensures users[i..][..k] == users[i..i + k]
  {
  }

  lemma GetsTwice(a: Network, b: Network, c: Network, id: SessionId, m: seq<MessageId>, m': seq<MessageId>)
    requires Gets(a, b, id, m) && Gets(b, c, id, m')
    ensures Gets(a, c, id, m + m')
  {
  }

  // Sends x and y of one node overlap: the turns of the users of sessions u and
  // v are still to come in both, at places i and j of x and in the first l of y.
  ghost predicate Overlap(net: Network, x: nat, y: nat, u: SessionId, v: SessionId, i: nat, j: nat, l: nat) {
    && x != y && x in net.at && x in net.sends && y in net.at && y in net.sends && net.at[x] == net.at[y]
    && u in net.inbox && Reaches(net, u, net.at[x]) && v in net.inbox && Reaches(net, v, net.at[x])
    && i < j < |net.sends[x].rest| && l <= |net.sends[y].rest|
    && net.sends[x].rest[i] == net.home[u].user && net.sends[x].rest[j] == net.home[v].user
    && net.home[u].user in net.sends[y].rest[..l] && net.home[v].user in net.sends[y].rest[..l]
  }

  // Whenever two sends overlap for two members in this way, these members can
  // get the two messages in opposite orders.
  lemma OverlapCanCross(run: seq<Network>, steps: seq<Step>, x: nat, y: nat, u: SessionId, v: SessionId, i: nat, j: nat, l: nat)
      returns (run': seq<Network>, steps': seq<Step>)
    requires IsRun(run, steps) && Overlap(run[|steps|], x, y, u, v, i, j, l)
    ensures IsRun(run', steps') && run <= run' && steps <= steps'
    ensures Gets(run[|steps|], run'[|steps'|], u, [run[|steps|].sends[x].message, run[|steps|].sends[y].message])
    ensures Gets(run[|steps|], run'[|steps'|], v, [run[|steps|].sends[y].message, run[|steps|].sends[x].message])
  {
    hide IsRun, AfterLegs, Gets;
    RunLength(run, steps);
    var net := run[|steps|];
    var a, b, rest := net.sends[x].message, net.sends[y].message, net.sends[x].rest;
    RestsAreDistinct(run, steps, x);
    assert net.home[u].user in rest[..i + 1] && rest[i + 1..j + 1][j - i - 1] == net.home[v].user;
    assert net.home[v].user !in rest[..i + 1] && net.home[u].user !in rest[i + 1..j + 1];
    var remote;
    run', steps', remote := Legs(run, steps, x, y, i + 1, l, j - i);
    GetsOnLegs(net, x, y, i + 1, l, j - i, remote, u, net.home[u]);
    GetsOnLegs(net, x, y, i + 1, l, j - i, remote, v, net.home[v]);
    assert [a] + [b] + [] == [a, b] && [] + [b] + [a] == [b, a];
  }

  // ---------------------------------------------------------------------
  // Exactly when two messages can cross
  // ---------------------------------------------------------------------

  ghost predicate Before(inbox: seq<MessageId>, a: MessageId, b: MessageId) {
    exists i, j :: 0 <= i < j < |inbox| && inbox[i] == a && inbox[j] == b
  }

  // The session has the messages in this order, or has the first and is still
  // due to get the second, or is due to get both.
  ghost predicate MayGet(net: Network, id: SessionId, a: MessageId, b: MessageId)
    requires id in net.inbox && id in net.home
  {
    var inbox, user := net.inbox[id], net.home[id].user;
    || Before(inbox, a, b)
    || (a in inbox && b !in inbox && Due(net, b, user))
    || (a !in inbox && b !in inbox && Due(net, a, user) && Due(net, b, user))
  }

  ghost predicate InOrder(net: Network, id: SessionId, a: MessageId, b: MessageId) {
    id in net.inbox && Before(net.inbox[id], a, b)
  }

  ghost predicate Crossed(net: Network, u: SessionId, v: SessionId, a: MessageId, b: MessageId) {
    (InOrder(net, u, a, b) && InOrder(net, v, b, a)) || (InOrder(net, u, b, a) && InOrder(net, v, a, b))
  }

  ghost predicate Continues(run: seq<Network>, steps: seq<Step>, run': seq<Network>, steps': seq<Step>) {
    IsRun(run', steps') && run <= run' && steps <= steps'
  }

  // The run can go on so that the sessions have the messages in opposite orders.
  ghost predicate CanCross(run: seq<Network>, steps: seq<Step>, u: SessionId, v: SessionId, a: MessageId, b: MessageId) {
    exists run', steps' :: Continues(run, steps, run', steps') && Crossed(run'[|steps'|], u, v, a, b)
  }

  // Two messages sent on one node, and two sessions there.
  ghost predicate SentHere(net: Network, id: SessionId, a: MessageId, b: MessageId) {
    && id in net.inbox && id in net.home && a != b && a in net.log && b in net.log
    && net.log[a].origin == net.home[id].node && net.log[b].origin == net.home[id].node
  }

  // An order in which messages come was possible at any earlier state.
  lemma CameInOrder(run: seq<Network>, steps: seq<Step>, k: nat, n: nat, id: SessionId, a: MessageId, b: MessageId)
    requires IsRun(run, steps) && k <= n < |run| && SentHere(run[k], id, a, b) && InOrder(run[n], id, a, b)
    ensures MayGet(run[k], id, a, b)
  {
    hide IsRun, Due;
    InboxesGrow(run, steps, k, n, id);
    AtMostOnceInOrder(run, steps, n, id);
    var home, inbox := run[k].home[id], run[n].inbox[id];
    if a !in run[k].inbox[id] && !Due(run[k], a, home.user) {
      NeverComes(run, steps, k, n, id, a, home);
    }
    if b !in run[k].inbox[id] && !Due(run[k], b, home.user) {
      NeverComes(run, steps, k, n, id, b, home);
    }
    OrderOfPrefix(run[k].inbox[id], inbox, a, b);
  }

  lemma OrderOfPrefix(prefix: seq<MessageId>, inbox: seq<MessageId>, a: MessageId, b: MessageId)
    requires prefix <= inbox && NoDup(inbox) && Before(inbox, a, b)
    ensures b in prefix ==> Before(prefix, a, b)
  {
    if b in prefix {
      var i, j :| 0 <= i < j < |inbox| && inbox[i] == a && inbox[j] == b;
      var l :| 0 <= l < |prefix| && prefix[l] == b;
      assert inbox[l] == b;
      assert prefix[i] == a;
    }
  }

  // The state after all turns still to come in the send of one message.
  ghost predicate Serves(net: Network, net': Network, m: MessageId)
    requires m in net.log
  {
    && net'.home == net.home && net'.log == net.log
    && (forall k, user :: Due(net', k, user) <==> k != m && Due(net, k, user))
    && (forall id, n :: Reaches(net', id, n) <==> Reaches(net, id, n))
    && (forall id :: id in net.inbox && Reaches(net, id, net.log[m].origin) ==>
          && id in net.home
          && Gets(net, net', id, if Due(net, m, net.home[id].user) then [m] else []))
  }

  lemma Serve(run: seq<Network>, steps: seq<Step>, m: MessageId) returns (run': seq<Network>, steps': seq<Step>)
    requires IsRun(run, steps) && m in run[|steps|].log
    ensures Continues(run, steps, run', steps') && Serves(run[|steps|], run'[|steps'|], m)
  {
    var net := run[|steps|];
    var x := net.log[m].sender;
    SendsMatchAtEnd(run, steps);
    run', steps' := run, steps;
    hide IsRun, PushedAll, NoDup, Reaches, SendsMatch, Serves;
    if x in net.sends && net.sends[x].message == m && net.sends[x].rest != [] {
      RestsAreDistinct(run, steps, x);
      var remote;
      run', steps', remote := Turns(run, steps, x, |net.sends[x].rest|);
      AllTurnsServe(net, x, m, remote);
    } else {
      NothingToServe(net, m);
    }
  }

  lemma SendsMatchAtEnd(run: seq<Network>, steps: seq<Step>)
    requires IsRun(run, steps)
    ensures |run| == |steps| + 1 && SendsMatch(run[|steps|])
  {
    Invariant(run, steps, |steps|);
  }

  lemma NothingToServe(net: Network, m: MessageId)
    requires m in net.log && forall user :: !Due(net, m, user)
    ensures Serves(net, net, m)
  {
    assert forall id :: id in net.inbox ==> net.inbox[id] + [] == net.inbox[id];
  }

  lemma AllTurnsServe(net: Network, x: nat, m: MessageId, remote: seq<UserId>)
    requires SendsMatch(net) && x in net.at && x in net.sends && net.sends[x].message == m
    ensures m in net.log && Serves(net, AfterTurns(net, x, |net.sends[x].rest|, remote), m)
  {
    OpenSend(net, x);
    var send := net.sends[x];
    var net' := AfterTurns(net, x, |send.rest|, remote);
    assert send.rest[..|send.rest|] == send.rest && send.rest[|send.rest|..] == [];
    forall id | id in net.inbox && Reaches(net, id, net.log[m].origin)
      ensures id in net.home && Gets(net, net', id, if Due(net, m, net.home[id].user) then [m] else [])
    {
      GetsInTurns(net, x, |send.rest|, remote, id, net.home[id]);
    }
    forall k, user ensures Due(net', k, user) <==> k != m && Due(net, k, user) {}
    hide PushedAll, SendsMatch, Gets;
  }

  // Going through the turns of a first and then those of b, whatever is due.
  lemma ServeBoth(run: seq<Network>, steps: seq<Step>, a: MessageId, b: MessageId, u: SessionId, v: SessionId, n: nat)
      returns (run': seq<Network>, steps': seq<Step>)
    requires IsRun(run, steps) && SentHere(run[|steps|], u, a, b) && SentHere(run[|steps|], v, a, b)
    requires run[|steps|].log[a].origin == n && Reaches(run[|steps|], u, n) && Reaches(run[|steps|], v, n)
    ensures Continues(run, steps, run', steps')
    ensures Gets(run[|steps|], run'[|steps'|], u, DueOf(run[|steps|], a, u) + DueOf(run[|steps|], b, u))
    ensures Gets(run[|steps|], run'[|steps'|], v, DueOf(run[|steps|], a, v) + DueOf(run[|steps|], b, v))
  {
    var net := run[|steps|];
    var run1, steps1 := Serve(run, steps, a);
    var net1 := run1[|steps1|];
    run', steps' := Serve(run1, steps1, b);
    GetsTwice(net, net1, run'[|steps'|], u, DueOf(net, a, u), DueOf(net, b, u));
    GetsTwice(net, net1, run'[|steps'|], v, DueOf(net, a, v), DueOf(net, b, v));
    hide IsRun, Gets, Due, Reaches;
  }

  function DueOf(net: Network, m: MessageId, id: SessionId): seq<MessageId> {
    if id in net.home && Due(net, m, net.home[id].user) then [m] else []
  }

  lemma OrderedBy(net: Network, net': Network, id: SessionId, messages: seq<MessageId>, a: MessageId, b: MessageId)
    requires Gets(net, net', id, messages)
    requires Before(net.inbox[id], a, b) || (a in net.inbox[id] && b in messages) || Before(messages, a, b)
    ensures InOrder(net', id, a, b)
  {
    var inbox, inbox' := net.inbox[id], net'.inbox[id];
    if Before(inbox, a, b) {
      var i, j :| 0 <= i < j < |inbox| && inbox[i] == a && inbox[j] == b;
      assert inbox'[i] == a && inbox'[j] == b;
    } else if a in inbox && b in messages {
      var i :| 0 <= i < |inbox| && inbox[i] == a;
      var j :| 0 <= j < |messages| && messages[j] == b;
      assert inbox'[i] == a && inbox'[|inbox| + j] == b;
    } else {
      var i, j :| 0 <= i < j < |messages| && messages[i] == a && messages[j] == b;
      assert inbox'[|inbox| + i] == a && inbox'[|inbox| + j] == b;
    }
  }

  lemma InThisOrder(a: MessageId, b: MessageId)
    ensures Before([a, b], a, b) && Before([a] + [b], a, b)
  {
    assert [a, b][0] == a && [a, b][1] == b;
    assert [a] + [b] == [a, b];
  }

  // Getting what is due in the right order, or with the first message there
  // already, gives the order.
  lemma ServingGivesOrder(net: Network, net': Network, id: SessionId, a: MessageId, b: MessageId, messages: seq<MessageId>)
    requires id in net.inbox && id in net.home && MayGet(net, id, a, b) && Gets(net, net', id, messages)
    requires messages == DueOf(net, a, id) + DueOf(net, b, id)
          || (messages == DueOf(net, b, id) + DueOf(net, a, id) && (Before(net.inbox[id], a, b) || a in net.inbox[id]))
    ensures InOrder(net', id, a, b)
  {
    hide Due, Before;
    InThisOrder(a, b);
    OrderedBy(net, net', id, messages, a, b);
  }

  lemma BothDueCross(run: seq<Network>, steps: seq<Step>, u: SessionId, v: SessionId, a: MessageId, b: MessageId)
    requires IsRun(run, steps) && SentHere(run[|steps|], u, a, b) && SentHere(run[|steps|], v, a, b)
    requires var net := run[|steps|]; Reaches(net, u, net.log[a].origin) && Reaches(net, v, net.log[a].origin)
    requires run[|steps|].home[u].user != run[|steps|].home[v].user
    requires var net := run[|steps|];
             && Due(net, a, net.home[u].user) && Due(net, b, net.home[u].user)
             && Due(net, a, net.home[v].user) && Due(net, b, net.home[v].user)
    ensures CanCross(run, steps, u, v, a, b)
  {
    SendsMatchAtEnd(run, steps);
    var net := run[|steps|];
    var x, y := net.log[a].sender, net.log[b].sender;
    OpenSend(net, x);
    OpenSend(net, y);
    var first, second := net.sends[x].rest, net.sends[y].rest;
    assert second[..|second|] == second;
    var i :| 0 <= i < |first| && first[i] == net.home[u].user;
    var j :| 0 <= j < |first| && first[j] == net.home[v].user;
    InThisOrder(a, b);
    InThisOrder(b, a);
    hide IsRun, Gets, SendsMatch, Due, Before;
    var run', steps';
    if i < j {
      assert Overlap(net, x, y, u, v, i, j, |second|);
      hide Overlap, Reaches;
      run', steps' := OverlapCanCross(run, steps, x, y, u, v, i, j, |second|);
      OrderedBy(net, run'[|steps'|], u, [a, b], a, b);
      OrderedBy(net, run'[|steps'|], v, [b, a], b, a);
    } else {
      assert Overlap(net, x, y, v, u, j, i, |second|);
      hide Overlap, Reaches;
      run', steps' := OverlapCanCross(run, steps, x, y, v, u, j, i, |second|);
      OrderedBy(net, run'[|steps'|], v, [a, b], a, b);
      OrderedBy(net, run'[|steps'|], u, [b, a], b, a);
    }
    assert Continues(run, steps, run', steps') && Crossed(run'[|steps'|], u, v, a, b);
  }

  lemma CrossWhenPossible(run: seq<Network>, steps: seq<Step>, u: SessionId, v: SessionId, a: MessageId, b: MessageId)
    requires IsRun(run, steps) && SentHere(run[|steps|], u, a, b) && SentHere(run[|steps|], v, a, b)
    requires var net := run[|steps|]; Reaches(net, u, net.log[a].origin) && Reaches(net, v, net.log[a].origin)
    requires run[|steps|].home[u].user != run[|steps|].home[v].user
    requires MayGet(run[|steps|], u, a, b) && MayGet(run[|steps|], v, b, a)
    ensures CanCross(run, steps, u, v, a, b)
  {
    RunLength(run, steps);
    hide IsRun, Gets, Due, Before, Reaches;
    var net := run[|steps|];
    var run', steps';
    if Before(net.inbox[v], b, a) || b in net.inbox[v] {
      run', steps' := ServeBoth(run, steps, a, b, u, v, net.log[a].origin);
      ServingGivesOrder(net, run'[|steps'|], u, a, b, DueOf(net, a, u) + DueOf(net, b, u));
      ServingGivesOrder(net, run'[|steps'|], v, b, a, DueOf(net, a, v) + DueOf(net, b, v));
      assert Continues(run, steps, run', steps') && Crossed(run'[|steps'|], u, v, a, b);
    } else if Before(net.inbox[u], a, b) || a in net.inbox[u] {
      run', steps' := ServeBoth(run, steps, b, a, u, v, net.log[a].origin);
      ServingGivesOrder(net, run'[|steps'|], u, a, b, DueOf(net, b, u) + DueOf(net, a, u));
      ServingGivesOrder(net, run'[|steps'|], v, b, a, DueOf(net, b, v) + DueOf(net, a, v));
      assert Continues(run, steps, run', steps') && Crossed(run'[|steps'|], u, v, a, b);
    } else {
      BothDueCross(run, steps, u, v, a, b);
    }
  }

  // At any instant, two messages sent on a node can still come to the sessions
  // of two users there in opposite orders if and only if one session may get
  // the first before the second and the other the second before the first: by
  // what each has, and whose turns are still to come.
  lemma CanCrossIff(run: seq<Network>, steps: seq<Step>, u: SessionId, v: SessionId, a: MessageId, b: MessageId)
    requires IsRun(run, steps) && SentHere(run[|steps|], u, a, b) && SentHere(run[|steps|], v, a, b)
    requires var net := run[|steps|]; Reaches(net, u, net.log[a].origin) && Reaches(net, v, net.log[a].origin)
    requires run[|steps|].home[u].user != run[|steps|].home[v].user
    ensures var net := run[|steps|];
            CanCross(run, steps, u, v, a, b) <==>
              (MayGet(net, u, a, b) && MayGet(net, v, b, a)) || (MayGet(net, u, b, a) && MayGet(net, v, a, b))
  {
    RunLength(run, steps);
    hide IsRun, MayGet, Reaches, InOrder;
    var net := run[|steps|];
    if CanCross(run, steps, u, v, a, b) {
      var run', steps' :| Continues(run, steps, run', steps') && Crossed(run'[|steps'|], u, v, a, b);
      RunLength(run', steps');
      assert run'[|steps|] == net;
      if InOrder(run'[|steps'|], u, a, b) && InOrder(run'[|steps'|], v, b, a) {
        CameInOrder(run', steps', |steps|, |steps'|, u, a, b);
        CameInOrder(run', steps', |steps|, |steps'|, v, b, a);
      } else {
        CameInOrder(run', steps', |steps|, |steps'|, u, b, a);
        CameInOrder(run', steps', |steps|, |steps'|, v, a, b);
      }
    }
    if MayGet(net, u, a, b) && MayGet(net, v, b, a) {
      CrossWhenPossible(run, steps, u, v, a, b);
    }
    if MayGet(net, u, b, a) && MayGet(net, v, a, b) {
      CrossWhenPossible(run, steps, v, u, a, b);
      var run', steps' :| Continues(run, steps, run', steps') && Crossed(run'[|steps'|], v, u, a, b);
      assert Crossed(run'[|steps'|], u, v, a, b);
    }
  }

  // One node where users 1 and 2 have the sessions 11 and 12, and the senders
  // 0 and 1 are sending the messages 100 and 101 to both.
  lemma TwoSendersAttach() returns (run: seq<Network>, steps: seq<Step>)
    ensures IsRun(run, steps)
    ensures run[|steps|] == Network([Node("a", true)], map[11 := Home(0, 1), 12 := Home(0, 2)], {11, 12}, {},
                                    map[11 := [], 12 := []], map[0 := 0, 1 := 0], map[], map[(0, 0) := []], map[], map[], 0)
  {
    var start := Network([Node("a", true)], map[], {}, {}, map[], map[], map[], map[(0, 0) := []], map[], map[], 0);
    run, steps := Extend([start], [], Open(11, 0, 1));
    run, steps := Extend(run, steps, Open(12, 0, 2));
    run, steps := Extend(run, steps, Attach(0, 0));
    run, steps := Extend(run, steps, Attach(1, 0));
  }

  lemma TwoSendersBegin() returns (run: seq<Network>, steps: seq<Step>)
    ensures IsRun(run, steps)
    ensures run[|steps|] == Network([Node("a", true)], map[11 := Home(0, 1), 12 := Home(0, 2)], {11, 12}, {},
                                    map[11 := [], 12 := []], map[0 := 0, 1 := 0],
                                    map[0 := Send(100, [1, 2], false, []), 1 := Send(101, [1, 2], false, [])], map[(0, 0) := []], map[],
                                    map[100 := Record(0, 0, [1, 2], 0, None), 101 := Record(0, 1, [1, 2], 1, None)], 2)
  {
    run, steps := TwoSendersAttach();
    hide IsRun;
    run, steps := Extend(run, steps, Begin(0, 100, [1, 2]));
    run, steps := Extend(run, steps, Begin(1, 101, [1, 2]));
  }

  // So two members of one channel do get the messages of two senders on their
  // node in opposite orders.
  lemma OverlappingSendsCross() returns (run: seq<Network>, steps: seq<Step>)
    ensures IsRun(run, steps)
    ensures 11 in run[|steps|].inbox && run[|steps|].inbox[11] == [100, 101]
    ensures 12 in run[|steps|].inbox && run[|steps|].inbox[12] == [101, 100]
  {
    hide IsRun;
    run, steps := TwoSendersBegin();
    assert [1, 2][..2] == [1, 2];
    run, steps := OverlapCanCross(run, steps, 0, 1, 11, 12, 0, 1, 2);
    RunLength(run, steps);
    assert [] + [100, 101] == [100, 101] && [] + [101, 100] == [101, 100];
  }
}
