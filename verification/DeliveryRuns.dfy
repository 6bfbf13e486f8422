/** What every run of the network guarantees, and what it does not. */
module DeliveryRuns {
  import opened Base
  import opened Delivery

  // ---------------------------------------------------------------------
  // What every run guarantees
  // ---------------------------------------------------------------------

  lemma StepAt(run: seq<Network>, steps: seq<Step>, n: nat)
    requires IsRun(run, steps) && 0 < n < |run|
    ensures |run| == |steps| + 1 && Inv(run[n - 1])
    ensures Enabled(run[n - 1], steps[n - 1]) && run[n] == Next(run[n - 1], steps[n - 1])
  {
    Invariant(run, steps, n - 1);
  }

  lemma InvFacts(net: Network)
    requires Inv(net)
    ensures Shape(net) && SendsMatch(net)
  {
    hide Shape, SendsMatch, GoodLink, GoodHandling, GoodInbox, Supplied;
  }

  // A session gets no message twice, only messages whose member list names
  // its user, and none before another of the same node whose send was over
  // when its own began.
  lemma AtMostOnceInOrder(run: seq<Network>, steps: seq<Step>, n: nat, id: SessionId)
    requires IsRun(run, steps) && n < |run| && id in run[n].inbox
    ensures NoDup(run[n].inbox[id])
    ensures id in run[n].home && forall m :: m in run[n].inbox[id] ==>
              m in run[n].log && run[n].home[id].user in run[n].log[m].members
    ensures forall i, j :: 0 <= i < j < |run[n].inbox[id]| ==>
              !Precedes(run[n].log, run[n].inbox[id][j], run[n].inbox[id][i])
  {
    Invariant(run, steps, n);
    assert GoodInbox(run[n], id);
  }

  // Two sessions get two messages of one node in opposite orders only if their
  // sends overlap.
  lemma OppositeOrdersMeanOverlap(run: seq<Network>, steps: seq<Step>, n: nat, id: SessionId, other: SessionId, a: MessageId, b: MessageId,
                                  i: nat, j: nat, k: nat, l: nat)
    requires IsRun(run, steps) && n < |run| && id in run[n].inbox && other in run[n].inbox
    requires i < j < |run[n].inbox[id]| && run[n].inbox[id][i] == a && run[n].inbox[id][j] == b
    requires k < l < |run[n].inbox[other]| && run[n].inbox[other][k] == b && run[n].inbox[other][l] == a
    ensures !Precedes(run[n].log, a, b) && !Precedes(run[n].log, b, a)
  {
    AtMostOnceInOrder(run, steps, n, id);
    AtMostOnceInOrder(run, steps, n, other);
  }

  // The sends of one sender do not overlap.
  lemma {:induction false} OneAtATime(run: seq<Network>, steps: seq<Step>, n: nat, a: MessageId, b: MessageId)
    requires IsRun(run, steps) && n < |run| && a in run[n].log && b in run[n].log
    requires a != b && run[n].log[a].sender == run[n].log[b].sender
    ensures Precedes(run[n].log, a, b) || Precedes(run[n].log, b, a)
  {
    NothingSent(run, steps);
    hide IsRun, Next, Enabled, Inv, SendsMatch, Precedes;
    if n > 0 {
      StepAt(run, steps, n);
      var net, step := run[n - 1], steps[n - 1];
      InvFacts(net);
      if a in net.log && b in net.log {
        SameSender(net, step, a);
        SameSender(net, step, b);
        OneAtATime(run, steps, n - 1, a, b);
        OrderKept(net, step, a, b);
        OrderKept(net, step, b, a);
      } else {
        NewlyLogged(net, step, a);
        NewlyLogged(net, step, b);
        BeginsAfterItsOwn(net, step, if a in net.log then a else b);
      }
    }
  }

  lemma RunLength(run: seq<Network>, steps: seq<Step>)
    requires IsRun(run, steps)
    ensures |run| == |steps| + 1
  {
  }

  lemma NothingSent(run: seq<Network>, steps: seq<Step>)
    requires IsRun(run, steps)
    ensures |run| > 0 && run[0].log == map[] && run[0].sends == map[] && run[0].handling == map[] && run[0].inbox == map[]
    ensures forall l :: l in run[0].links ==> run[0].links[l] == []
  {
  }

  lemma OrderKept(net: Network, step: Step, a: MessageId, b: MessageId)
    requires SendsMatch(net) && Enabled(net, step) && a in net.log && b in net.log
    ensures Precedes(Next(net, step).log, a, b) <==> Precedes(net.log, a, b)
  {
    hide SendsMatch, Precedes, Next, Enabled, SameHistory;
    HistoryStays(net, step);
    OrderStays(net.log, Next(net, step).log, a, b);
  }

  lemma NewlyLogged(net: Network, step: Step, m: MessageId)
    requires Enabled(net, step)
    ensures m in Next(net, step).log && m !in net.log ==> step.Begin? && step.message == m
  {
    hide NoDup, UsersAt, Pushed, Published;
  }

  lemma SameSender(net: Network, step: Step, m: MessageId)
    requires SendsMatch(net) && Enabled(net, step) && m in net.log
    ensures m in Next(net, step).log && Next(net, step).log[m].sender == net.log[m].sender
  {
    hide SendsMatch, Precedes, Next, Enabled;
    HistoryStays(net, step);
  }

  lemma BeginsAfterItsOwn(net: Network, step: Step, a: MessageId)
    requires SendsMatch(net) && Enabled(net, step) && step.Begin? && a in net.log
    requires Next(net, step).log[a].sender == Next(net, step).log[step.message].sender
    ensures Precedes(Next(net, step).log, a, step.message)
  {
    assert GoodRecord(net, a);
  }

  // Messages of one connection arrive in the order they were sent.
  lemma OneSenderInOrder(run: seq<Network>, steps: seq<Step>, n: nat, id: SessionId, i: nat, j: nat)
    requires IsRun(run, steps) && n < |run| && id in run[n].inbox && i < j < |run[n].inbox[id]|
    requires var a, b := run[n].inbox[id][i], run[n].inbox[id][j];
             a in run[n].log && b in run[n].log && run[n].log[a].sender == run[n].log[b].sender
    ensures Precedes(run[n].log, run[n].inbox[id][i], run[n].inbox[id][j])
  {
    AtMostOnceInOrder(run, steps, n, id);
    OneAtATime(run, steps, n, run[n].inbox[id][i], run[n].inbox[id][j]);
  }

  // The second state holds all that the session had in the first.
  ghost predicate Grown(before: Network, after: Network, id: SessionId) {
    && id in before.inbox && id in after.inbox && before.inbox[id] <= after.inbox[id]
    && id in before.home && id in after.home && after.home[id] == before.home[id]
  }

  // What a session got it keeps, and it stays at home.
  lemma {:induction false} InboxesGrow(run: seq<Network>, steps: seq<Step>, k: nat, n: nat, id: SessionId)
    requires IsRun(run, steps) && k <= n < |run| && id in run[k].inbox
    ensures Grown(run[k], run[n], id)
  {
    hide IsRun, Next, Enabled, Inv, SendsMatch, Meshed, Grown;
    if k == n {
      Invariant(run, steps, k);
      InvFacts(run[k]);
      GrownFromItself(run[k], id);
    } else {
      InboxesGrow(run, steps, k, n - 1, id);
      StepAt(run, steps, n);
      InvFacts(run[n - 1]);
      InboxGrows(run[k], run[n - 1], steps[n - 1], id);
    }
  }

  lemma GrownFromItself(net: Network, id: SessionId)
    requires Shape(net) && id in net.inbox
    ensures Grown(net, net, id)
  {
  }

  lemma InboxGrows(before: Network, net: Network, step: Step, id: SessionId)
    requires Shape(net) && Enabled(net, step) && Grown(before, net, id)
    ensures Grown(before, Next(net, step), id)
  {
    hide Next, Enabled;
    StepKeepsShape(net, step);
    InboxKept(net, step, id);
    InboxAfter(net, step, id);
  }

  lemma InboxKept(net: Network, step: Step, id: SessionId)
    requires Enabled(net, step) && id in net.inbox
    ensures id in Next(net, step).inbox
  {
    hide UsersAt, NoDup, Published;
  }

  // Once received stays received, exactly once.
  lemma OnceForever(run: seq<Network>, steps: seq<Step>, k: nat, n: nat, id: SessionId, m: MessageId)
    requires IsRun(run, steps) && k <= n < |run| && id in run[k].inbox && m in run[k].inbox[id]
    ensures id in run[n].inbox && multiset(run[n].inbox[id])[m] == 1
  {
    InboxesGrow(run, steps, k, n, id);
    AtMostOnceInOrder(run, steps, n, id);
    NoDupCount(run[n].inbox[id], m);
  }

  // ---------------------------------------------------------------------
  // Members connected where the message is sent
  // ---------------------------------------------------------------------

  // The session can be reached on its node in every state from k to n.
  ghost predicate ReachedThroughout(run: seq<Network>, k: nat, n: nat, id: SessionId, home: Home)
    requires n < |run|
  {
    forall j :: k <= j <= n ==> id in run[j].inbox && Reaches(run[j], id, home.node) && run[j].home[id] == home
  }

  // The message is being sent, and the user's turn is still to come.
  predicate IsDue(net: Network, x: nat, m: MessageId, user: UserId) {
    x in net.sends && net.sends[x].message == m && user in net.sends[x].rest
  }

  lemma StaysDue(net: Network, step: Step, x: nat, m: MessageId, id: SessionId)
    requires Enabled(net, step) && x in net.at && Reaches(net, id, net.at[x]) && id in net.inbox
    requires IsDue(net, x, m, net.home[id].user)
    ensures var net' := Next(net, step);
            IsDue(net', x, m, net.home[id].user) || (id in net'.inbox && m in net'.inbox[id])
  {
    hide NoDup, Published;
    if step == Push(x) && net.sends[x].rest[0] == net.home[id].user {
      assert Pushed(net, net.at[x], m, net.home[id].user)[id] == net.inbox[id] + [m];
    }
  }

  lemma {:induction false} DuringSend(run: seq<Network>, steps: seq<Step>, k: nat, n: nat, id: SessionId, home: Home)
    requires IsRun(run, steps) && k < n < |run| && steps[k].Begin? && home.user in steps[k].users
    requires steps[k].sender in run[k].at && run[k].at[steps[k].sender] == home.node
    requires ReachedThroughout(run, k, n, id, home)
    ensures steps[k].sender in run[n].at && run[n].at[steps[k].sender] == home.node
    ensures IsDue(run[n], steps[k].sender, steps[k].message, home.user) || steps[k].message in run[n].inbox[id]
  {
    hide IsRun, Next, Enabled, Inv, IsDue, Grown;
    StepAt(run, steps, n);
    if k < n - 1 {
      DuringSend(run, steps, k, n - 1, id, home);
      SenderStays(run[n - 1], steps[n - 1], steps[k].sender);
      if steps[k].message in run[n - 1].inbox[id] {
        StillThere(run, steps, n - 1, n, id, steps[k].message);
      } else {
        StaysDue(run[n - 1], steps[n - 1], steps[k].sender, steps[k].message, id);
      }
    } else {
      SenderStays(run[k], steps[k], steps[k].sender);
      BegunIsDue(run[k], steps[k], home.user);
    }
  }

  lemma BegunIsDue(net: Network, step: Step, user: UserId)
    requires Enabled(net, step) && step.Begin? && user in step.users
    ensures IsDue(Next(net, step), step.sender, step.message, user)
  {
  }

  lemma StillThere(run: seq<Network>, steps: seq<Step>, k: nat, n: nat, id: SessionId, m: MessageId)
    requires IsRun(run, steps) && k <= n < |run| && id in run[k].inbox && m in run[k].inbox[id]
    ensures id in run[n].inbox && m in run[n].inbox[id]
  {
    InboxesGrow(run, steps, k, n, id);
    hide IsRun;
  }

  lemma SenderStays(net: Network, step: Step, x: nat)
    requires Enabled(net, step) && x in net.at
    ensures x in Next(net, step).at && Next(net, step).at[x] == net.at[x]
  {
    hide UsersAt, NoDup, Published, Pushed;
  }

  // A member's session that can be reached at the origin while the message is
  // sent has the message exactly once from the end of the send on.
  lemma LocalMembersGetItOnce(run: seq<Network>, steps: seq<Step>, k: nat, e: nat, n: nat, id: SessionId, home: Home)
    requires IsRun(run, steps) && k < e <= n < |run| && steps[k].Begin? && home.user in steps[k].users
    requires steps[k].sender in run[k].at && run[k].at[steps[k].sender] == home.node
    requires ReachedThroughout(run, k, e, id, home)
    requires steps[k].message in run[e].log && run[e].log[steps[k].message].ended.Some?
    ensures id in run[n].inbox && multiset(run[n].inbox[id])[steps[k].message] == 1
  {
    DuringSend(run, steps, k, e, id, home);
    Invariant(run, steps, e);
    if IsDue(run[e], steps[k].sender, steps[k].message, home.user) {
      OpenSend(run[e], steps[k].sender);
    }
    OnceForever(run, steps, e, n, id, steps[k].message);
  }

  // The user's turn in the send of the message is still to come.
  predicate Due(net: Network, m: MessageId, user: UserId) {
    m in net.log && IsDue(net, net.log[m].sender, m, user)
  }

  lemma StaysUndue(net: Network, step: Step, m: MessageId, user: UserId)
    requires SendsMatch(net) && Enabled(net, step) && m in net.log && !Due(net, m, user)
    ensures m in Next(net, step).log && Next(net, step).log[m].origin == net.log[m].origin && !Due(Next(net, step), m, user)
  {
    hide SendsMatch, Precedes, Next, Enabled;
    HistoryStays(net, step);
    var x := net.log[m].sender;
    if x in Next(net, step).sends && Next(net, step).sends[x].message == m {
      SendAfter(net, step, x);
      BegunIsNew(net, step);
    }
  }

  // A session of the origin gets a message only at its user's turn.
  lemma ComesWhenDue(net: Network, step: Step, id: SessionId, m: MessageId)
    requires Inv(net) && Enabled(net, step) && id in net.inbox && id in Next(net, step).inbox && id in net.home
    requires m in net.log && net.log[m].origin == net.home[id].node && m !in net.inbox[id] && m in Next(net, step).inbox[id]
    ensures Due(net, m, net.home[id].user)
  {
    hide Next, Enabled, SendsMatch, GoodLink, GoodHandling, GoodInbox, Supplied, Meshed;
    InboxAfter(net, step, id);
    if PushedTo(net, step, id) {
      OpenSend(net, step.sender);
    } else {
      HandlingFacts(net, step.node);
    }
  }

  // A message whose turn for a user is over or never came does not come any
  // more to a session of that user at the origin that does not have it.
  lemma {:induction false} NeverComes(run: seq<Network>, steps: seq<Step>, k: nat, n: nat, id: SessionId, m: MessageId, home: Home)
    requires IsRun(run, steps) && k <= n < |run| && m in run[k].log && run[k].log[m].origin == home.node && !Due(run[k], m, home.user)
    requires id in run[k].inbox ==> m !in run[k].inbox[id]
    requires id in run[n].inbox && id in run[n].home && run[n].home[id] == home
    ensures m in run[n].log && run[n].log[m].origin == home.node && !Due(run[n], m, home.user) && m !in run[n].inbox[id]
  {
    hide IsRun, Next, Enabled, Inv, Due, Shape, SendsMatch;
    if k < n {
      StepAt(run, steps, n);
      InvFacts(run[n - 1]);
      UndueThroughout(run, steps, k, n - 1, m, home.user);
      StaysUndue(run[n - 1], steps[n - 1], m, home.user);
      InboxAfter(run[n - 1], steps[n - 1], id);
      if id in run[n - 1].inbox {
        NeverComes(run, steps, k, n - 1, id, m, home);
        if m in run[n].inbox[id] {
          ComesWhenDue(run[n - 1], steps[n - 1], id, m);
        }
      }
    }
  }

  lemma {:induction false} UndueThroughout(run: seq<Network>, steps: seq<Step>, k: nat, n: nat, m: MessageId, user: UserId)
    requires IsRun(run, steps) && k <= n < |run| && m in run[k].log && !Due(run[k], m, user)
    ensures m in run[n].log && run[n].log[m].origin == run[k].log[m].origin && !Due(run[n], m, user)
  {
    hide IsRun, Next, Enabled, Inv, Due, SendsMatch;
    if k < n {
      UndueThroughout(run, steps, k, n - 1, m, user);
      StepAt(run, steps, n);
      InvFacts(run[n - 1]);
      StaysUndue(run[n - 1], steps[n - 1], m, user);
    }
  }

  // The push at a member's own turn decides: a session of the member at the
  // origin has the message exactly once from then on if it can be reached at
  // that step, and never if not, nor if it is opened later.
  lemma OwnTurnDecides(run: seq<Network>, steps: seq<Step>, k: nat, n: nat, id: SessionId)
    requires IsRun(run, steps) && k < |steps| && k < n < |run| && steps[k].Push?
    requires Enabled(run[k], steps[k])
    requires id in run[n].inbox && id in run[n].home
    requires run[n].home[id] == Home(run[k].at[steps[k].sender], run[k].sends[steps[k].sender].rest[0])
    ensures multiset(run[n].inbox[id])[run[k].sends[steps[k].sender].message]
         == if Reaches(run[k], id, run[n].home[id].node) then 1 else 0
  {
    var x, home := steps[k].sender, run[n].home[id];
    var m := run[k].sends[x].message;
    hide IsRun, Next, Inv, Due, Shape, SendsMatch, NoDup, Reaches;
    StepAt(run, steps, k + 1);
    InvFacts(run[k]);
    if id in run[k].inbox {
      InboxesGrow(run, steps, k, n, id);
      NotYetThere(run[k], x, id);
    }
    TurnIsOver(run[k], x, home, id);
    if Reaches(run[k], id, home.node) {
      OnceForever(run, steps, k + 1, n, id, m);
    } else {
      NeverComes(run, steps, k + 1, n, id, m, home);
    }
  }

  // What is due to a user is in no inbox of the user at the origin.
  lemma NotYetThere(net: Network, x: nat, id: SessionId)
    requires Inv(net) && x in net.at && x in net.sends && net.sends[x].rest != [] && id in net.inbox && id in net.home
    ensures net.home[id] == Home(net.at[x], net.sends[x].rest[0]) ==> net.sends[x].message !in net.inbox[id]
  {
    hide SendsMatch, GoodLink, GoodHandling, GoodInbox, Meshed, NotLinked, NotHandled;
    OpenSend(net, x);
    assert net.sends[x].message in net.inbox[id] ==> Supplied(net, id, net.sends[x].message);
  }

  lemma TurnIsOver(net: Network, x: nat, home: Home, id: SessionId)
    requires Inv(net) && Enabled(net, Push(x)) && home == Home(net.at[x], net.sends[x].rest[0])
    requires id in net.inbox ==> id in net.home && net.home[id] == home && net.sends[x].message !in net.inbox[id]
    ensures var net', m := Next(net, Push(x)), net.sends[x].message;
            && m in net'.log && net'.log[m].origin == home.node && !Due(net', m, home.user)
            && (id in net'.inbox <==> id in net.inbox)
            && (Reaches(net, id, home.node) ==> id in net'.inbox && m in net'.inbox[id])
            && (!Reaches(net, id, home.node) && id in net.inbox ==> m !in net'.inbox[id])
  {
    InvFacts(net);
    OpenSend(net, x);
    PushedLeaves(net, x);
    hide SendsMatch, GoodLink, GoodHandling, GoodInbox, Supplied, Meshed, NoDup;
  }

  // ---------------------------------------------------------------------
  // Members connected elsewhere
  // ---------------------------------------------------------------------

  // The user is a remote target, or will be if still absent at its turn.
  predicate IsMissing(net: Network, x: nat, m: MessageId, user: UserId) {
    && x in net.sends && net.sends[x].message == m
    && (|| user in net.sends[x].remote
        || (user in net.sends[x].rest && (net.sends[x].found ==> net.sends[x].rest[0] != user)))
  }

  lemma NobodyHere(net: Network, n: nat, user: UserId)
    ensures user !in UsersAt(net, n) <==> forall id :: id in net.live && id in net.home ==> net.home[id] != Home(n, user)
  {
  }

  lemma StaysMissing(net: Network, step: Step, x: nat, m: MessageId, user: UserId)
    requires Enabled(net, step) && x in net.at && user !in UsersAt(net, net.at[x]) && IsMissing(net, x, m, user)
    requires step.End? ==> step.sender != x
    ensures IsMissing(Next(net, step), x, m, user)
  {
    hide NoDup, Published, Pushed, UsersAt;
  }

  ghost predicate AbsentThroughout(run: seq<Network>, k: nat, n: nat, node: nat, user: UserId)
    requires n < |run|
  {
    forall j, id :: k <= j <= n && id in run[j].live && id in run[j].home ==> run[j].home[id] != Home(node, user)
  }

  // The send that step k begins does not end before step n.
  ghost predicate SendsOn(steps: seq<Step>, k: nat, n: nat)
    requires k < n <= |steps| && steps[k].Begin?
  {
    forall j :: k <= j < n && steps[j].End? ==> steps[j].sender != steps[k].sender
  }

  lemma {:induction false} DuringAbsence(run: seq<Network>, steps: seq<Step>, k: nat, n: nat, user: UserId)
    requires IsRun(run, steps) && k < n < |run| && steps[k].Begin? && user in steps[k].users
    requires steps[k].sender in run[k].at
    requires AbsentThroughout(run, k, n - 1, run[k].at[steps[k].sender], user) && SendsOn(steps, k, n)
    ensures steps[k].sender in run[n].at && run[n].at[steps[k].sender] == run[k].at[steps[k].sender]
    ensures IsMissing(run[n], steps[k].sender, steps[k].message, user)
  {
    hide IsRun, Next, Enabled, Inv, IsMissing, UsersAt;
    StepAt(run, steps, n);
    if k < n - 1 {
      DuringAbsence(run, steps, k, n - 1, user);
      SenderStays(run[n - 1], steps[n - 1], steps[k].sender);
      NobodyHere(run[n - 1], run[k].at[steps[k].sender], user);
      StaysMissing(run[n - 1], steps[n - 1], steps[k].sender, steps[k].message, user);
    } else {
      SenderStays(run[k], steps[k], steps[k].sender);
      BegunIsMissing(run[k], steps[k], user);
    }
  }

  lemma BegunIsMissing(net: Network, step: Step, user: UserId)
    requires Enabled(net, step) && step.Begin? && user in step.users
    ensures IsMissing(Next(net, step), step.sender, step.message, user)
  {
  }

  // A link gains one payload, with the message and the target.
  predicate GainsTarget(link: seq<Payload>, link': seq<Payload>, source: string, m: MessageId, user: UserId) {
    && |link'| == |link| + 1 && link'[..|link|] == link
    && link'[|link|].source == source && link'[|link|].message == m && user in link'[|link|].targets
  }

  // A member with no session at the origin while the message is sent is named
  // in the payload that every link from there gets at the end of the send, if
  // the node is connected to Redis and publishing succeeds.
  lemma AbsentMembersArePublished(run: seq<Network>, steps: seq<Step>, k: nat, e: nat, user: UserId, d: nat)
    requires IsRun(run, steps) && k < e < |steps| && steps[k].Begin? && user in steps[k].users
    requires steps[k].sender in run[k].at && run[k].at[steps[k].sender] < |run[e].nodes| && d < |run[e].nodes|
    requires AbsentThroughout(run, k, e - 1, run[k].at[steps[k].sender], user) && SendsOn(steps, k, e)
    requires steps[e] == End(steps[k].sender, true) && !run[e].nodes[run[k].at[steps[k].sender]].disabled
    ensures var s := run[k].at[steps[k].sender];
            && (s, d) in run[e].links && (s, d) in run[e + 1].links
            && GainsTarget(run[e].links[(s, d)], run[e + 1].links[(s, d)], run[e].nodes[s].id, steps[k].message, user)
  {
    hide IsRun, Next, Inv, IsMissing, UsersAt, Published, NoDup, Enabled, AfterEnd, GainsTarget, AbsentThroughout, SendsOn;
    RunLength(run, steps);
    StepAt(run, steps, e + 1);
    EndStep(run[e], steps[k].sender);
    DuringAbsence(run, steps, k, e, user);
    EndedPublishes(run[e], steps[k].sender, steps[k].message, user, d);
  }

  lemma EndStep(net: Network, x: nat)
    requires Enabled(net, End(x, true))
    ensures Next(net, End(x, true)) == AfterEnd(net, x, true)
  {
  }

  lemma EndedPublishes(net: Network, x: nat, m: MessageId, user: UserId, d: nat)
    requires Inv(net) && Enabled(net, End(x, true)) && IsMissing(net, x, m, user) && !net.nodes[net.at[x]].disabled
    requires d < |net.nodes|
    ensures (net.at[x], d) in net.links && (net.at[x], d) in AfterEnd(net, x, true).links
    ensures GainsTarget(net.links[(net.at[x], d)], AfterEnd(net, x, true).links[(net.at[x], d)], net.nodes[net.at[x]].id, m, user)
  {
    hide GoodLink, GoodHandling, GoodInbox, Supplied, SendsMatch;
  }

  // The payload with the message is being delivered, and the user's turn is still to come.
  predicate IsAwaited(net: Network, d: nat, m: MessageId, user: UserId) {
    d in net.handling && net.handling[d].payload.message == m && user in net.handling[d].rest
  }

  lemma StaysAwaited(net: Network, step: Step, d: nat, m: MessageId, id: SessionId)
    requires Enabled(net, step) && Reaches(net, id, d) && id in net.inbox
    requires IsAwaited(net, d, m, net.home[id].user)
    ensures var net' := Next(net, step);
            IsAwaited(net', d, m, net.home[id].user) || (id in net'.inbox && m in net'.inbox[id])
  {
    hide NoDup, Published, UsersAt;
    if step == Deliver(d) && net.handling[d].rest[0] == net.home[id].user {
      assert Pushed(net, d, m, net.home[id].user)[id] == net.inbox[id] + [m];
    }
  }

  lemma {:induction false} DuringDelivery(run: seq<Network>, steps: seq<Step>, k: nat, n: nat, id: SessionId, home: Home)
    requires IsRun(run, steps) && k < n < |run| && steps[k].Handle? && steps[k].dst == home.node
    requires Enabled(run[k], steps[k])
    requires var p := run[k].links[(steps[k].src, home.node)][0];
             home.user in p.targets && p.source != run[k].nodes[home.node].id
    requires ReachedThroughout(run, k, n, id, home)
    ensures var m := run[k].links[(steps[k].src, home.node)][0].message;
            IsAwaited(run[n], home.node, m, home.user) || m in run[n].inbox[id]
  {
    hide IsRun, Next, Inv, IsAwaited, Grown;
    StepAt(run, steps, n);
    var m := run[k].links[(steps[k].src, home.node)][0].message;
    if k < n - 1 {
      DuringDelivery(run, steps, k, n - 1, id, home);
      if m in run[n - 1].inbox[id] {
        StillThere(run, steps, n - 1, n, id, m);
      } else {
        StaysAwaited(run[n - 1], steps[n - 1], home.node, m, id);
      }
    } else {
      HandledIsAwaited(run[k], steps[k].src, home.node, home.user);
    }
  }

  lemma HandledIsAwaited(net: Network, s: nat, d: nat, user: UserId)
    requires Enabled(net, Handle(s, d))
    requires user in net.links[(s, d)][0].targets && net.links[(s, d)][0].source != net.nodes[d].id
    ensures IsAwaited(Next(net, Handle(s, d)), d, net.links[(s, d)][0].message, user)
  {
  }

  // A target's session that can be reached on a node of another node id while
  // that node delivers the payload has the message exactly once from the end
  // of the delivery on.
  lemma RemoteTargetsGetItOnce(run: seq<Network>, steps: seq<Step>, k: nat, e: nat, n: nat, id: SessionId, home: Home)
    requires IsRun(run, steps) && k < e <= n < |run| && steps[k].Handle? && steps[k].dst == home.node
    requires Enabled(run[k], steps[k])
    requires var p := run[k].links[(steps[k].src, home.node)][0];
             home.user in p.targets && p.source != run[k].nodes[home.node].id
    requires ReachedThroughout(run, k, e, id, home)
    requires home.node in run[e].handling ==>
               run[e].handling[home.node].payload.message != run[k].links[(steps[k].src, home.node)][0].message
    ensures id in run[n].inbox && multiset(run[n].inbox[id])[run[k].links[(steps[k].src, home.node)][0].message] == 1
  {
    DuringDelivery(run, steps, k, e, id, home);
    OnceForever(run, steps, e, n, id, run[k].links[(steps[k].src, home.node)][0].message);
  }

  // A payload on the link will bring the message to the user.
  ghost predicate Carries(link: seq<Payload>, receiver: string, m: MessageId, user: UserId) {
    exists p :: p in link && p.message == m && user in p.targets && p.source != receiver
  }

  // The message is on the link to node d for the user, or is being delivered there.
  ghost predicate OnItsWay(net: Network, s: nat, d: nat, m: MessageId, user: UserId) {
    && d < |net.nodes| && (s, d) in net.links
    && (Carries(net.links[(s, d)], net.nodes[d].id, m, user) || IsAwaited(net, d, m, user))
  }

  lemma StaysOnItsWay(net: Network, step: Step, s: nat, d: nat, m: MessageId, id: SessionId)
    requires Enabled(net, step) && step != Lose(s, d) && Reaches(net, id, d) && id in net.inbox
    requires OnItsWay(net, s, d, m, net.home[id].user)
    ensures OnItsWay(Next(net, step), s, d, m, net.home[id].user)
         || (id in Next(net, step).inbox && m in Next(net, step).inbox[id])
  {
    hide Next, Enabled, Carries;
    Frame(net, step);
    LinksKeep(net, step);
    if IsAwaited(net, d, m, net.home[id].user) {
      StaysAwaited(net, step, d, m, id);
    } else {
      LinkCarriesOn(net, step, s, d, m, net.home[id].user);
    }
  }

  lemma LinkCarriesOn(net: Network, step: Step, s: nat, d: nat, m: MessageId, user: UserId)
    requires Enabled(net, step) && step != Lose(s, d) && d < |net.nodes| && (s, d) in net.links
    requires Carries(net.links[(s, d)], net.nodes[d].id, m, user)
    ensures (s, d) in Next(net, step).links
    ensures Carries(Next(net, step).links[(s, d)], net.nodes[d].id, m, user) || IsAwaited(Next(net, step), d, m, user)
  {
    var p :| p in net.links[(s, d)] && p.message == m && user in p.targets && p.source != net.nodes[d].id;
    hide UsersAt, Pushed, NoDup, Published;
    if step != Handle(s, d) {
      assert p in Next(net, step).links[(s, d)];
    } else if p != net.links[(s, d)][0] {
      assert p in net.links[(s, d)][1..];
    }
  }

  lemma {:induction false} DuringTransfer(run: seq<Network>, steps: seq<Step>, k: nat, n: nat, s: nat, m: MessageId, id: SessionId, home: Home)
    requires IsRun(run, steps) && k <= n < |run| && OnItsWay(run[k], s, home.node, m, home.user)
    requires ReachedThroughout(run, k, n, id, home) && NothingLost(steps, k, n, s, home.node)
    ensures OnItsWay(run[n], s, home.node, m, home.user) || m in run[n].inbox[id]
  {
    hide IsRun, Next, Enabled, Inv, OnItsWay, Grown;
    if k < n {
      DuringTransfer(run, steps, k, n - 1, s, m, id, home);
      StepAt(run, steps, n);
      if m in run[n - 1].inbox[id] {
        StillThere(run, steps, n - 1, n, id, m);
      } else {
        StaysOnItsWay(run[n - 1], steps[n - 1], s, home.node, m, id);
      }
    }
  }

  ghost predicate NothingLost(steps: seq<Step>, k: nat, n: nat, s: nat, d: nat)
    requires n <= |steps|
  {
    forall j :: k <= j < n ==> steps[j] != Lose(s, d)
  }

  // From one node to another: a member with no session at the origin while the
  // message is sent, whose session on another node stays reachable, has it
  // there exactly once as soon as the link is empty and no payload is in
  // delivery, if the message was published and the link has lost nothing since.
  lemma AbsentMembersGetItOnce(run: seq<Network>, steps: seq<Step>, k: nat, e: nat, n: nat, id: SessionId, home: Home)
    requires IsRun(run, steps) && k < e < n <= |steps| && steps[k].Begin? && home.user in steps[k].users
    requires steps[k].sender in run[k].at && run[k].at[steps[k].sender] < |run[e].nodes| && home.node < |run[e].nodes|
    requires AbsentThroughout(run, k, e - 1, run[k].at[steps[k].sender], home.user) && SendsOn(steps, k, e)
    requires steps[e] == End(steps[k].sender, true) && !run[e].nodes[run[k].at[steps[k].sender]].disabled
    requires run[e].nodes[run[k].at[steps[k].sender]].id != run[e].nodes[home.node].id
    requires ReachedThroughout(run, e + 1, n, id, home)
    requires NothingLost(steps, e + 1, n, run[k].at[steps[k].sender], home.node)
    requires (run[k].at[steps[k].sender], home.node) in run[n].links && run[n].links[(run[k].at[steps[k].sender], home.node)] == []
    requires home.node !in run[n].handling
    ensures id in run[n].inbox && multiset(run[n].inbox[id])[steps[k].message] == 1
  {
    var s, m := run[k].at[steps[k].sender], steps[k].message;
    RunLength(run, steps);
    hide IsRun, Next, Enabled, Inv, UsersAt, AbsentThroughout, SendsOn, ReachedThroughout, NothingLost, OnItsWay, GainsTarget, NoDup;
    AbsentMembersArePublished(run, steps, k, e, home.user, home.node);
    NodesStay(run, steps, e);
    GainedIsOnItsWay(run[e].links[(s, home.node)], run[e + 1], s, home.node, run[e].nodes[s].id, m, home.user);
    DuringTransfer(run, steps, e + 1, n, s, m, id, home);
    ThroughoutAtEnd(run, e + 1, n, id, home);
    NothingOnItsWay(run[n], s, home.node, m, home.user);
    OnceForever(run, steps, n, n, id, m);
  }

  lemma NodesStay(run: seq<Network>, steps: seq<Step>, e: nat)
    requires IsRun(run, steps) && e + 1 < |run|
    ensures run[e + 1].nodes == run[e].nodes
  {
    hide Inv, IsRun;
    Invariant(run, steps, e);
    Invariant(run, steps, e + 1);
  }

  lemma GainedIsOnItsWay(link: seq<Payload>, net: Network, s: nat, d: nat, source: string, m: MessageId, user: UserId)
    requires d < |net.nodes| && (s, d) in net.links && GainsTarget(link, net.links[(s, d)], source, m, user)
    requires source != net.nodes[d].id
    ensures OnItsWay(net, s, d, m, user)
  {
    var p := net.links[(s, d)][|link|];
    assert p in net.links[(s, d)];
  }

  lemma NothingOnItsWay(net: Network, s: nat, d: nat, m: MessageId, user: UserId)
    requires (s, d) in net.links && net.links[(s, d)] == [] && d !in net.handling
    ensures !OnItsWay(net, s, d, m, user)
  {
  }

  lemma ThroughoutAtEnd(run: seq<Network>, k: nat, n: nat, id: SessionId, home: Home)
    requires k <= n < |run| && ReachedThroughout(run, k, n, id, home)
    ensures id in run[n].inbox
  {
  }

  // ---------------------------------------------------------------------
  // Who on other nodes cannot get a message
  // ---------------------------------------------------------------------

  // The step finds that the user has no session where the message is sent.
  ghost predicate TurnsAway(net: Network, step: Step, m: MessageId, user: UserId) {
    && step.Look? && step.sender in net.at && step.sender in net.sends && net.sends[step.sender].rest != []
    && net.sends[step.sender].message == m && net.sends[step.sender].rest[0] == user
    && forall id :: id in net.live && id in net.home ==> net.home[id] != Home(net.at[step.sender], user)
  }

  // The step publishes the message.
  predicate Publishes(net: Network, step: Step, m: MessageId) {
    && step.End? && step.published && step.sender in net.at && step.sender in net.sends && net.sends[step.sender].message == m
    && net.at[step.sender] < |net.nodes| && !net.nodes[net.at[step.sender]].disabled
  }

  ghost predicate WasTurnedAway(run: seq<Network>, steps: seq<Step>, n: nat, m: MessageId, user: UserId)
    requires n <= |steps| < |run|
  {
    exists j: nat :: j < n && TurnsAway(run[j], steps[j], m, user)
  }

  ghost predicate WasPublished(run: seq<Network>, steps: seq<Step>, n: nat, m: MessageId)
    requires n <= |steps| < |run|
  {
    exists j: nat :: j < n && Publishes(run[j], steps[j], m)
  }

  ghost predicate Unmarked(net: Network, m: MessageId, user: UserId) {
    forall x :: x in net.sends && net.sends[x].message == m ==> user !in net.sends[x].remote
  }

  ghost predicate NotOnLinks(net: Network, m: MessageId, user: UserId) {
    forall l, p :: l in net.links && p in net.links[l] && p.message == m ==> user !in p.targets
  }

  ghost predicate NotInDelivery(net: Network, m: MessageId, user: UserId) {
    forall d :: d in net.handling && net.handling[d].payload.message == m ==> user !in net.handling[d].rest
  }

  ghost predicate NotAway(net: Network, m: MessageId, user: UserId) {
    forall id :: id in net.inbox && id in net.home && m in net.log && net.home[id].user == user && net.home[id].node != net.log[m].origin ==>
      m !in net.inbox[id]
  }

  // No session of the user on another node has the message, and nothing on
  // the way there brings it.
  ghost predicate OutOfReach(net: Network, m: MessageId, user: UserId) {
    NotOnLinks(net, m, user) && NotInDelivery(net, m, user) && NotAway(net, m, user)
  }

  lemma UnmarkedStays(net: Network, step: Step, m: MessageId, user: UserId)
    requires Enabled(net, step) && Unmarked(net, m, user) && !TurnsAway(net, step, m, user)
    ensures Unmarked(Next(net, step), m, user)
  {
    if step.Look? {
      NobodyHere(net, net.at[step.sender], user);
    }
    hide NoDup, UsersAt, Pushed, Published;
  }

  lemma LinksStayOut(net: Network, step: Step, m: MessageId, user: UserId)
    requires Enabled(net, step) && NotOnLinks(net, m, user)
    requires Unmarked(net, m, user) || !Publishes(net, step, m)
    ensures NotOnLinks(Next(net, step), m, user)
  {
    hide NoDup, UsersAt, Pushed;
  }

  lemma DeliveryStaysOut(net: Network, step: Step, m: MessageId, user: UserId)
    requires Inv(net) && Enabled(net, step) && NotInDelivery(net, m, user) && NotOnLinks(net, m, user)
    ensures NotInDelivery(Next(net, step), m, user)
  {
    hide Next, Enabled, SendsMatch, GoodLink, GoodHandling, GoodInbox, Supplied, Meshed, NoDup, UsersAt, Pushed;
    forall d | d in Next(net, step).handling && Next(net, step).handling[d].payload.message == m
      ensures user !in Next(net, step).handling[d].rest
    {
      if d in net.handling {
        HandlingFacts(net, d);
        HandledRest(net, step, d);
      } else {
        HandlingBegins(net, step, d);
        assert net.links[(step.src, d)][0] in net.links[(step.src, d)];
      }
    }
  }

  lemma SessionsStayOut(net: Network, step: Step, m: MessageId, user: UserId)
    requires Inv(net) && Enabled(net, step) && NotInDelivery(net, m, user) && NotAway(net, m, user)
    ensures NotAway(Next(net, step), m, user)
  {
    hide Next, Enabled, SendsMatch, GoodLink, GoodHandling, GoodInbox, Supplied, Meshed, NoDup, UsersAt, Pushed;
    var net' := Next(net, step);
    forall id | id in net'.inbox && id in net'.home && m in net'.log && net'.home[id].user == user && net'.home[id].node != net'.log[m].origin
      ensures m !in net'.inbox[id]
    {
      InboxAfter(net, step, id);
      if id in net.inbox {
        OriginStays(net, step, m, id);
        if PushedTo(net, step, id) {
          OpenSend(net, step.sender);
        }
      }
    }
  }

  lemma OriginStays(net: Network, step: Step, m: MessageId, id: SessionId)
    requires Inv(net) && Enabled(net, step) && m in Next(net, step).log && id in net.inbox
    ensures m in net.log ==> Next(net, step).log[m].origin == net.log[m].origin
    ensures m !in net.log ==> m !in net.inbox[id] && step.Begin? && step.message == m
  {
    hide Next, Enabled, SendsMatch, GoodLink, GoodHandling, Supplied, Meshed;
    HistoryStays(net, step);
    NewlyLogged(net, step, m);
    assert GoodInbox(net, id);
  }

  lemma {:induction false} Explained(run: seq<Network>, steps: seq<Step>, n: nat, m: MessageId, user: UserId)
    requires IsRun(run, steps) && n <= |steps| < |run|
    ensures WasTurnedAway(run, steps, n, m, user) || (Unmarked(run[n], m, user) && OutOfReach(run[n], m, user))
    ensures WasPublished(run, steps, n, m) || OutOfReach(run[n], m, user)
  {
    NothingSent(run, steps);
    hide IsRun, Next, Enabled, Inv, Unmarked, NotOnLinks, NotInDelivery, NotAway, TurnsAway, Publishes;
    if n == 0 {
      NothingOut(run[0], m, user);
    } else {
      StepAt(run, steps, n);
      Explained(run, steps, n - 1, m, user);
      if OutOfReach(run[n - 1], m, user) {
        DeliveryStaysOut(run[n - 1], steps[n - 1], m, user);
        SessionsStayOut(run[n - 1], steps[n - 1], m, user);
        if Unmarked(run[n - 1], m, user) || !Publishes(run[n - 1], steps[n - 1], m) {
          LinksStayOut(run[n - 1], steps[n - 1], m, user);
        }
      }
      if Unmarked(run[n - 1], m, user) && !TurnsAway(run[n - 1], steps[n - 1], m, user) {
        UnmarkedStays(run[n - 1], steps[n - 1], m, user);
      }
    }
  }

  lemma NothingOut(net: Network, m: MessageId, user: UserId)
    requires net.sends == map[] && net.handling == map[] && net.inbox == map[] && forall l :: l in net.links ==> net.links[l] == []
    ensures Unmarked(net, m, user) && OutOfReach(net, m, user)
  {
  }

  // A session away from the origin can have a message only if its user is in
  // the member list, was found without a session at the origin when its turn
  // came, and the message was published: a user's devices on other nodes go
  // without it whenever one device is connected where the message is sent.
  lemma OtherNodesGetItOnlyIfAbsent(run: seq<Network>, steps: seq<Step>, n: nat, id: SessionId, m: MessageId)
    requires IsRun(run, steps) && n <= |steps| < |run|
    requires id in run[n].inbox && m in run[n].inbox[id]
    ensures id in run[n].home && m in run[n].log
    ensures run[n].home[id].node != run[n].log[m].origin ==>
              && run[n].home[id].user in run[n].log[m].members
              && WasTurnedAway(run, steps, n, m, run[n].home[id].user)
              && WasPublished(run, steps, n, m)
  {
    AtMostOnceInOrder(run, steps, n, id);
    Explained(run, steps, n, m, run[n].home[id].user);
    hide IsRun, WasTurnedAway, WasPublished;
  }
}
