/** Delivery across nodes: every interleaving of sends, pub/sub and sessions coming and going. */
module Delivery {
  import opened Base

  datatype Node = Node(id: string, disabled: bool)

  datatype Home = Home(node: nat, user: UserId)

  datatype Payload = Payload(source: string, targets: seq<UserId>, message: MessageId)

  // A send in progress: the members still to be gone through, whether the
  // first of them was found connected, and those found not to be.
  datatype Send = Send(message: MessageId, rest: seq<UserId>, found: bool, remote: seq<UserId>)

  // A payload that a node is delivering, and the targets still to be served.
  datatype Handling = Handling(payload: Payload, rest: seq<UserId>)

  // The history of a message: where and by whom it was sent, to which member
  // list, and when its send began and ended.
  datatype Record = Record(origin: nat, sender: nat, members: seq<UserId>, began: nat, ended: Option<nat>)

  // `home` knows every session ever opened, `live` those registered, `hungUp`
  // those whose pipe has no reader. A sender is a reader loop or a REST request
  // on the node `at`; it awaits one send before it begins the next. A link
  // carries what one node published to another. `log` and `clock` only record
  // what happened.
  datatype Network = Network(
    nodes: seq<Node>,
    home: map<SessionId, Home>,
    live: set<SessionId>,
    hungUp: set<SessionId>,
    inbox: map<SessionId, seq<MessageId>>,
    at: map<nat, nat>,
    sends: map<nat, Send>,
    links: map<(nat, nat), seq<Payload>>,
    handling: map<nat, Handling>,
    log: map<MessageId, Record>,
    clock: nat)

  datatype Step =
    | Open(session: SessionId, node: nat, user: UserId)
    | HangUp(session: SessionId)
    | Close(session: SessionId)
    | Attach(sender: nat, node: nat)
    | Begin(sender: nat, message: MessageId, users: seq<UserId>)
    | Look(sender: nat)
    | Push(sender: nat)
    | End(sender: nat, published: bool)
    | Lose(src: nat, dst: nat)
    | Handle(src: nat, dst: nat)
    | Deliver(node: nat)

  ghost predicate Init(net: Network) {
    && net.home == map[] && net.live == {} && net.hungUp == {} && net.inbox == map[]
    && net.at == map[] && net.sends == map[] && net.handling == map[] && net.log == map[]
    && Meshed(net.links, |net.nodes|)
    && (forall l :: l in net.links ==> net.links[l] == [])
  }

  // The member list of a channel names nobody twice: it is selected by the
  // primary keys of the channel and of the guild membership.
  ghost predicate Enabled(net: Network, step: Step) {
    match step
    case Open(id, n, _) => id !in net.home && n < |net.nodes|
    case HangUp(id) => id in net.home
    case Close(id) => id in net.live
    case Attach(x, n) => x !in net.at && n < |net.nodes|
    case Begin(x, m, users) => x in net.at && x !in net.sends && m !in net.log && NoDup(users)
    case Look(x) => x in net.at && x in net.sends && net.sends[x].rest != [] && !net.sends[x].found
    case Push(x) => x in net.at && x in net.sends && net.sends[x].rest != [] && net.sends[x].found
    case End(x, _) => x in net.at && net.at[x] < |net.nodes| && x in net.sends && net.sends[x].rest == [] && net.sends[x].message in net.log
    case Lose(s, d) => (s, d) in net.links && net.links[(s, d)] != []
    case Handle(s, d) =>
      d < |net.nodes| && !net.nodes[d].disabled && d !in net.handling && (s, d) in net.links && net.links[(s, d)] != []
    case Deliver(d) => d in net.handling
  }

  predicate Reaches(net: Network, id: SessionId, n: nat) {
    id in net.live && id !in net.hungUp && id in net.home && net.home[id].node == n
  }

  // The users with a registered session on one node.
  function UsersAt(net: Network, n: nat): set<UserId> {
    set id | id in net.live && id in net.home && net.home[id].node == n :: net.home[id].user
  }

  // The push to every session of one user on one node.
  function Pushed(net: Network, n: nat, m: MessageId, user: UserId): (inbox: map<SessionId, seq<MessageId>>)
    ensures inbox.Keys == net.inbox.Keys
  {
    map id | id in net.inbox ::
      if Reaches(net, id, n) && net.home[id].user == user then net.inbox[id] + [m] else net.inbox[id]
  }

  function AfterLook(net: Network, x: nat): Network
    requires x in net.at && x in net.sends && net.sends[x].rest != []
  {
    var send := net.sends[x];
    net.(sends := net.sends[x := if send.rest[0] in UsersAt(net, net.at[x]) then send.(found := true)
                                 else send.(rest := send.rest[1..], remote := send.remote + [send.rest[0]])])
  }

  function AfterPush(net: Network, x: nat): Network
    requires x in net.at && x in net.sends && net.sends[x].rest != []
  {
    var send := net.sends[x];
    net.(inbox := Pushed(net, net.at[x], send.message, send.rest[0]),
         sends := net.sends[x := send.(rest := send.rest[1..], found := false)])
  }

  // What a send publishes at its end, unless publishing fails.
  function Published(net: Network, x: nat): Payload
    requires x in net.at && net.at[x] < |net.nodes| && x in net.sends
  {
    Payload(net.nodes[net.at[x]].id, net.sends[x].remote, net.sends[x].message)
  }

  function AfterEnd(net: Network, x: nat, published: bool): Network
    requires x in net.at && net.at[x] < |net.nodes| && x in net.sends && net.sends[x].message in net.log
  {
    var send, n := net.sends[x], net.at[x];
    var links := if send.remote != [] && !net.nodes[n].disabled && published
                 then map l | l in net.links :: if l.0 == n then net.links[l] + [Published(net, x)] else net.links[l]
                 else net.links;
    net.(sends := net.sends - {x}, links := links,
         log := net.log[send.message := net.log[send.message].(ended := Some(net.clock))], clock := net.clock + 1)
  }

  // The subscriber skips what its own node published.
  function AfterHandle(net: Network, s: nat, d: nat): Network
    requires d < |net.nodes| && (s, d) in net.links && net.links[(s, d)] != []
  {
    var p := net.links[(s, d)][0];
    net.(links := net.links[(s, d) := net.links[(s, d)][1..]],
         handling := if p.source == net.nodes[d].id then net.handling else net.handling[d := Handling(p, p.targets)])
  }

  // The next target is served, or the delivery is over.
  function Served(handling: map<nat, Handling>, d: nat): map<nat, Handling>
    requires d in handling
  {
    var h := handling[d];
    if h.rest == [] then handling - {d} else handling[d := h.(rest := h.rest[1..])]
  }

  function AfterDeliver(net: Network, d: nat): Network
    requires d in net.handling
  {
    var h := net.handling[d];
    net.(inbox := if h.rest == [] then net.inbox else Pushed(net, d, h.payload.message, h.rest[0]),
         handling := Served(net.handling, d))
  }

  ghost function Next(net: Network, step: Step): Network
    requires Enabled(net, step)
  {
    match step
    case Open(id, n, user) =>
      net.(home := net.home[id := Home(n, user)], live := net.live + {id}, inbox := net.inbox[id := []])
    case HangUp(id) => net.(hungUp := net.hungUp + {id})
    case Close(id) => net.(live := net.live - {id})
    case Attach(x, n) => net.(at := net.at[x := n])
    case Begin(x, m, users) =>
      net.(sends := net.sends[x := Send(m, users, false, [])],
           log := net.log[m := Record(net.at[x], x, users, net.clock, None)], clock := net.clock + 1)
    case Look(x) => AfterLook(net, x)
    case Push(x) => AfterPush(net, x)
    case End(x, published) => AfterEnd(net, x, published)
    case Lose(s, d) => net.(links := net.links[(s, d) := net.links[(s, d)][1..]])
    case Handle(s, d) => AfterHandle(net, s, d)
    case Deliver(d) => AfterDeliver(net, d)
  }

  ghost predicate IsRun(run: seq<Network>, steps: seq<Step>) {
    && |run| == |steps| + 1
    && Init(run[0])
    && forall i :: 0 <= i < |steps| ==> Enabled(run[i], steps[i]) && run[i + 1] == Next(run[i], steps[i])
  }

  // ---------------------------------------------------------------------
  // The invariant
  // ---------------------------------------------------------------------

  // Both messages were sent on one node, and the send of a was over when that
  // of b began.
  predicate Precedes(log: map<MessageId, Record>, a: MessageId, b: MessageId) {
    && a in log && b in log && log[a].origin == log[b].origin
    && log[a].ended.Some? && log[a].ended.value < log[b].began
  }

  // There is a link from every node to every node.
  ghost predicate Meshed(links: map<(nat, nat), seq<Payload>>, n: nat) {
    forall s: nat, d: nat :: (s, d) in links <==> s < n && d < n
  }

  lemma MeshedStays(links: map<(nat, nat), seq<Payload>>, links': map<(nat, nat), seq<Payload>>, n: nat)
    requires Meshed(links, n) && links'.Keys == links.Keys
    ensures Meshed(links', n)
  {
    assert forall l :: l in links' <==> l in links;
  }

  ghost predicate Shape(net: Network) {
    && net.inbox.Keys == net.home.Keys
    && net.live <= net.home.Keys
    && Meshed(net.links, |net.nodes|)
    && (forall id :: id in net.home ==> net.home[id].node < |net.nodes|)
    && (forall x :: x in net.at ==> net.at[x] < |net.nodes|)
    && (forall x :: x in net.sends ==> x in net.at)
    && (forall d :: d in net.handling ==> d < |net.nodes|)
  }

  ghost predicate GoodRecord(net: Network, m: MessageId)
    requires m in net.log
  {
    var r := net.log[m];
    && r.sender in net.at && net.at[r.sender] == r.origin
    && r.began < net.clock
    && (if r.ended.Some? then r.began < r.ended.value < net.clock
        else r.sender in net.sends && net.sends[r.sender].message == m)
  }

  ghost predicate GoodSend(net: Network, x: nat)
    requires x in net.sends
  {
    var send := net.sends[x];
    && send.message in net.log && net.log[send.message].sender == x && net.log[send.message].ended.None?
    && NoDup(send.remote + send.rest)
    && (forall u :: u in send.remote + send.rest ==> u in net.log[send.message].members)
  }

  ghost predicate GoodPayload(net: Network, s: nat, p: Payload) {
    && s < |net.nodes| && p.source == net.nodes[s].id
    && p.message in net.log && net.log[p.message].origin == s && net.log[p.message].ended.Some?
    && NoDup(p.targets) && (forall u :: u in p.targets ==> u in net.log[p.message].members)
  }

  // No payload comes after one that its message does not.
  ghost predicate GoodLink(net: Network, s: nat, d: nat)
    requires (s, d) in net.links
  {
    var link := net.links[(s, d)];
    && (forall p :: p in link ==> GoodPayload(net, s, p))
    && (forall i, j :: 0 <= i < j < |link| ==>
          link[i].message != link[j].message && !Precedes(net.log, link[j].message, link[i].message))
  }

  ghost predicate GoodHandling(net: Network, d: nat)
    requires d in net.handling && d < |net.nodes|
  {
    var h := net.handling[d];
    && h.payload.message in net.log
    && var s := net.log[h.payload.message].origin;
       && GoodPayload(net, s, h.payload) && h.payload.source != net.nodes[d].id && (s, d) in net.links
       && NoDup(h.rest) && (forall u :: u in h.rest ==> u in h.payload.targets)
       && (forall p :: p in net.links[(s, d)] ==>
             p.message != h.payload.message && !Precedes(net.log, p.message, h.payload.message))
  }

  ghost predicate GoodInbox(net: Network, id: SessionId)
    requires id in net.inbox && id in net.home
  {
    var inbox := net.inbox[id];
    && (forall m :: m in inbox ==> m in net.log && net.home[id].user in net.log[m].members)
    && (forall i, j :: 0 <= i < j < |inbox| ==> inbox[i] != inbox[j] && !Precedes(net.log, inbox[j], inbox[i]))
  }

  // What a session has is no longer due to it from its sender, or was published.
  ghost predicate NotDue(net: Network, id: SessionId, m: MessageId)
    requires id in net.home && m in net.log
  {
    var d, user, r := net.home[id].node, net.home[id].user, net.log[m];
    if r.origin == d then r.sender in net.sends && net.sends[r.sender].message == m ==> user !in net.sends[r.sender].rest
    else r.ended.Some?
  }

  // No payload on a link from another node is the message or should have come before it.
  ghost predicate NotLinked(net: Network, d: nat, m: MessageId) {
    forall s: nat, p :: s != d && (s, d) in net.links && p in net.links[(s, d)] ==>
      p.message != m && !Precedes(net.log, p.message, m)
  }

  // Nor does the payload that is being delivered bring it to the user.
  ghost predicate NotHandled(net: Network, d: nat, user: UserId, m: MessageId) {
    d in net.handling ==>
      var h := net.handling[d];
      (h.payload.message == m ==> user !in h.rest) && !Precedes(net.log, h.payload.message, m)
  }

  // Nothing still on its way to the session is a message that it has, or one
  // that should have come before it.
  ghost predicate Supplied(net: Network, id: SessionId, m: MessageId)
    requires id in net.home && m in net.log
  {
    && NotDue(net, id, m)
    && NotLinked(net, net.home[id].node, m)
    && NotHandled(net, net.home[id].node, net.home[id].user, m)
  }

  // A message is open if and only if it is the one its sender is sending.
  ghost predicate SendsMatch(net: Network) {
    && (forall m :: m in net.log ==> GoodRecord(net, m))
    && (forall x :: x in net.sends ==> GoodSend(net, x))
  }

  ghost predicate Inv(net: Network) {
    && Shape(net)
    && SendsMatch(net)
    && (forall s: nat, d: nat :: (s, d) in net.links ==> GoodLink(net, s, d))
    && (forall d :: d in net.handling ==> GoodHandling(net, d))
    && (forall id :: id in net.inbox ==> GoodInbox(net, id))
    && (forall id, m :: id in net.inbox && m in net.inbox[id] ==> Supplied(net, id, m))
  }

  // ---------------------------------------------------------------------
  // Steps keep the invariant
  // ---------------------------------------------------------------------

  // Which parts of the network a step leaves alone.
  ghost predicate Untouched(net: Network, net': Network, step: Step) {
    && net'.nodes == net.nodes
    && (!step.Open? ==> net'.home == net.home)
    && (!IsSendStep(step) ==> net'.sends == net.sends)
    && (!step.Begin? && !step.End? ==> net'.log == net.log)
    && (!step.Handle? && !step.Deliver? ==> net'.handling == net.handling)
    && (!step.End? && !step.Lose? && !step.Handle? ==> net'.links == net.links)
  }

  lemma Frame(net: Network, step: Step)
    requires Enabled(net, step)
    ensures Untouched(net, Next(net, step), step)
  {
    hide Pushed, UsersAt, Published, NoDup;
    if IsSendStep(step) {
      SendFrame(net, step);
    }
  }

  lemma SendFrame(net: Network, step: Step)
    requires Enabled(net, step) && IsSendStep(step)
    ensures Untouched(net, Next(net, step), step)
  {
    hide Pushed, UsersAt, Published, NoDup;
  }

  predicate IsSendStep(step: Step) {
    step.Begin? || step.Look? || step.Push? || step.End?
  }

  predicate IsLinkStep(step: Step) {
    step.Lose? || step.Handle? || step.Deliver?
  }

  lemma StepKeepsShape(net: Network, step: Step)
    requires Shape(net) && Enabled(net, step)
    ensures Shape(Next(net, step))
  {
    hide Pushed, UsersAt, Published, Meshed;
    if IsSendStep(step) {
      SendStepKeepsShape(net, step);
    } else if IsLinkStep(step) {
      LinkStepKeepsShape(net, step);
    }
  }

  lemma SendStepKeepsShape(net: Network, step: Step)
    requires Shape(net) && Enabled(net, step) && IsSendStep(step)
    ensures Shape(Next(net, step))
  {
    hide Pushed, UsersAt, Published, Meshed;
    assert Next(net, step).links.Keys == net.links.Keys;
    MeshedStays(net.links, Next(net, step).links, |net.nodes|);
  }

  lemma LinkStepKeepsShape(net: Network, step: Step)
    requires Shape(net) && Enabled(net, step) && IsLinkStep(step)
    ensures Shape(Next(net, step))
  {
    hide Pushed, UsersAt, Published, Meshed;
    assert Next(net, step).links.Keys == net.links.Keys;
    MeshedStays(net.links, Next(net, step).links, |net.nodes|);
  }

  lemma NoDupWithout(a: seq<UserId>, x: UserId, b: seq<UserId>)
    requires NoDup(a + [x] + b)
    ensures NoDup(a + b) && x !in a && x !in b
  {
    var whole, rest := a + [x] + b, a + b;
    assert whole[|a|] == x;
    assert forall i :: 0 <= i < |a| ==> whole[i] == a[i] == rest[i];
    forall i | 0 <= i < |b| ensures whole[|a| + 1 + i] == b[i] == rest[|a| + i] {}
    forall i, j | 0 <= i < j < |rest| ensures rest[i] != rest[j] {
      assert rest[i] == whole[if i < |a| then i else i + 1];
      assert rest[j] == whole[if j < |a| then j else j + 1];
    }
  }

  lemma BeginKeepsSendsMatch(net: Network, x: nat, m: MessageId, users: seq<UserId>)
    requires SendsMatch(net) && Enabled(net, Begin(x, m, users))
    ensures SendsMatch(Next(net, Begin(x, m, users)))
  {
    var net' := Next(net, Begin(x, m, users));
    assert [] + users == users;
    forall k | k in net.log ensures GoodRecord(net', k) {
      assert GoodRecord(net, k);
    }
    forall y | y in net.sends ensures GoodSend(net', y) {
      assert GoodSend(net, y);
    }
  }

  lemma EndKeepsSendsMatch(net: Network, x: nat, published: bool)
    requires SendsMatch(net) && Enabled(net, End(x, published))
    ensures SendsMatch(AfterEnd(net, x, published))
  {
    var net' := AfterEnd(net, x, published);
    assert GoodSend(net, x);
    forall k | k in net.log ensures GoodRecord(net', k) {
      assert GoodRecord(net, k);
    }
    forall y | y in net'.sends ensures GoodSend(net', y) {
      assert GoodSend(net, y);
    }
  }

  // A change of one send that goes on with the same message.
  lemma SendGoesOn(net: Network, x: nat, send: Send, net': Network)
    requires SendsMatch(net) && x in net.sends && send.message == net.sends[x].message
    requires net'.sends == net.sends[x := send]
    requires net'.log == net.log && net'.at == net.at && net'.clock == net.clock
    requires NoDup(send.remote + send.rest)
    requires forall u :: u in send.remote + send.rest ==> u in net.sends[x].remote + net.sends[x].rest
    ensures SendsMatch(net')
  {
    assert GoodSend(net, x);
    forall k | k in net.log ensures GoodRecord(net', k) {
      assert GoodRecord(net, k);
    }
    forall y | y in net'.sends ensures GoodSend(net', y) {
      assert GoodSend(net, y);
    }
  }

  lemma LookKeepsSendsMatch(net: Network, x: nat)
    requires SendsMatch(net) && Enabled(net, Look(x))
    ensures SendsMatch(AfterLook(net, x))
  {
    var send := net.sends[x];
    assert GoodSend(net, x);
    assert send.remote + send.rest == send.remote + [send.rest[0]] + send.rest[1..];
    SendGoesOn(net, x, AfterLook(net, x).sends[x], AfterLook(net, x));
  }

  lemma PushKeepsSendsMatch(net: Network, x: nat)
    requires SendsMatch(net) && Enabled(net, Push(x))
    ensures SendsMatch(AfterPush(net, x))
  {
    var send := net.sends[x];
    assert GoodSend(net, x);
    assert send.remote + send.rest == send.remote + [send.rest[0]] + send.rest[1..];
    NoDupWithout(send.remote, send.rest[0], send.rest[1..]);
    SendGoesOn(net, x, AfterPush(net, x).sends[x], AfterPush(net, x));
  }

  lemma StepKeepsSendsMatch(net: Network, step: Step)
    requires SendsMatch(net) && Enabled(net, step)
    ensures SendsMatch(Next(net, step))
  {
    match step
    case Begin(x, m, users) => BeginKeepsSendsMatch(net, x, m, users);
    case Look(x) => LookKeepsSendsMatch(net, x);
    case Push(x) => PushKeepsSendsMatch(net, x);
    case End(x, published) => EndKeepsSendsMatch(net, x, published);
    case Attach(_, _) => AttachKeepsSendsMatch(net, step.sender, step.node);
    case _ =>
      hide Pushed, UsersAt, SendsMatch;
      SendsMatchStays(net, Next(net, step));
  }

  lemma AttachKeepsSendsMatch(net: Network, x: nat, n: nat)
    requires SendsMatch(net) && Enabled(net, Attach(x, n))
    ensures SendsMatch(Next(net, Attach(x, n)))
  {
    forall k | k in net.log ensures GoodRecord(Next(net, Attach(x, n)), k) {
      assert GoodRecord(net, k);
    }
    forall y | y in net.sends ensures GoodSend(Next(net, Attach(x, n)), y) {
      assert GoodSend(net, y);
    }
  }

  lemma SendsMatchStays(net: Network, net': Network)
    requires SendsMatch(net)
    requires net'.at == net.at && net'.sends == net.sends && net'.log == net.log && net'.clock == net.clock
    ensures SendsMatch(net')
  {
    forall k | k in net.log ensures GoodRecord(net', k) {
      assert GoodRecord(net, k);
    }
    forall y | y in net.sends ensures GoodSend(net', y) {
      assert GoodSend(net, y);
    }
  }

  // What is known about a message stays, and so does the order of two.
  ghost predicate SameHistory(log: map<MessageId, Record>, log': map<MessageId, Record>) {
    && (forall m :: m in log ==>
          && m in log'
          && log'[m].(ended := None) == log[m].(ended := None)
          && (log[m].ended.Some? ==> log'[m] == log[m]))
    && (forall a, b :: a in log && b in log ==> (Precedes(log', a, b) <==> Precedes(log, a, b)))
  }

  // Nothing that began before a send ends comes after its message.
  lemma EndedLast(log: map<MessageId, Record>, m: MessageId, clock: nat)
    requires m in log && log[m].ended.None? && forall k :: k in log ==> log[k].began < clock
    ensures var log' := log[m := log[m].(ended := Some(clock))];
            SameHistory(log, log') && forall k :: k in log ==> !Precedes(log', m, k)
  {
  }

  lemma HistoryStays(net: Network, step: Step)
    requires SendsMatch(net) && Enabled(net, step)
    ensures SameHistory(net.log, Next(net, step).log)
    ensures Next(net, step).nodes == net.nodes
  {
    hide SameHistory, Precedes, Pushed, UsersAt, SendsMatch;
    match step
    case Begin(_, m, _) => LogGrows(net.log, m, Next(net, step).log[m]);
    case End(x, published) => EndKeepsHistory(net, x, published);
    case _ => LogStays(net.log);
  }

  lemma LogGrows(log: map<MessageId, Record>, m: MessageId, r: Record)
    requires m !in log
    ensures SameHistory(log, log[m := r])
  {
  }

  lemma LogStays(log: map<MessageId, Record>)
    ensures SameHistory(log, log)
  {
  }

  lemma EndKeepsHistory(net: Network, x: nat, published: bool)
    requires SendsMatch(net) && Enabled(net, End(x, published))
    ensures SameHistory(net.log, AfterEnd(net, x, published).log)
    ensures forall m :: m in net.log ==> !Precedes(AfterEnd(net, x, published).log, net.sends[x].message, m)
  {
    assert GoodSend(net, x);
    forall k | k in net.log ensures net.log[k].began < net.clock {
      assert GoodRecord(net, k);
    }
    hide SameHistory, Precedes;
    EndedLast(net.log, net.sends[x].message, net.clock);
  }

  lemma PayloadStays(net: Network, net': Network, s: nat, p: Payload)
    requires SameHistory(net.log, net'.log) && net'.nodes == net.nodes && GoodPayload(net, s, p)
    ensures GoodPayload(net', s, p)
  {
  }

  lemma EndPublishes(net: Network, x: nat, published: bool)
    requires SendsMatch(net) && Enabled(net, End(x, published))
    ensures GoodPayload(AfterEnd(net, x, published), net.at[x], Published(net, x))
  {
    assert GoodSend(net, x) && GoodRecord(net, net.sends[x].message);
    assert net.sends[x].remote + [] == net.sends[x].remote;
  }

  // The link after a step: unchanged, without its head, or with one payload more.
  lemma LinkAfter(net: Network, step: Step, s: nat, d: nat)
    requires Enabled(net, step) && (s, d) in net.links
    ensures (s, d) in Next(net, step).links
    ensures var link, link' := net.links[(s, d)], Next(net, step).links[(s, d)];
            || link' == link
            || (link != [] && link' == link[1..])
            || (step.End? && net.at[step.sender] == s && link' == link + [Published(net, step.sender)])
  {
    hide UsersAt, Pushed;
  }

  lemma LinkStays(net: Network, net': Network, s: nat, d: nat)
    requires SameHistory(net.log, net'.log) && net'.nodes == net.nodes && (s, d) in net.links && (s, d) in net'.links && GoodLink(net, s, d)
    requires net'.links[(s, d)] == net.links[(s, d)] || (net.links[(s, d)] != [] && net'.links[(s, d)] == net.links[(s, d)][1..])
    ensures GoodLink(net', s, d)
  {
    var link, link' := net.links[(s, d)], net'.links[(s, d)];
    forall p | p in link' ensures GoodPayload(net', s, p) {
      assert p in link;
      PayloadStays(net, net', s, p);
    }
    assert forall p :: p in link ==> p.message in net.log;
    hide GoodPayload, Precedes;
  }

  lemma LinkGrows(net: Network, x: nat, published: bool, d: nat)
    requires SendsMatch(net) && Enabled(net, End(x, published))
    requires var s := net.at[x]; (s, d) in net.links && GoodLink(net, s, d)
    requires (net.at[x], d) in AfterEnd(net, x, published).links
    requires AfterEnd(net, x, published).links[(net.at[x], d)] == net.links[(net.at[x], d)] + [Published(net, x)]
    ensures GoodLink(AfterEnd(net, x, published), net.at[x], d)
  {
    var s, net' := net.at[x], AfterEnd(net, x, published);
    EndKeepsHistory(net, x, published);
    EndPublishes(net, x, published);
    forall p | p in net.links[(s, d)] ensures GoodPayload(net', s, p) && p.message != net.sends[x].message && p.message in net.log {
      assert GoodSend(net, x);
      PayloadStays(net, net', s, p);
    }
    hide GoodPayload, Precedes, SendsMatch;
  }

  lemma StepKeepsLink(net: Network, step: Step, s: nat, d: nat)
    requires SendsMatch(net) && Enabled(net, step) && (s, d) in net.links && GoodLink(net, s, d)
    ensures (s, d) in Next(net, step).links && GoodLink(Next(net, step), s, d)
  {
    hide GoodLink, SendsMatch, Pushed, UsersAt, SameHistory;
    HistoryStays(net, step);
    LinkAfter(net, step, s, d);
    if step.End? && net.at[step.sender] == s && Next(net, step).links[(s, d)] == net.links[(s, d)] + [Published(net, step.sender)] {
      LinkGrows(net, step.sender, step.published, d);
    } else {
      LinkStays(net, Next(net, step), s, d);
    }
  }

  lemma NewHandling(net: Network, net': Network, s: nat, d: nat)
    requires s < |net.nodes| && d < |net.nodes| && s != d && (s, d) in net.links && net.links[(s, d)] != [] && GoodLink(net, s, d)
    requires net'.nodes == net.nodes && net'.log == net.log && net'.links == net.links[(s, d) := net.links[(s, d)][1..]]
    requires d in net'.handling && net'.handling[d] == Handling(net.links[(s, d)][0], net.links[(s, d)][0].targets)
    requires net.links[(s, d)][0].source != net.nodes[d].id
    ensures GoodHandling(net', d)
  {
    var link := net.links[(s, d)];
    var p := link[0];
    assert p in link && GoodPayload(net, s, p);
    forall q | q in link[1..] ensures q.message != p.message && !Precedes(net.log, q.message, p.message) {
      var i :| 0 <= i < |link[1..]| && link[1..][i] == q;
      assert link[i + 1] == q;
    }
    hide Precedes, Meshed;
  }

  // A payload in delivery goes on, whatever happens to its link and its message's history.
  lemma HandlingStays(net: Network, net': Network, d: nat)
    requires d in net.handling && d < |net.nodes| && GoodHandling(net, d)
    requires d in net'.handling && net'.handling[d].payload == net.handling[d].payload
    requires NoDup(net'.handling[d].rest) && forall u :: u in net'.handling[d].rest ==> u in net.handling[d].rest
    requires SameHistory(net.log, net'.log) && net'.nodes == net.nodes && net'.links.Keys == net.links.Keys
    requires var m := net.handling[d].payload.message; var l := (net.log[m].origin, d);
             forall p :: p in net'.links[l] ==> p in net.links[l] || (p.message != m && !Precedes(net'.log, p.message, m))
    requires forall p :: p in net.links[(net.log[net.handling[d].payload.message].origin, d)] ==> p.message in net.log
    ensures GoodHandling(net', d)
  {
    var p := net.handling[d].payload;
    PayloadStays(net, net', net.log[p.message].origin, p);
    hide Precedes, GoodPayload;
  }

  // What a step adds to a link is no message that was already published, and
  // none of those should have come after it.
  lemma AddedIsNew(net: Network, step: Step, s: nat, d: nat)
    requires SendsMatch(net) && Enabled(net, step) && (s, d) in net.links
    ensures (s, d) in Next(net, step).links
    ensures forall p :: p in Next(net, step).links[(s, d)] && p !in net.links[(s, d)] ==>
              && step.End? && net.at[step.sender] == s && p.message == net.sends[step.sender].message
              && p.message in net.log && net.log[p.message].ended.None? && net.log[p.message].origin == s
              && forall m :: m in net.log ==> !Precedes(Next(net, step).log, p.message, m)
  {
    hide SendsMatch, Pushed, UsersAt, SameHistory, Precedes;
    LinkAfter(net, step, s, d);
    if step.End? {
      EndKeepsHistory(net, step.sender, step.published);
      OpenSend(net, step.sender);
    }
  }

  lemma OpenSend(net: Network, x: nat)
    requires SendsMatch(net) && x in net.sends
    ensures var m := net.sends[x].message;
            m in net.log && net.log[m].ended.None? && net.log[m].sender == x && x in net.at && net.log[m].origin == net.at[x]
  {
    assert GoodSend(net, x) && GoodRecord(net, net.sends[x].message);
  }

  // A node begins to deliver a payload only by handling the first of a link.
  lemma OnlyHandleBegins(net: Network, step: Step, d: nat)
    requires Enabled(net, step) && d !in net.handling && d in Next(net, step).handling
    ensures step.Handle? && step.dst == d && Next(net, step) == AfterHandle(net, step.src, d)
  {
    hide Pushed, UsersAt, Published, NoDup, AfterHandle;
    if step.Handle? {
      HandlesOne(net, step.src, step.dst);
    }
  }

  lemma HandlesOne(net: Network, s: nat, d: nat)
    requires Enabled(net, Handle(s, d))
    ensures AfterHandle(net, s, d).handling.Keys <= net.handling.Keys + {d}
  {
  }

  // That payload came from another node.
  lemma HandlingBegins(net: Network, step: Step, d: nat)
    requires Inv(net) && Enabled(net, step) && d !in net.handling && d in Next(net, step).handling
    ensures step.Handle? && step.dst == d && step.src != d && (step.src, d) in net.links && net.links[(step.src, d)] != []
    ensures Next(net, step) == AfterHandle(net, step.src, d) && d < |net.nodes| && step.src < |net.nodes|
    ensures net.links[(step.src, d)][0].source != net.nodes[d].id
  {
    OnlyHandleBegins(net, step, d);
    assert GoodLink(net, step.src, d);
    assert net.links[(step.src, d)][0] in net.links[(step.src, d)];
    hide Next, SendsMatch, Precedes, GoodHandling, GoodInbox, Supplied, NoDup;
  }

  lemma StepKeepsHandling(net: Network, step: Step, d: nat)
    requires Inv(net) && Enabled(net, step) && d in Next(net, step).handling
    ensures d < |Next(net, step).nodes| && GoodHandling(Next(net, step), d)
  {
    hide Next, Enabled, GoodHandling, GoodLink, SendsMatch, SameHistory, Precedes, GoodInbox, Supplied, Meshed;
    HistoryStays(net, step);
    if d !in net.handling {
      HandlingBegins(net, step, d);
      assert GoodLink(net, step.src, d);
      NewHandling(net, Next(net, step), step.src, d);
    } else {
      var m := net.handling[d].payload.message;
      HandlingFacts(net, d);
      var s := net.log[m].origin;
      AddedIsNew(net, step, s, d);
      LinkMessages(net, s, d);
      HandledRest(net, step, d);
      LinksKeep(net, step);
      HandlingStays(net, Next(net, step), d);
    }
  }

  lemma LinksKeep(net: Network, step: Step)
    requires Enabled(net, step)
    ensures Next(net, step).links.Keys == net.links.Keys
  {
    hide Pushed, UsersAt;
  }

  lemma HandlingFacts(net: Network, d: nat)
    requires d in net.handling && d < |net.nodes| && GoodHandling(net, d)
    ensures var m := net.handling[d].payload.message;
            && m in net.log && net.log[m].ended.Some? && net.log[m].origin != d && (net.log[m].origin, d) in net.links
            && NoDup(net.handling[d].rest)
            && forall u :: u in net.handling[d].rest ==> u in net.log[m].members
  {
  }

  lemma LinkMessages(net: Network, s: nat, d: nat)
    requires (s, d) in net.links && GoodLink(net, s, d)
    ensures forall p :: p in net.links[(s, d)] ==>
              p.message in net.log && net.log[p.message].origin == s && net.log[p.message].ended.Some?
  {
  }

  lemma HandledRest(net: Network, step: Step, d: nat)
    requires Enabled(net, step) && d in net.handling && d in Next(net, step).handling && NoDup(net.handling[d].rest)
    ensures var h, h' := net.handling[d], Next(net, step).handling[d];
            h'.payload == h.payload && NoDup(h'.rest) && (forall u :: u in h'.rest ==> u in h.rest)
  {
    Frame(net, step);
    if step.Handle? {
      HandlesOther(net, step.src, step.dst, d);
    } else if step.Deliver? {
      ServesNext(net.handling, step.node, d);
    }
    hide AfterHandle, Served, NoDup;
  }

  lemma HandlesOther(net: Network, s: nat, e: nat, d: nat)
    requires Enabled(net, Handle(s, e)) && d in net.handling
    ensures d in AfterHandle(net, s, e).handling && AfterHandle(net, s, e).handling[d] == net.handling[d]
  {
  }

  lemma ServesNext(handling: map<nat, Handling>, e: nat, d: nat)
    requires e in handling && d in handling && NoDup(handling[d].rest) && d in Served(handling, e)
    ensures var h, h' := handling[d], Served(handling, e)[d];
            h'.payload == h.payload && NoDup(h'.rest) && (forall u :: u in h'.rest ==> u in h.rest)
    ensures e == d ==> handling[d].rest != [] && handling[d].rest[0] !in Served(handling, e)[d].rest
  {
    if handling[d].rest != [] {
      NoDupTail(handling[d].rest);
    }
    hide NoDup;
  }

  lemma NoDupTail(users: seq<UserId>)
    requires NoDup(users) && users != []
    ensures NoDup(users[1..]) && users[0] !in users[1..] && forall u :: u in users[1..] ==> u in users
  {
  }

  // ---------------------------------------------------------------------
  // What a session receives
  // ---------------------------------------------------------------------

  // A message that may come next to a session.
  ghost predicate MayCome(net: Network, id: SessionId, m: MessageId)
    requires id in net.inbox && id in net.home
  {
    && m in net.log && net.home[id].user in net.log[m].members
    && (forall k :: k in net.inbox[id] ==> k != m && !Precedes(net.log, m, k))
  }

  lemma PushedInbox(net: Network, n: nat, m: MessageId, user: UserId, id: SessionId)
    requires id in net.inbox
    ensures var inbox := Pushed(net, n, m, user)[id];
            inbox == net.inbox[id] || (id in net.home && net.home[id] == Home(n, user) && inbox == net.inbox[id] + [m])
  {
  }

  // The inbox after a step: new and empty, unchanged, or with one message more,
  // from a send on the session's node or from a payload in delivery there.
  lemma InboxAfter(net: Network, step: Step, id: SessionId)
    requires Shape(net) && Enabled(net, step) && id in Next(net, step).inbox
    ensures id in net.inbox ==> id in net.home && Next(net, step).home[id] == net.home[id]
    ensures var inbox' := Next(net, step).inbox[id];
            || (id !in net.inbox && inbox' == [])
            || (id in net.inbox && inbox' == net.inbox[id])
            || (id in net.inbox && PushedTo(net, step, id) && inbox' == net.inbox[id] + [net.sends[step.sender].message])
            || (id in net.inbox && DeliveredTo(net, step, id) && inbox' == net.inbox[id] + [net.handling[step.node].payload.message])
  {
    hide UsersAt, Meshed, Pushed, NoDup, Published;
    if step.Push? && id in net.inbox {
      PushedInbox(net, net.at[step.sender], net.sends[step.sender].message, net.sends[step.sender].rest[0], id);
    } else if step.Deliver? && id in net.inbox && net.handling[step.node].rest != [] {
      PushedInbox(net, step.node, net.handling[step.node].payload.message, net.handling[step.node].rest[0], id);
    }
  }

  predicate PushedTo(net: Network, step: Step, id: SessionId) {
    && step.Push? && step.sender in net.at && step.sender in net.sends && net.sends[step.sender].rest != []
    && id in net.home && net.home[id] == Home(net.at[step.sender], net.sends[step.sender].rest[0])
  }

  predicate DeliveredTo(net: Network, step: Step, id: SessionId) {
    && step.Deliver? && step.node in net.handling && net.handling[step.node].rest != []
    && id in net.home && net.home[id] == Home(step.node, net.handling[step.node].rest[0])
  }

  lemma PushMayCome(net: Network, step: Step, id: SessionId)
    requires Inv(net) && Enabled(net, step) && id in net.inbox && PushedTo(net, step, id)
    ensures MayCome(net, id, net.sends[step.sender].message)
  {
    var x := step.sender;
    var m := net.sends[x].message;
    OpenSend(net, x);
    assert GoodSend(net, x);
    hide GoodHandling, GoodLink, SendsMatch, NotLinked, NotHandled, Meshed, GoodSend;
    assert net.sends[x].rest[0] in net.sends[x].remote + net.sends[x].rest;
    assert m in net.inbox[id] ==> Supplied(net, id, m);
  }

  lemma DeliveryMayCome(net: Network, step: Step, id: SessionId)
    requires Inv(net) && Enabled(net, step) && id in net.inbox && DeliveredTo(net, step, id)
    ensures MayCome(net, id, net.handling[step.node].payload.message)
  {
    hide GoodHandling, GoodLink, SendsMatch, NotLinked, NotDue, Meshed, Precedes;
    HandlingFacts(net, step.node);
    forall k | k in net.inbox[id]
      ensures k != net.handling[step.node].payload.message && !Precedes(net.log, net.handling[step.node].payload.message, k)
    {
      assert GoodInbox(net, id) && Supplied(net, id, k);
    }
  }

  lemma InboxStays(net: Network, net': Network, id: SessionId)
    requires id in net.inbox && id in net.home && GoodInbox(net, id)
    requires id in net'.inbox && id in net'.home && net'.home[id] == net.home[id] && SameHistory(net.log, net'.log)
    requires net'.inbox[id] == net.inbox[id]
          || exists m :: MayCome(net, id, m) && net'.inbox[id] == net.inbox[id] + [m]
    ensures GoodInbox(net', id)
  {
    hide Precedes;
  }

  lemma StepKeepsInbox(net: Network, step: Step, id: SessionId)
    requires Inv(net) && Enabled(net, step) && id in Next(net, step).inbox
    ensures id in Next(net, step).home && GoodInbox(Next(net, step), id)
  {
    hide Next, Enabled, SendsMatch, Meshed, SameHistory, GoodHandling, GoodLink, Supplied, MayCome;
    StepKeepsShape(net, step);
    InboxAfter(net, step, id);
    HistoryStays(net, step);
    if id in net.inbox {
      hide GoodInbox;
      assert GoodInbox(net, id);
      if PushedTo(net, step, id) {
        PushMayCome(net, step, id);
      } else if DeliveredTo(net, step, id) {
        DeliveryMayCome(net, step, id);
      }
      InboxStays(net, Next(net, step), id);
    }
  }

  // ---------------------------------------------------------------------
  // What is on its way to a session
  // ---------------------------------------------------------------------

  // A send after a step: begun by it, or gone on with the same message and no
  // members more.
  lemma SendAfter(net: Network, step: Step, x: nat)
    requires Enabled(net, step) && x in Next(net, step).sends
    ensures var send' := Next(net, step).sends[x];
            if x !in net.sends then step.Begin? && send'.message == step.message
            else send'.message == net.sends[x].message && forall u :: u in send'.rest ==> u in net.sends[x].rest
  {
    hide Pushed, UsersAt, Published, NoDup;
  }

  lemma NotDueStays(net: Network, step: Step, id: SessionId, m: MessageId)
    requires SendsMatch(net) && Enabled(net, step) && m in net.log && id in net.home && NotDue(net, id, m)
    requires id in Next(net, step).home && Next(net, step).home[id] == net.home[id]
    ensures m in Next(net, step).log && NotDue(Next(net, step), id, m)
  {
    hide Pushed, UsersAt, SendsMatch, Precedes, Next, Enabled;
    HistoryStays(net, step);
    var x := net.log[m].sender;
    if x in Next(net, step).sends && Next(net, step).sends[x].message == m {
      SendAfter(net, step, x);
      BegunIsNew(net, step);
    }
  }

  lemma BegunIsNew(net: Network, step: Step)
    requires Enabled(net, step)
    ensures step.Begin? ==> step.message !in net.log
  {
  }

  lemma NotLinkedStays(net: Network, step: Step, id: SessionId, m: MessageId)
    requires Inv(net) && Enabled(net, step) && m in net.log && id in net.home && NotDue(net, id, m)
    requires NotLinked(net, net.home[id].node, m)
    ensures NotLinked(Next(net, step), net.home[id].node, m)
  {
    hide Next, Enabled, SendsMatch, Precedes, GoodLink, GoodHandling, GoodInbox, Supplied, Meshed, SameHistory;
    var d, net' := net.home[id].node, Next(net, step);
    LinksKeep(net, step);
    HistoryStays(net, step);
    forall s: nat, p | s != d && (s, d) in net'.links && p in net'.links[(s, d)]
      ensures p.message != m && !Precedes(net'.log, p.message, m)
    {
      AddedIsNew(net, step, s, d);
      if p in net.links[(s, d)] {
        LinkMessages(net, s, d);
        OrderStays(net.log, net'.log, p.message, m);
      }
    }
  }

  lemma NotHandledStays(net: Network, step: Step, id: SessionId, m: MessageId)
    requires Inv(net) && Enabled(net, step) && m in net.log && id in net.home
    requires NotLinked(net, net.home[id].node, m) && NotHandled(net, net.home[id].node, net.home[id].user, m)
    ensures NotHandled(Next(net, step), net.home[id].node, net.home[id].user, m)
  {
    hide Next, Enabled, SendsMatch, Precedes, GoodLink, GoodHandling, GoodInbox, Supplied, Meshed, SameHistory;
    var d := net.home[id].node;
    if d in Next(net, step).handling {
      HistoryStays(net, step);
      if d in net.handling {
        HandlingFacts(net, d);
        HandledRest(net, step, d);
        OrderStays(net.log, Next(net, step).log, net.handling[d].payload.message, m);
      } else {
        HandlingBegins(net, step, d);
        LinkMessages(net, step.src, d);
        assert net.links[(step.src, d)][0] in net.links[(step.src, d)];
        OrderStays(net.log, Next(net, step).log, net.links[(step.src, d)][0].message, m);
      }
    }
  }

  lemma OrderStays(log: map<MessageId, Record>, log': map<MessageId, Record>, a: MessageId, b: MessageId)
    requires SameHistory(log, log') && a in log && b in log
    ensures Precedes(log', a, b) <==> Precedes(log, a, b)
  {
  }

  lemma SuppliedStays(net: Network, step: Step, id: SessionId, m: MessageId)
    requires Inv(net) && Enabled(net, step) && id in net.inbox && m in net.inbox[id]
    requires id in Next(net, step).home && id in net.home && Next(net, step).home[id] == net.home[id]
    ensures m in Next(net, step).log && Supplied(Next(net, step), id, m)
  {
    hide Next, Enabled, SendsMatch, Precedes, GoodLink, GoodHandling, NotDue, NotLinked, NotHandled, Meshed;
    assert GoodInbox(net, id) && Supplied(net, id, m);
    NotDueStays(net, step, id, m);
    NotLinkedStays(net, step, id, m);
    NotHandledStays(net, step, id, m);
  }

  // Messages of other origins do not concern the order.
  lemma OtherOrigins(net: Network, d: nat, m: MessageId)
    requires Inv(net) && m in net.log
    ensures forall s: nat, p :: (s, d) in net.links && p in net.links[(s, d)] && net.log[m].origin != s ==>
              p.message in net.log && p.message != m && !Precedes(net.log, p.message, m)
    ensures d in net.handling && net.log[m].origin == d ==>
              && net.handling[d].payload.message in net.log && net.handling[d].payload.message != m
              && !Precedes(net.log, net.handling[d].payload.message, m)
  {
    hide SendsMatch, GoodHandling, GoodInbox, Supplied, Meshed;
    forall s: nat, p | (s, d) in net.links && p in net.links[(s, d)] && net.log[m].origin != s
      ensures p.message in net.log && p.message != m && !Precedes(net.log, p.message, m)
    {
      LinkMessages(net, s, d);
    }
    if d in net.handling {
      HandlingFacts(net, d);
    }
  }

  // A message just pushed by its sender.
  lemma PushedIsSupplied(net: Network, step: Step, id: SessionId)
    requires Inv(net) && Enabled(net, step) && id in net.inbox && PushedTo(net, step, id)
    ensures var m := net.sends[step.sender].message;
            m in Next(net, step).log && id in Next(net, step).home && Supplied(Next(net, step), id, m)
  {
    var x, net' := step.sender, Next(net, step);
    var m, d, user := net.sends[x].message, net.home[id].node, net.home[id].user;
    PushedLeaves(net, x);
    Frame(net, step);
    OpenSend(net, x);
    OtherOrigins(net, d, m);
    hide Next, Enabled, SendsMatch, Precedes, GoodLink, GoodHandling, GoodInbox, Meshed, Inv, Shape;
    assert NotDue(net', id, m);
    assert NotLinked(net', d, m);
    assert NotHandled(net', d, user, m);
  }

  lemma PushedLeaves(net: Network, x: nat)
    requires SendsMatch(net) && Enabled(net, Push(x))
    ensures x in AfterPush(net, x).sends && AfterPush(net, x).sends[x].message == net.sends[x].message
    ensures net.sends[x].rest[0] !in AfterPush(net, x).sends[x].rest
  {
    var send := net.sends[x];
    assert GoodSend(net, x);
    assert send.remote + send.rest == send.remote + [send.rest[0]] + send.rest[1..];
    NoDupWithout(send.remote, send.rest[0], send.rest[1..]);
  }

  lemma HandledIsNotLinked(net: Network, d: nat)
    requires Inv(net) && d in net.handling
    ensures net.handling[d].payload.message in net.log && NotLinked(net, d, net.handling[d].payload.message)
  {
    assert GoodHandling(net, d);
    OtherOrigins(net, d, net.handling[d].payload.message);
    hide SendsMatch, GoodLink, GoodInbox, Supplied, Meshed, Precedes, GoodPayload, NoDup;
  }

  lemma DeliveryBounds(net: Network, d: nat)
    requires Shape(net) && d in net.handling
    ensures d < |net.nodes|
  {
  }

  lemma NeverBeforeItself(net: Network, m: MessageId)
    requires SendsMatch(net) && m in net.log
    ensures !Precedes(net.log, m, m)
  {
    assert GoodRecord(net, m);
  }

  // A message just delivered from another node.
  lemma DeliveredIsSupplied(net: Network, step: Step, id: SessionId)
    requires Inv(net) && Enabled(net, step) && id in net.inbox && DeliveredTo(net, step, id)
    ensures var m := net.handling[step.node].payload.message;
            m in Next(net, step).log && id in Next(net, step).home && Supplied(Next(net, step), id, m)
  {
    hide SendsMatch, GoodLink, GoodInbox, Meshed, Shape, Precedes, GoodPayload, NoDup, GoodHandling;
    var net', d, user := Next(net, step), step.node, net.home[id].user;
    var m := net.handling[d].payload.message;
    DeliveryBounds(net, d);
    HandlingFacts(net, d);
    ServesNext(net.handling, d, d);
    Frame(net, step);
    HandledIsNotLinked(net, d);
    NeverBeforeItself(net, m);
    hide Enabled, Inv;
    assert NotDue(net', id, m);
    assert NotLinked(net', d, m);
    assert NotHandled(net', d, user, m);
  }

  lemma StepKeepsSupplied(net: Network, step: Step, id: SessionId, m: MessageId)
    requires Inv(net) && Enabled(net, step) && id in Next(net, step).inbox && m in Next(net, step).inbox[id]
    ensures id in Next(net, step).home && m in Next(net, step).log && Supplied(Next(net, step), id, m)
  {
    hide Next, Enabled, GoodHandling, GoodLink, SendsMatch, Supplied, Precedes, Meshed;
    StepKeepsShape(net, step);
    InboxAfter(net, step, id);
    assert id in net.inbox;
    if m in net.inbox[id] {
      SuppliedStays(net, step, id, m);
    } else if PushedTo(net, step, id) {
      PushedIsSupplied(net, step, id);
    } else {
      DeliveredIsSupplied(net, step, id);
    }
  }

  lemma StepKeepsInv(net: Network, step: Step)
    requires Inv(net) && Enabled(net, step)
    ensures Inv(Next(net, step))
  {
    hide Next, Enabled, GoodHandling, GoodLink, SendsMatch, GoodInbox, Supplied, Meshed;
    var net' := Next(net, step);
    StepKeepsShape(net, step);
    StepKeepsSendsMatch(net, step);
    LinksKeep(net, step);
    forall s: nat, d: nat | (s, d) in net'.links ensures GoodLink(net', s, d) {
      assert (s, d) in net.links;
      StepKeepsLink(net, step, s, d);
    }
    forall d | d in net'.handling ensures GoodHandling(net', d) {
      StepKeepsHandling(net, step, d);
    }
    forall id | id in net'.inbox ensures GoodInbox(net', id) {
      StepKeepsInbox(net, step, id);
    }
    forall id, m | id in net'.inbox && m in net'.inbox[id] ensures id in net'.home && m in net'.log && Supplied(net', id, m) {
      StepKeepsSupplied(net, step, id, m);
    }
  }

  lemma {:induction false} Invariant(run: seq<Network>, steps: seq<Step>, n: nat)
    requires IsRun(run, steps) && n < |run|
    ensures Inv(run[n]) && run[n].nodes == run[0].nodes
  {
    if n > 0 {
      Invariant(run, steps, n - 1);
      assert Enabled(run[n - 1], steps[n - 1]) && run[n] == Next(run[n - 1], steps[n - 1]);
      StepKeepsInv(run[n - 1], steps[n - 1]);
      HistoryStays(run[n - 1], steps[n - 1]);
    }
  }
}
