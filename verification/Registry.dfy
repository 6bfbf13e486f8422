/** The registry of sessions as a value: per user, the ids of the sessions in order. */
module Registry {
  import opened Base

  type Registry = map<UserId, seq<SessionId>>

  // The list without the ids in `gone`; the others keep their order.
  function Survivors(ids: seq<SessionId>, gone: set<SessionId>): seq<SessionId> {
    if ids == [] then [] else
      var last := |ids| - 1;
      Survivors(ids[..last], gone) + (if ids[last] in gone then [] else [ids[last]])
  }

  function Inserted(r: Registry, user: UserId, id: SessionId): Registry {
    r[user := (if user in r then r[user] else []) + [id]]
  }

  function Removed(r: Registry, user: UserId, id: SessionId): Registry {
    if user !in r then r
    else
      var rest := Survivors(r[user], {id});
      if rest == [] then r - {user} else r[user := rest]
  }

  predicate Connected(r: Registry, user: UserId) {
    user in r && r[user] != []
  }

  function ConnectedUsers(r: Registry): set<UserId> {
    set user | user in r && r[user] != []
  }

  function Registered(r: Registry): set<SessionId> {
    set user, id | user in r && id in r[user] :: id
  }

  // No empty list is kept, and an id is registered once and for one user.
  ghost predicate WellKept(r: Registry) {
    && (forall u :: u in r ==> r[u] != [] && NoDup(r[u]))
    && (forall u, v, id :: u in r && v in r && id in r[u] && id in r[v] ==> u == v)
  }

  lemma {:induction false} SurvivorsMembers(ids: seq<SessionId>, gone: set<SessionId>)
    ensures forall id :: id in Survivors(ids, gone) <==> id in ids && id !in gone
    ensures NoDup(ids) ==> NoDup(Survivors(ids, gone))
  {
    if ids != [] {
      var front, last := ids[..|ids| - 1], ids[|ids| - 1];
      assert ids == front + [last];
      SurvivorsMembers(front, gone);
      NoDupSnoc(front, last);
      NoDupSnoc(Survivors(front, gone), last);
    }
  }

  lemma {:induction false} SurvivorsTwice(ids: seq<SessionId>, a: set<SessionId>, b: set<SessionId>)
    ensures Survivors(Survivors(ids, a), b) == Survivors(ids, a + b)
  {
    if ids != [] {
      var front, last := ids[..|ids| - 1], ids[|ids| - 1];
      SurvivorsTwice(front, a, b);
      if last in a {
        assert Survivors(ids, a) == Survivors(front, a);
      } else {
        var kept := Survivors(front, a) + [last];
        assert kept[..|kept| - 1] == Survivors(front, a);
      }
    }
  }

  lemma {:induction false} SurvivorsUntouched(ids: seq<SessionId>, gone: set<SessionId>)
    requires forall id :: id in ids ==> id !in gone
    ensures Survivors(ids, gone) == ids
  {
    if ids != [] {
      SurvivorsUntouched(ids[..|ids| - 1], gone);
    }
  }

  // The survivors of a list are those of its parts, in order.
  lemma {:induction false} SurvivorsConcat(a: seq<SessionId>, b: seq<SessionId>, gone: set<SessionId>)
    ensures Survivors(a + b, gone) == Survivors(a, gone) + Survivors(b, gone)
  {
    if b == [] {
      assert a + b == a;
    } else {
      assert (a + b)[..|a + b| - 1] == a + b[..|b| - 1];
      SurvivorsConcat(a, b[..|b| - 1], gone);
    }
  }

  // Only the removed session leaves the list; the others stay in order.
  lemma RemovedFromList(r: Registry, user: UserId, id: SessionId, before: seq<SessionId>, after: seq<SessionId>)
    requires WellKept(r) && user in r && r[user] == before + [id] + after
    ensures if before + after == [] then user !in Removed(r, user, id)
            else user in Removed(r, user, id) && Removed(r, user, id)[user] == before + after
  {
    MiddleIsAlone(before, id, after);
    hide NoDup, WellKept, Survivors;
    MiddleGoes(before, id, after);
  }

  lemma MiddleGoes(before: seq<SessionId>, id: SessionId, after: seq<SessionId>)
    requires id !in before && id !in after
    ensures Survivors(before + [id] + after, {id}) == before + after
  {
    OneGoes(id);
    hide Survivors;
    SurvivorsConcat(before + [id], after, {id});
    SurvivorsConcat(before, [id], {id});
    SurvivorsUntouched(before, {id});
    SurvivorsUntouched(after, {id});
    assert before + [] == before;
  }

  lemma OneGoes(id: SessionId)
    ensures Survivors([id], {id}) == []
  {
  }

  lemma MiddleIsAlone(before: seq<SessionId>, id: SessionId, after: seq<SessionId>)
    requires NoDup(before + [id] + after)
    ensures id !in before && id !in after
  {
    var whole := before + [id] + after;
    assert whole[|before|] == id;
    forall i | 0 <= i < |before| ensures before[i] != id {
      assert whole[i] == before[i];
    }
    forall i | 0 <= i < |after| ensures after[i] != id {
      assert whole[|before| + 1 + i] == after[i];
    }
  }

  lemma InsertKeeps(r: Registry, user: UserId, id: SessionId)
    requires WellKept(r) && id !in Registered(r)
    ensures WellKept(Inserted(r, user, id))
    ensures Registered(Inserted(r, user, id)) == Registered(r) + {id}
    ensures Connected(Inserted(r, user, id), user)
    ensures Inserted(r, user, id)[user] == (if user in r then r[user] else []) + [id]
    ensures forall u :: u != user ==> (u in Inserted(r, user, id) <==> u in r) && (u in r ==> Inserted(r, user, id)[u] == r[u])
  {
    var r' := Inserted(r, user, id);
    NoDupSnoc(if user in r then r[user] else [], id);
    forall i ensures i in Registered(r') <==> i in Registered(r) + {id} {
      if i in Registered(r) {
        var u :| u in r && i in r[u];
        assert u in r' && i in r'[u];
      }
      assert user in r' && id in r'[user];
    }
    forall u, v, i | u in r' && v in r' && i in r'[u] && i in r'[v] ensures u == v {
      if i != id {
        assert u in r && v in r && i in r[u] && i in r[v];
      }
    }
  }

  lemma RemoveKeeps(r: Registry, user: UserId, id: SessionId)
    requires WellKept(r)
    ensures WellKept(Removed(r, user, id))
    ensures Registered(Removed(r, user, id)) == if user in r && id in r[user] then Registered(r) - {id} else Registered(r)
    ensures user !in r || id !in r[user] ==> Removed(r, user, id) == r
    ensures forall u :: u != user ==> (u in Removed(r, user, id) <==> u in r) && (u in r ==> Removed(r, user, id)[u] == r[u])
  {
    if user in r {
      SurvivorsMembers(r[user], {id});
      if id !in r[user] {
        SurvivorsUntouched(r[user], {id});
        assert Removed(r, user, id) == r;
      } else {
        RegisteredAfterRemoval(r, user, id);
      }
    }
  }

  lemma RegisteredAfterRemoval(r: Registry, user: UserId, id: SessionId)
    requires WellKept(r) && user in r && id in r[user]
    ensures Registered(Removed(r, user, id)) == Registered(r) - {id}
  {
    var r' := Removed(r, user, id);
    SurvivorsMembers(r[user], {id});
    forall i | i in Registered(r) && i != id ensures i in Registered(r') {
      var u :| u in r && i in r[u];
      assert u in r' && i in r'[u];
    }
    forall i | i in Registered(r') ensures i in Registered(r) && i != id {
      var u :| u in r' && i in r'[u];
      assert u in r && i in r[u];
    }
  }

  // Removing a session a second time, as a late clean-up does, changes nothing.
  lemma SecondRemovalIsIdle(r: Registry, user: UserId, id: SessionId)
    requires WellKept(r)
    ensures Removed(Removed(r, user, id), user, id) == Removed(r, user, id)
  {
    RemoveKeeps(r, user, id);
    RemoveKeeps(Removed(r, user, id), user, id);
    if user in r {
      SurvivorsMembers(r[user], {id});
    }
  }

  // ---------------------------------------------------------------------
  // Removing many sessions
  // ---------------------------------------------------------------------

  // The registry without the sessions in `gone`; users left without a session disappear.
  function Pruned(r: Registry, gone: set<SessionId>): Registry {
    map u | u in r && Survivors(r[u], gone) != [] :: Survivors(r[u], gone)
  }

  predicate AllGone(r: Registry, user: UserId, gone: set<SessionId>) {
    user in r && forall id :: id in r[user] ==> id in gone
  }

  lemma PrunedByNothing(r: Registry)
    requires WellKept(r)
    ensures Pruned(r, {}) == r
  {
    forall u | u in r ensures Survivors(r[u], {}) == r[u] {
      SurvivorsUntouched(r[u], {});
    }
  }

  lemma ConnectedAfterPruning(r: Registry, gone: set<SessionId>, user: UserId)
    ensures user in Pruned(r, gone) <==> user in r && !AllGone(r, user, gone)
  {
    if user in r {
      SurvivorsMembers(r[user], gone);
      if user !in Pruned(r, gone) {
        assert forall id :: id in r[user] && id !in gone ==> id in Survivors(r[user], gone);
      } else {
        assert Survivors(r[user], gone)[0] in r[user];
      }
    }
  }

  lemma SurvivorsWithoutStranger(ids: seq<SessionId>, gone: set<SessionId>, id: SessionId)
    requires id !in ids
    ensures Survivors(ids, gone + {id}) == Survivors(ids, gone)
  {
    SurvivorsMembers(ids, gone);
    SurvivorsTwice(ids, gone, {id});
    SurvivorsUntouched(Survivors(ids, gone), {id});
  }

  // Removing one more session prunes by one more id.
  lemma RemovePrunes(r: Registry, gone: set<SessionId>, user: UserId, id: SessionId)
    requires WellKept(r) && user in r && id in r[user] && id !in gone
    ensures Removed(Pruned(r, gone), user, id) == Pruned(r, gone + {id})
  {
    hide Survivors;
    forall u | u in r && u != user
      ensures Survivors(r[u], gone + {id}) == Survivors(r[u], gone)
    {
      assert id !in r[u];
      SurvivorsWithoutStranger(r[u], gone, id);
    }
    assert Survivors(r[user], gone) != [] by {
      SurvivorsMembers(r[user], gone);
    }
    SurvivorsTwice(r[user], gone, {id});
    var pruned, next := Pruned(r, gone), Pruned(r, gone + {id});
    assert Removed(pruned, user, id).Keys == next.Keys;
    assert forall u :: u in next ==> Removed(pruned, user, id)[u] == next[u];
  }

  lemma RegisteredAfterPruning(r: Registry, gone: set<SessionId>)
    ensures Registered(Pruned(r, gone)) == Registered(r) - gone
  {
    var r' := Pruned(r, gone);
    forall u | u in r ensures forall id :: id in Survivors(r[u], gone) <==> id in r[u] && id !in gone {
      SurvivorsMembers(r[u], gone);
    }
    forall id | id in Registered(r) - gone ensures id in Registered(r') {
      var u :| u in r && id in r[u];
      assert id in Survivors(r[u], gone);
      assert u in r' && id in r'[u];
    }
  }
}
