/** The read-state cache as an object, and the table that it flushes to. */
module ReadStateCache {
  import opened Base
  import opened ReadState

  class ReadStateTable {
    var rows: Positions

    constructor (initial: Positions)
      ensures rows == initial
    {
      rows := initial;
    }

    // One bulk statement: all rows or none. `server` says what the server
    // makes of it; a statement that names a key twice is refused by PostgreSQL.
    method UpsertBatch(updates: seq<Row>, server: Outcome) returns (ok: bool)
      modifies this
      ensures ok <==> updates == [] || (server == Committed && DistinctKeys(updates))
      ensures rows == if server != Refused && DistinctKeys(updates) then AdvanceAll(old(rows), updates) else old(rows)
    {
      ok := true;
      if updates != [] {
        var stored := server != Refused && DistinctKeys(updates);
        if stored {
          rows := AdvanceAll(rows, updates);
        }
        ok := stored && server == Committed;
      }
    }
  }

  lemma SettledSnoc(p: Positions, chunks: seq<seq<Row>>, outcome: nat -> Outcome, i: nat, taken: bool)
    requires i < |chunks|
    ensures var before, after := Settled(chunks[..i], outcome, taken), Settled(chunks[..i + 1], outcome, taken);
            if Concerns(outcome(i), taken)
            then after == before + chunks[i] && AdvanceAll(p, after) == AdvanceAll(AdvanceAll(p, before), chunks[i])
            else after == before
  {
    assert chunks[..i + 1][..i] == chunks[..i];
    AdvanceAllConcat(p, Settled(chunks[..i], outcome, taken), chunks[i]);
  }

  class ReadStateCache {
    var pending: Positions
    var pendingCount: nat
    var totalOps: nat

    // What the flusher's skip test relies on.
    ghost predicate Counted()
      reads this
    {
      |pending| <= pendingCount && (pendingCount == 0 <==> pending == map[])
    }

    constructor ()
      ensures pending == map[] && pendingCount == 0 && totalOps == 0
      ensures Counted()
    {
      pending, pendingCount, totalOps := map[], 0, 0;
    }

    method Update(user: UserId, channel: ChannelId, message: MessageId)
      modifies this
      ensures pending == Advance(old(pending), Row(Key(user, channel), message))
      ensures pendingCount == old(pendingCount) + 1 && totalOps == old(totalOps) + 1
      ensures old(Counted()) ==> Counted()
    {
      var key := Key(user, channel);
      if key in pending {
        if message > pending[key] {
          pending := pending[key := message];
        }
      } else {
        pending := pending[key := message];
      }
      assert key in pending;
      assert pending.Keys == old(pending).Keys + {key};
      pendingCount := pendingCount + 1;
      totalOps := totalOps + 1;
    }

    method Drain() returns (batch: seq<Row>)
      modifies this
      ensures Lists(batch, old(pending))
      ensures pending == map[] && pendingCount == 0 && totalOps == old(totalOps)
    {
      var keys: seq<Key>, left := [], pending.Keys;
      while left != {}
        invariant unchanged(this)
        invariant NoDup(keys)
        invariant forall k :: k in pending <==> k in keys || k in left
        invariant forall k :: k in keys ==> k !in left
        decreases left
      {
        var k :| k in left;
        NoDupSnoc(keys, k);
        keys, left := keys + [k], left - {k};
      }
      batch := [];
      for i := 0 to |keys|
        invariant |batch| == i
        invariant forall j :: 0 <= j < i ==> keys[j] in old(pending) && batch[j] == Row(keys[j], old(pending)[keys[j]])
        invariant forall k :: k in pending <==> k in keys[i..]
        invariant forall k :: k in pending ==> k in old(pending) && pending[k] == old(pending)[k]
        invariant pendingCount == old(pendingCount) && totalOps == old(totalOps)
      {
        var key := keys[i];
        assert keys[i..] == [key] + keys[i + 1..];
        if key in pending {
          batch := batch + [Row(key, pending[key])];
          pending := pending - {key};
        }
      }
      forall k | k in old(pending) ensures Row(k, old(pending)[k]) in batch {
        assert k in keys;
        var j :| 0 <= j < |keys| && keys[j] == k;
        assert batch[j] == Row(k, old(pending)[k]);
      }
      pendingCount := 0;
    }

    method Rebuffer(chunk: seq<Row>)
      modifies this
      ensures pending == AdvanceAll(old(pending), chunk)
      ensures pendingCount == old(pendingCount) + |chunk| && totalOps == old(totalOps) + |chunk|
      ensures old(Counted()) ==> Counted()
    {
      for i := 0 to |chunk|
        invariant pending == AdvanceAll(old(pending), chunk[..i])
        invariant pendingCount == old(pendingCount) + i && totalOps == old(totalOps) + i
        invariant old(Counted()) ==> Counted()
      {
        assert chunk[..i + 1][..i] == chunk[..i];
        Update(chunk[i].key.user, chunk[i].key.channel, chunk[i].message);
      }
      assert chunk[..|chunk|] == chunk;
    }

    // One bulk statement of the flusher, and its error path.
    method FlushChunk(table: ReadStateTable, chunk: seq<Row>, server: Outcome)
      requires chunk != [] && DistinctKeys(chunk)
      modifies this, table
      ensures table.rows == if server != Refused then AdvanceAll(old(table.rows), chunk) else old(table.rows)
      ensures server == Committed ==> unchanged(this)
      ensures server != Committed ==> pending == AdvanceAll(old(pending), chunk)
      ensures server != Committed ==> pendingCount == old(pendingCount) + |chunk| && totalOps == old(totalOps) + |chunk|
      ensures old(Counted()) ==> Counted()
    {
      var ok := table.UpsertBatch(chunk, server);
      if !ok {
        Rebuffer(chunk);
      }
    }

    // The loop over the chunks of one drained batch.
    method FlushBatch(table: ReadStateTable, batch: seq<Row>, size: nat, outcome: nat -> Outcome)
      requires size > 0 && DistinctKeys(batch)
      requires pending == map[] && pendingCount == 0
      modifies this, table
      ensures table.rows == AdvanceAll(old(table.rows), Settled(Chunks(batch, size), outcome, true))
      ensures pending == AdvanceAll(map[], Settled(Chunks(batch, size), outcome, false))
      ensures pendingCount == |Settled(Chunks(batch, size), outcome, false)|
      ensures totalOps == old(totalOps) + pendingCount
      ensures Counted()
    {
      var chunks := Chunks(batch, size);
      ChunksWellCut(batch, size);
      for i := 0 to |chunks|
        invariant table.rows == AdvanceAll(old(table.rows), Settled(chunks[..i], outcome, true))
        invariant pending == AdvanceAll(map[], Settled(chunks[..i], outcome, false))
        invariant pendingCount == |Settled(chunks[..i], outcome, false)|
        invariant totalOps == old(totalOps) + pendingCount
        invariant Counted()
      {
        assert chunks[i] in chunks;
        SettledSnoc(old(table.rows), chunks, outcome, i, true);
        SettledSnoc(map[], chunks, outcome, i, false);
        FlushChunk(table, chunks[i], outcome(i));
      }
      assert chunks[..|chunks|] == chunks;
    }

    // One wake-up of the flusher. `outcome(i)` is what becomes of the i-th
    // bulk statement of this wake-up.
    method FlushCycle(table: ReadStateTable, batchThreshold: nat, outcome: nat -> Outcome) returns (batch: seq<Row>)
      modifies this, table
      ensures old(pendingCount) == 0 ==> batch == [] && unchanged(this) && unchanged(table)
      ensures old(pendingCount) != 0 ==>
                var chunks := Chunks(batch, if batchThreshold < 100 then 100 else batchThreshold);
                var refused := Settled(chunks, outcome, false);
                && Lists(batch, old(pending))
                && table.rows == AdvanceAll(old(table.rows), Settled(chunks, outcome, true))
                && pending == AdvanceAll(map[], refused)
                && pendingCount == |refused| && totalOps == old(totalOps) + |refused|
      ensures old(Counted()) ==> Counted()
      ensures forall k :: Join(At(table.rows, k), At(pending, k)) == Join(old(At(table.rows, k)), old(At(pending, k)))
    {
      var count := pendingCount;
      if count == 0 {
        return [];
      }
      batch := Drain();
      var size := if batchThreshold < 100 then 100 else batchThreshold;
      if batch == [] {
        EmptyListing(batch, old(pending));
        return;
      }
      FlushBatch(table, batch, size, outcome);
      forall k
        ensures Join(At(table.rows, k), At(pending, k)) == Join(old(At(table.rows, k)), old(At(pending, k)))
      {
        FlushConserves(old(table.rows), old(pending), batch, size, outcome, k);
      }
    }

    // The flush at shutdown: one statement, and no second chance. What was
    // buffered is in the table afterwards if and only if the statement was
    // stored, or the table already had a message as new for every buffered one.
    method FlushNow(table: ReadStateTable, server: Outcome) returns (ok: bool, batch: seq<Row>)
      modifies this, table
      ensures Lists(batch, old(pending))
      ensures ok <==> old(pending) == map[] || server == Committed
      ensures table.rows == if server != Refused then AdvanceAll(old(table.rows), batch) else old(table.rows)
      ensures pending == map[] && pendingCount == 0 && totalOps == old(totalOps)
      ensures (forall k :: At(table.rows, k) == Join(old(At(table.rows, k)), old(At(pending, k))))
         <==> server != Refused || (forall k :: k in old(pending) ==> old(pending)[k] <= old(At(table.rows, k)))
    {
      batch := Drain();
      EmptyListing(batch, old(pending));
      ok := true;
      if batch != [] {
        ok := table.UpsertBatch(batch, server);
      }
      forall k | server != Refused
        ensures At(table.rows, k) == Join(old(At(table.rows, k)), old(At(pending, k)))
      {
        AdvanceAllJoins(old(table.rows), batch, k);
        ListedMarks(batch, old(pending), k);
      }
      assert server == Refused ==> forall k :: k in old(pending) ==>
        (At(table.rows, k) == Join(old(At(table.rows, k)), old(At(pending, k))) <==> old(pending)[k] <= old(At(table.rows, k)));
    }
  }
}
