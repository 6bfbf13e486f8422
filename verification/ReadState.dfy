/** The write-behind cache of read positions, and the table it is flushed to. */
module ReadState {
  import opened Base

  datatype Key = Key(user: UserId, channel: ChannelId)

  datatype Row = Row(key: Key, message: MessageId)

  type Positions = map<Key, MessageId>

  // ---------------------------------------------------------------------
  // The semilattice of read positions of one key
  // ---------------------------------------------------------------------

  // The position reached in one channel; NEVER is below every message.
  type Mark = m: int | -1 <= m

  const NEVER: Mark := -1

  function Join(a: Mark, b: Mark): Mark {
    if a < b then b else a
  }

  function At(p: Positions, k: Key): Mark {
    if k in p then p[k] else NEVER
  }

  function MarkOf(row: Row, k: Key): Mark {
    if row.key == k then row.message else NEVER
  }

  // The highest position that a list of rows claims for a key.
  function Highest(rows: seq<Row>, k: Key): Mark {
    if rows == [] then NEVER else Join(Highest(rows[..|rows| - 1], k), MarkOf(rows[|rows| - 1], k))
  }

  lemma {:induction false} HighestConcat(a: seq<Row>, b: seq<Row>, k: Key)
    ensures Highest(a + b, k) == Join(Highest(a, k), Highest(b, k))
  {
    if b == [] {
      assert a + b == a;
    } else {
      assert (a + b)[..|a + b| - 1] == a + b[..|b| - 1];
      HighestConcat(a, b[..|b| - 1], k);
    }
  }

  lemma {:induction false} HighestBounds(rows: seq<Row>, row: Row)
    requires row in rows
    ensures row.message <= Highest(rows, row.key)
  {
    if row != rows[|rows| - 1] {
      HighestBounds(rows[..|rows| - 1], row);
    }
  }

  lemma {:induction false} HighestIsClaimed(rows: seq<Row>, k: Key)
    ensures Highest(rows, k) == NEVER <==> (forall row :: row in rows ==> row.key != k)
    ensures Highest(rows, k) != NEVER ==> Row(k, Highest(rows, k)) in rows
  {
    if rows != [] {
      HighestIsClaimed(rows[..|rows| - 1], k);
      assert rows == rows[..|rows| - 1] + [rows[|rows| - 1]];
    }
  }

  // ---------------------------------------------------------------------
  // The newer-only write: the buffer and the table both use it
  // ---------------------------------------------------------------------

  function Advance(p: Positions, row: Row): Positions {
    if row.key in p && row.message <= p[row.key] then p else p[row.key := row.message]
  }

  lemma AdvanceJoins(p: Positions, row: Row, k: Key)
    ensures At(Advance(p, row), k) == Join(At(p, k), MarkOf(row, k))
  {
  }

  function AdvanceAll(p: Positions, rows: seq<Row>): Positions {
    if rows == [] then p else Advance(AdvanceAll(p, rows[..|rows| - 1]), rows[|rows| - 1])
  }

  // Writing rows one by one joins their marks into the stored one.
  lemma {:induction false} AdvanceAllJoins(p: Positions, rows: seq<Row>, k: Key)
    ensures At(AdvanceAll(p, rows), k) == Join(At(p, k), Highest(rows, k))
  {
    if rows != [] {
      AdvanceAllJoins(p, rows[..|rows| - 1], k);
    }
  }

  lemma SameMarksSamePositions(p: Positions, q: Positions)
    requires forall k :: At(p, k) == At(q, k)
    ensures p == q
  {
    forall k ensures k in p <==> k in q {
      assert At(p, k) == At(q, k);
    }
    forall k | k in p ensures p[k] == q[k] {
      assert At(p, k) == At(q, k);
    }
  }

  lemma {:induction false} AdvanceAllConcat(p: Positions, a: seq<Row>, b: seq<Row>)
    ensures AdvanceAll(AdvanceAll(p, a), b) == AdvanceAll(p, a + b)
  {
    forall k ensures At(AdvanceAll(AdvanceAll(p, a), b), k) == At(AdvanceAll(p, a + b), k) {
      AdvanceAllJoins(p, a, k);
      AdvanceAllJoins(AdvanceAll(p, a), b, k);
      AdvanceAllJoins(p, a + b, k);
      HighestConcat(a, b, k);
    }
    SameMarksSamePositions(AdvanceAll(AdvanceAll(p, a), b), AdvanceAll(p, a + b));
  }

  // ---------------------------------------------------------------------
  // Drained batches
  // ---------------------------------------------------------------------

  predicate DistinctKeys(rows: seq<Row>) {
    forall i, j :: 0 <= i < j < |rows| ==> rows[i].key != rows[j].key
  }

  // The batch lists the buffer: every entry once, in some order.
  ghost predicate Lists(batch: seq<Row>, p: Positions) {
    && DistinctKeys(batch)
    && (forall row :: row in batch ==> row.key in p && p[row.key] == row.message)
    && (forall k :: k in p ==> Row(k, p[k]) in batch)
  }

  lemma ListedMarks(batch: seq<Row>, p: Positions, k: Key)
    requires Lists(batch, p)
    ensures Highest(batch, k) == At(p, k)
  {
    HighestIsClaimed(batch, k);
    if k in p {
      assert Row(k, p[k]) in batch;
    }
  }

  lemma EmptyListing(batch: seq<Row>, p: Positions)
    requires Lists(batch, p)
    ensures batch == [] <==> p == map[]
  {
    assert batch != [] ==> batch[0] in batch;
    assert forall k :: k in p ==> Row(k, p[k]) in batch;
  }

  // The rows cut into pieces of `size`; only the last may be shorter.
  function Chunks(rows: seq<Row>, size: nat): (chunks: seq<seq<Row>>)
    requires size > 0
    decreases |rows|
  {
    if |rows| == 0 then []
    else if |rows| <= size then [rows]
    else [rows[..size]] + Chunks(rows[size..], size)
  }

  function Flatten(chunks: seq<seq<Row>>): seq<Row> {
    if chunks == [] then [] else Flatten(chunks[..|chunks| - 1]) + chunks[|chunks| - 1]
  }

  lemma {:induction false} FlattenCons(head: seq<Row>, tail: seq<seq<Row>>)
    ensures Flatten([head] + tail) == head + Flatten(tail)
  {
    if tail == [] {
      assert Flatten([head]) == Flatten([]) + head;
    } else {
      var chunks := [head] + tail;
      assert chunks[..|chunks| - 1] == [head] + tail[..|tail| - 1];
      FlattenCons(head, tail[..|tail| - 1]);
    }
  }

  // Cutting a batch loses nothing.
  lemma {:induction false} ChunksFlatten(rows: seq<Row>, size: nat)
    requires size > 0
    ensures Flatten(Chunks(rows, size)) == rows
    decreases |rows|
  {
    if |rows| > size {
      ChunksFlatten(rows[size..], size);
      FlattenCons(rows[..size], Chunks(rows[size..], size));
    } else if |rows| > 0 {
      FlattenCons(rows, []);
    }
  }

  ghost predicate WellCut(chunks: seq<seq<Row>>, size: nat) {
    forall c :: c in chunks ==> 0 < |c| <= size && DistinctKeys(c)
  }

  // No piece is empty, too long, or has a key twice.
  lemma {:induction false} ChunksWellCut(rows: seq<Row>, size: nat)
    requires size > 0 && DistinctKeys(rows)
    ensures WellCut(Chunks(rows, size), size)
    decreases |rows|
  {
    if |rows| > size {
      assert DistinctKeys(rows[..size]);
      assert DistinctKeys(rows[size..]);
      ChunksWellCut(rows[size..], size);
    }
  }

  // Every piece but the last has the full size, and the last has the rest.
  lemma {:induction false} ChunkSizes(rows: seq<Row>, size: nat, i: nat)
    requires size > 0 && i < |Chunks(rows, size)|
    ensures |Chunks(rows, size)[i]| == if i < |Chunks(rows, size)| - 1 then size else |rows| - i * size
    decreases |rows|
  {
    if |rows| > size && i > 0 {
      ChunkSizes(rows[size..], size, i - 1);
      assert i * size == (i - 1) * size + size;
    }
  }

  // There are just as many pieces as the rows need: their number divided by
  // the size, rounded up.
  lemma {:induction false} ChunkCount(rows: seq<Row>, size: nat)
    requires size > 0
    ensures |rows| <= |Chunks(rows, size)| * size < |rows| + size
    decreases |rows|
  {
    if |rows| > size {
      ChunkCount(rows[size..], size);
      var n := |Chunks(rows[size..], size)|;
      assert (n + 1) * size == n * size + size;
    }
  }

  // What becomes of a bulk statement: stored and reported, stored though the
  // client sees an error, or not stored.
  datatype Outcome = Committed | Unseen | Refused

  predicate Concerns(outcome: Outcome, taken: bool) {
    if taken then outcome != Refused else outcome != Committed
  }

  // The rows of the chunks that the table took, or those of the chunks that
  // were reported as failed; outcome(i) is what became of chunk number i.
  function Settled(chunks: seq<seq<Row>>, outcome: nat -> Outcome, taken: bool): seq<Row> {
    if chunks == [] then [] else
      var last := |chunks| - 1;
      Settled(chunks[..last], outcome, taken) + (if Concerns(outcome(last), taken) then chunks[last] else [])
  }

  // Every drained row is taken or reported as failed, none is dropped.
  lemma {:induction false} SettledSplit(chunks: seq<seq<Row>>, outcome: nat -> Outcome, k: Key)
    ensures Join(Highest(Settled(chunks, outcome, true), k), Highest(Settled(chunks, outcome, false), k))
         == Highest(Flatten(chunks), k)
  {
    if chunks != [] {
      var front, last := chunks[..|chunks| - 1], chunks[|chunks| - 1];
      var t, f := Settled(front, outcome, true), Settled(front, outcome, false);
      SettledSplit(front, outcome, k);
      HighestConcat(Flatten(front), last, k);
      HighestConcat(t, last, k);
      HighestConcat(f, last, k);
      assert t + [] == t && f + [] == f;
    }
  }

  // One flush of a buffer: what the table took and what went back to the
  // buffer together hold what both held before.
  lemma FlushConserves(table: Positions, pending: Positions, batch: seq<Row>, size: nat, outcome: nat -> Outcome, k: Key)
    requires size > 0 && Lists(batch, pending)
    ensures Join(At(AdvanceAll(table, Settled(Chunks(batch, size), outcome, true)), k),
                 At(AdvanceAll(map[], Settled(Chunks(batch, size), outcome, false)), k))
         == Join(At(table, k), At(pending, k))
  {
    var chunks := Chunks(batch, size);
    AdvanceAllJoins(table, Settled(chunks, outcome, true), k);
    AdvanceAllJoins(map[], Settled(chunks, outcome, false), k);
    SettledSplit(chunks, outcome, k);
    ChunksFlatten(batch, size);
    ListedMarks(batch, pending, k);
  }

  lemma {:induction false} AllCommitted(chunks: seq<seq<Row>>, outcome: nat -> Outcome)
    requires forall i: nat :: i < |chunks| ==> outcome(i) == Committed
    ensures Settled(chunks, outcome, true) == Flatten(chunks)
    ensures Settled(chunks, outcome, false) == []
  {
    if chunks != [] {
      AllCommitted(chunks[..|chunks| - 1], outcome);
    }
  }

  // ---------------------------------------------------------------------
  // Batching is invisible in the table
  // ---------------------------------------------------------------------

  // Whatever order a buffer of acks is drained in, writing the drained rows
  // gives the table that writing every single ack would have given.
  lemma DrainedWriteIsWriteThrough(table: Positions, acks: seq<Row>, batch: seq<Row>)
    requires Lists(batch, AdvanceAll(map[], acks))
    ensures AdvanceAll(table, batch) == AdvanceAll(table, acks)
  {
    forall k ensures At(AdvanceAll(table, batch), k) == At(AdvanceAll(table, acks), k) {
      AdvanceAllJoins(table, batch, k);
      AdvanceAllJoins(table, acks, k);
      ListedMarks(batch, AdvanceAll(map[], acks), k);
      AdvanceAllJoins(map[], acks, k);
    }
    SameMarksSamePositions(AdvanceAll(table, batch), AdvanceAll(table, acks));
  }

  // The same for a flush in chunks of any size that all succeed: nothing is
  // left to re-buffer.
  lemma BatchedFlushIsWriteThrough(table: Positions, acks: seq<Row>, batch: seq<Row>, size: nat, outcome: nat -> Outcome)
    requires size > 0
    requires Lists(batch, AdvanceAll(map[], acks))
    requires forall i: nat :: i < |Chunks(batch, size)| ==> outcome(i) == Committed
    ensures AdvanceAll(table, Settled(Chunks(batch, size), outcome, true)) == AdvanceAll(table, acks)
    ensures Settled(Chunks(batch, size), outcome, false) == []
  {
    AllCommitted(Chunks(batch, size), outcome);
    ChunksFlatten(batch, size);
    DrainedWriteIsWriteThrough(table, acks, batch);
  }
}
