/** Every interleaving of acks, drains, bulk statements and re-buffering. */
module ReadStateRuns {
  import opened Base
  import opened ReadState

  // Where a flushing task stands. A task that runs the shutdown flush has
  // `lossy` set: it sends its whole batch at once and drops it on an error.
  datatype Task =
    | Asleep
    | Draining(keys: seq<Key>, batch: seq<Row>, lossy: bool)
    | Sending(chunks: seq<seq<Row>>, lossy: bool)
    | Rebuffering(rows: seq<Row>, chunks: seq<seq<Row>>)

  // `initial`, `acks`, `lost` and `rebuffered` only record what happened.
  datatype System = System(
    pending: Positions,
    pendingCount: nat,
    totalOps: nat,
    table: Positions,
    tasks: seq<Task>,
    initial: Positions,
    acks: seq<Row>,
    lost: seq<Row>,
    rebuffered: nat)

  datatype Step =
    | Ack(row: Row)
    | Snapshot(task: nat, keys: seq<Key>, lossy: bool)
    | Take(task: nat)
    | EndDrain(task: nat, size: nat)
    | Commit(task: nat)
    | Refuse(task: nat)
    | CommitUnseen(task: nat)
    | Rebuffer(task: nat)

  ghost predicate Init(s: System) {
    && s.pending == map[] && s.pendingCount == 0 && s.totalOps == 0
    && s.table == s.initial
    && (forall i :: 0 <= i < |s.tasks| ==> s.tasks[i] == Asleep)
    && s.acks == [] && s.lost == [] && s.rebuffered == 0
  }

  // The snapshot of keys is not atomic with respect to other writers, so it
  // may be any list that names no key twice. The bulk statement fails by
  // itself on a key named twice, so it cannot be stored then. CommitUnseen is
  // a statement that is stored while its client sees an error.
  ghost predicate Enabled(s: System, step: Step) {
    match step
    case Ack(_) => true
    case Snapshot(i, keys, _) => i < |s.tasks| && s.tasks[i].Asleep? && NoDup(keys)
    case Take(i) => i < |s.tasks| && s.tasks[i].Draining? && s.tasks[i].keys != []
    case EndDrain(i, size) => i < |s.tasks| && s.tasks[i].Draining? && s.tasks[i].keys == [] && size >= 100
    case Commit(i) => i < |s.tasks| && s.tasks[i].Sending? && s.tasks[i].chunks != [] && DistinctKeys(s.tasks[i].chunks[0])
    case Refuse(i) => i < |s.tasks| && s.tasks[i].Sending? && s.tasks[i].chunks != []
    case CommitUnseen(i) => i < |s.tasks| && s.tasks[i].Sending? && s.tasks[i].chunks != [] && DistinctKeys(s.tasks[i].chunks[0])
    case Rebuffer(i) => i < |s.tasks| && s.tasks[i].Rebuffering?
  }

  function Resume(chunks: seq<seq<Row>>, lossy: bool): Task {
    if chunks == [] then Asleep else Sending(chunks, lossy)
  }

  function Buffer(s: System, row: Row): System {
    s.(pending := Advance(s.pending, row), pendingCount := s.pendingCount + 1, totalOps := s.totalOps + 1)
  }

  function AfterTake(s: System, i: nat): System
    requires i < |s.tasks| && s.tasks[i].Draining? && s.tasks[i].keys != []
  {
    var t := s.tasks[i];
    var k := t.keys[0];
    var batch := if k in s.pending then t.batch + [Row(k, s.pending[k])] else t.batch;
    s.(pending := s.pending - {k}, tasks := s.tasks[i := Draining(t.keys[1..], batch, t.lossy)])
  }

  function AfterEndDrain(s: System, i: nat, size: nat): System
    requires i < |s.tasks| && s.tasks[i].Draining? && size > 0
  {
    var t := s.tasks[i];
    var chunks := if t.batch == [] then [] else if t.lossy then [t.batch] else Chunks(t.batch, size);
    s.(pendingCount := 0, tasks := s.tasks[i := Resume(chunks, t.lossy)])
  }

  function AfterCommit(s: System, i: nat): System
    requires i < |s.tasks| && s.tasks[i].Sending? && s.tasks[i].chunks != []
  {
    var t := s.tasks[i];
    s.(table := AdvanceAll(s.table, t.chunks[0]), tasks := s.tasks[i := Resume(t.chunks[1..], t.lossy)])
  }

  function AfterRefuse(s: System, i: nat): System
    requires i < |s.tasks| && s.tasks[i].Sending? && s.tasks[i].chunks != []
  {
    var t := s.tasks[i];
    if t.lossy then s.(lost := s.lost + t.chunks[0], tasks := s.tasks[i := Resume(t.chunks[1..], true)])
    else s.(tasks := s.tasks[i := Rebuffering(t.chunks[0], t.chunks[1..])])
  }

  function AfterCommitUnseen(s: System, i: nat): System
    requires i < |s.tasks| && s.tasks[i].Sending? && s.tasks[i].chunks != []
  {
    AfterRefuse(s.(table := AdvanceAll(s.table, s.tasks[i].chunks[0])), i)
  }

  function AfterRebuffer(s: System, i: nat): System
    requires i < |s.tasks| && s.tasks[i].Rebuffering?
  {
    var t := s.tasks[i];
    if t.rows == [] then s.(tasks := s.tasks[i := Resume(t.chunks, false)])
    else Buffer(s, t.rows[0]).(tasks := s.tasks[i := Rebuffering(t.rows[1..], t.chunks)], rebuffered := s.rebuffered + 1)
  }

  ghost function Next(s: System, step: Step): System
    requires Enabled(s, step)
  {
    match step
    case Ack(row) => Buffer(s, row).(acks := s.acks + [row])
    case Snapshot(i, keys, lossy) => s.(tasks := s.tasks[i := Draining(keys, [], lossy)])
    case Take(i) => AfterTake(s, i)
    case EndDrain(i, size) => AfterEndDrain(s, i, size)
    case Commit(i) => AfterCommit(s, i)
    case Refuse(i) => AfterRefuse(s, i)
    case CommitUnseen(i) => AfterCommitUnseen(s, i)
    case Rebuffer(i) => AfterRebuffer(s, i)
  }

  ghost predicate IsRun(run: seq<System>, steps: seq<Step>) {
    && |run| == |steps| + 1
    && Init(run[0])
    && forall i :: 0 <= i < |steps| ==> Enabled(run[i], steps[i]) && run[i + 1] == Next(run[i], steps[i])
  }

  // ---------------------------------------------------------------------
  // Rows that a task has drained and not yet settled
  // ---------------------------------------------------------------------

  function RowsOf(t: Task): seq<Row> {
    match t
    case Asleep => []
    case Draining(_, batch, _) => batch
    case Sending(chunks, _) => Flatten(chunks)
    case Rebuffering(rows, chunks) => rows + Flatten(chunks)
  }

  // The mark of the rows in flight, leaving out task number `except`.
  function InFlight(tasks: seq<Task>, except: int, k: Key): Mark {
    if tasks == [] then NEVER else
      var last := |tasks| - 1;
      Join(InFlight(tasks[..last], except, k), if last == except then NEVER else Highest(RowsOf(tasks[last]), k))
  }

  lemma {:induction false} InFlightBeyond(tasks: seq<Task>, i: nat, k: Key)
    requires |tasks| <= i
    ensures InFlight(tasks, i, k) == InFlight(tasks, -1, k)
  {
    if tasks != [] {
      InFlightBeyond(tasks[..|tasks| - 1], i, k);
    }
  }

  lemma {:induction false} InFlightSplit(tasks: seq<Task>, i: nat, k: Key)
    requires i < |tasks|
    ensures InFlight(tasks, -1, k) == Join(InFlight(tasks, i, k), Highest(RowsOf(tasks[i]), k))
  {
    if i < |tasks| - 1 {
      InFlightSplit(tasks[..|tasks| - 1], i, k);
    } else {
      InFlightBeyond(tasks[..i], i, k);
    }
  }

  lemma {:induction false} InFlightFrame(a: seq<Task>, b: seq<Task>, i: nat, k: Key)
    requires |a| == |b| && forall n :: 0 <= n < |a| && n != i ==> a[n] == b[n]
    ensures InFlight(a, i, k) == InFlight(b, i, k)
  {
    if a != [] {
      InFlightFrame(a[..|a| - 1], b[..|b| - 1], i, k);
    }
  }

  function Everywhere(s: System, k: Key): Mark {
    Join(Join(At(s.table, k), Highest(s.lost, k)), Join(InFlight(s.tasks, -1, k), At(s.pending, k)))
  }

  function Recorded(s: System, k: Key): Mark {
    Join(At(s.initial, k), Highest(s.acks, k))
  }

  // ---------------------------------------------------------------------
  // One step
  // ---------------------------------------------------------------------

  lemma ResumeRows(chunks: seq<seq<Row>>, lossy: bool)
    ensures RowsOf(Resume(chunks, lossy)) == Flatten(chunks)
  {
  }

  lemma HeadTail(chunks: seq<seq<Row>>, k: Key)
    requires chunks != []
    ensures Flatten(chunks) == chunks[0] + Flatten(chunks[1..])
    ensures Highest(Flatten(chunks), k) == Join(Highest(chunks[0], k), Highest(Flatten(chunks[1..]), k))
  {
    assert chunks == [chunks[0]] + chunks[1..];
    FlattenCons(chunks[0], chunks[1..]);
    HighestConcat(chunks[0], Flatten(chunks[1..]), k);
  }

  lemma HighestOne(row: Row, k: Key)
    ensures Highest([row], k) == MarkOf(row, k)
  {
  }

  // The mark of everything that task i can touch.
  function AroundTask(s: System, i: nat, k: Key): Mark
    requires i < |s.tasks|
  {
    Join(Join(At(s.table, k), Highest(s.lost, k)), Join(Highest(RowsOf(s.tasks[i]), k), At(s.pending, k)))
  }

  lemma TakeConserves(s: System, i: nat, k: Key)
    requires Enabled(s, Take(i))
    ensures AroundTask(AfterTake(s, i), i, k) == AroundTask(s, i, k)
  {
  }

  lemma EndDrainConserves(s: System, i: nat, size: nat)
    requires Enabled(s, EndDrain(i, size))
    ensures RowsOf(AfterEndDrain(s, i, size).tasks[i]) == RowsOf(s.tasks[i])
  {
    ChunksFlatten(s.tasks[i].batch, size);
    FlattenCons(s.tasks[i].batch, []);
  }

  // What a drained batch is sent as: nothing if it is empty, one statement at
  // shutdown, and otherwise as few statements as it needs, of the full size but
  // for the last.
  lemma EndDrainSends(s: System, i: nat, size: nat)
    requires Enabled(s, EndDrain(i, size))
    ensures s.tasks[i].batch == [] ==> AfterEndDrain(s, i, size).tasks[i] == Asleep
    ensures s.tasks[i].batch != [] ==> AfterEndDrain(s, i, size).tasks[i].Sending?
    ensures s.tasks[i].batch != [] && s.tasks[i].lossy ==> AfterEndDrain(s, i, size).tasks[i] == Sending([s.tasks[i].batch], true)
    ensures s.tasks[i].batch != [] && !s.tasks[i].lossy ==>
              var chunks := AfterEndDrain(s, i, size).tasks[i].chunks;
              && Flatten(chunks) == s.tasks[i].batch
              && |s.tasks[i].batch| <= |chunks| * size < |s.tasks[i].batch| + size
              && forall j: nat :: j < |chunks| ==> |chunks[j]| == if j < |chunks| - 1 then size else |s.tasks[i].batch| - j * size
  {
    var batch := s.tasks[i].batch;
    ChunksFlatten(batch, size);
    ChunkCount(batch, size);
    forall j: nat | j < |Chunks(batch, size)|
      ensures |Chunks(batch, size)[j]| == if j < |Chunks(batch, size)| - 1 then size else |batch| - j * size
    {
      ChunkSizes(batch, size, j);
    }
    hide Flatten;
  }

  lemma CommitConserves(s: System, i: nat, k: Key)
    requires Enabled(s, Commit(i))
    ensures AroundTask(AfterCommit(s, i), i, k) == AroundTask(s, i, k)
  {
    hide AdvanceAll, Flatten;
    var t := s.tasks[i];
    AdvanceAllJoins(s.table, t.chunks[0], k);
    HeadTail(t.chunks, k);
    ResumeRows(t.chunks[1..], t.lossy);
  }

  // A refused chunk of the flusher stays with that flusher, whole.
  lemma RefusedChunkIsKept(s: System, i: nat)
    requires Enabled(s, Refuse(i)) && !s.tasks[i].lossy
    ensures RowsOf(AfterRefuse(s, i).tasks[i]) == RowsOf(s.tasks[i])
  {
    HeadTail(s.tasks[i].chunks, Key(0, 0));
  }

  lemma RefuseConserves(s: System, i: nat, k: Key)
    requires Enabled(s, Refuse(i))
    ensures AroundTask(AfterRefuse(s, i), i, k) == AroundTask(s, i, k)
  {
    if s.tasks[i].lossy {
      LossConserves(s, i, k);
    } else {
      RefusedChunkIsKept(s, i);
    }
  }

  lemma LossConserves(s: System, i: nat, k: Key)
    requires Enabled(s, Refuse(i)) && s.tasks[i].lossy
    ensures AroundTask(AfterRefuse(s, i), i, k) == AroundTask(s, i, k)
  {
    var chunks := s.tasks[i].chunks;
    HeadTail(chunks, k);
    HighestConcat(s.lost, chunks[0], k);
    ResumeRows(chunks[1..], true);
  }

  lemma CommitUnseenConserves(s: System, i: nat, k: Key)
    requires Enabled(s, CommitUnseen(i))
    ensures AroundTask(AfterCommitUnseen(s, i), i, k) == AroundTask(s, i, k)
  {
    var chunk := s.tasks[i].chunks[0];
    AdvanceAllJoins(s.table, chunk, k);
    HeadTail(s.tasks[i].chunks, k);
    RefuseConserves(s.(table := AdvanceAll(s.table, chunk)), i, k);
  }

  lemma FirstRowMark(rows: seq<Row>, queued: seq<Row>, k: Key)
    requires rows != []
    ensures Highest(rows + queued, k) == Join(MarkOf(rows[0], k), Highest(rows[1..] + queued, k))
  {
    assert rows + queued == [rows[0]] + (rows[1..] + queued);
    HighestConcat([rows[0]], rows[1..] + queued, k);
    HighestOne(rows[0], k);
  }

  lemma RebufferConserves(s: System, i: nat, k: Key)
    requires Enabled(s, Rebuffer(i))
    ensures AroundTask(AfterRebuffer(s, i), i, k) == AroundTask(s, i, k)
  {
    var t := s.tasks[i];
    if t.rows == [] {
      assert [] + Flatten(t.chunks) == Flatten(t.chunks);
      ResumeRows(t.chunks, false);
    } else {
      FirstRowMark(t.rows, Flatten(t.chunks), k);
      AdvanceJoins(s.pending, t.rows[0], k);
    }
  }

  // Whatever one task does, it only moves rows between the places it touches.
  lemma TaskConserves(s: System, step: Step, k: Key)
    requires Enabled(s, step) && !step.Ack?
    ensures AroundTask(Next(s, step), step.task, k) == AroundTask(s, step.task, k)
  {
    match step
    case Snapshot(i, _, _) =>
    case Take(i) => TakeConserves(s, i, k);
    case EndDrain(i, size) => EndDrainConserves(s, i, size);
    case Commit(i) => CommitConserves(s, i, k);
    case Refuse(i) => RefuseConserves(s, i, k);
    case CommitUnseen(i) => CommitUnseenConserves(s, i, k);
    case Rebuffer(i) => RebufferConserves(s, i, k);
  }

  lemma AroundTaskAndRest(s: System, i: nat, k: Key)
    requires i < |s.tasks|
    ensures Everywhere(s, k) == Join(AroundTask(s, i, k), InFlight(s.tasks, i, k))
  {
    InFlightSplit(s.tasks, i, k);
  }

  lemma AckConserves(s: System, row: Row, k: Key)
    ensures Everywhere(Next(s, Ack(row)), k) == Join(Everywhere(s, k), MarkOf(row, k))
    ensures Recorded(Next(s, Ack(row)), k) == Join(Recorded(s, k), MarkOf(row, k))
  {
  }

  lemma SameRecord(s: System, step: Step, k: Key)
    requires Enabled(s, step) && !step.Ack?
    ensures Recorded(Next(s, step), k) == Recorded(s, k)
  {
    hide Highest, AdvanceAll, Advance;
  }

  lemma StepConserves(s: System, step: Step, k: Key)
    requires Enabled(s, step)
    requires Everywhere(s, k) == Recorded(s, k)
    ensures Everywhere(Next(s, step), k) == Recorded(Next(s, step), k)
  {
    hide Everywhere, AroundTask, Next, InFlight, Highest;
    if step.Ack? {
      AckConserves(s, step.row, k);
    } else {
      OnlyOneTaskMoves(s, step);
      SameRecord(s, step, k);
      TaskConserves(s, step, k);
      AroundTaskAndRest(s, step.task, k);
      AroundTaskAndRest(Next(s, step), step.task, k);
      InFlightFrame(s.tasks, Next(s, step).tasks, step.task, k);
    }
  }

  lemma {:induction false} NothingInFlight(tasks: seq<Task>, k: Key)
    requires forall i :: 0 <= i < |tasks| ==> tasks[i] == Asleep
    ensures InFlight(tasks, -1, k) == NEVER
  {
    if tasks != [] {
      NothingInFlight(tasks[..|tasks| - 1], k);
    }
  }

  // ---------------------------------------------------------------------
  // Conservation over every run
  // ---------------------------------------------------------------------

  // At every instant of every interleaving, the highest position held for a
  // key by the table, the buffer, the drained rows and the rows dropped by a
  // failed shutdown flush is the highest ever recorded for it.
  lemma {:induction false} AcksAreConserved(run: seq<System>, steps: seq<Step>, n: nat, k: Key)
    requires IsRun(run, steps) && n < |run|
    ensures Everywhere(run[n], k) == Recorded(run[n], k)
  {
    if n == 0 {
      NothingInFlight(run[0].tasks, k);
    } else {
      AcksAreConserved(run, steps, n - 1, k);
      assert run[n] == Next(run[n - 1], steps[n - 1]);
      StepConserves(run[n - 1], steps[n - 1], k);
    }
  }

  // ---------------------------------------------------------------------
  // Drained batches name no key twice, so the bulk statement can succeed
  // ---------------------------------------------------------------------

  ghost predicate Tidy(t: Task) {
    && DistinctKeys(RowsOf(t))
    && (t.Draining? ==> NoDup(t.keys) && forall row :: row in t.batch ==> row.key !in t.keys)
    && (t.Sending? || t.Rebuffering? ==> forall c :: c in t.chunks ==> c != [])
  }

  lemma DistinctSplit(a: seq<Row>, b: seq<Row>)
    requires DistinctKeys(a + b)
    ensures DistinctKeys(a) && DistinctKeys(b)
  {
    var rows := a + b;
    assert forall i :: 0 <= i < |a| ==> rows[i] == a[i];
    assert forall i :: 0 <= i < |b| ==> rows[|a| + i] == b[i];
  }

  lemma FirstChunk(chunks: seq<seq<Row>>)
    requires chunks != [] && DistinctKeys(Flatten(chunks))
    ensures DistinctKeys(chunks[0]) && DistinctKeys(Flatten(chunks[1..]))
    ensures Flatten(chunks) == chunks[0] + Flatten(chunks[1..])
    ensures forall c :: c in chunks[1..] ==> c in chunks
  {
    assert chunks == [chunks[0]] + chunks[1..];
    FlattenCons(chunks[0], chunks[1..]);
    DistinctSplit(chunks[0], Flatten(chunks[1..]));
  }

  lemma TakeKeepsTidy(s: System, i: nat)
    requires Enabled(s, Take(i)) && Tidy(s.tasks[i])
    ensures Tidy(AfterTake(s, i).tasks[i])
  {
  }

  lemma EndDrainKeepsTidy(s: System, i: nat, size: nat)
    requires Enabled(s, EndDrain(i, size)) && Tidy(s.tasks[i])
    ensures Tidy(AfterEndDrain(s, i, size).tasks[i])
  {
    EndDrainConserves(s, i, size);
    ChunksWellCut(s.tasks[i].batch, size);
  }

  lemma SentKeepsTidy(chunks: seq<seq<Row>>, lossy: bool)
    requires chunks != [] && Tidy(Sending(chunks, lossy))
    ensures Tidy(Resume(chunks[1..], lossy)) && Tidy(Rebuffering(chunks[0], chunks[1..]))
  {
    FirstChunk(chunks);
    ResumeRows(chunks[1..], lossy);
  }

  lemma RebufferKeepsTidy(rows: seq<Row>, chunks: seq<seq<Row>>)
    requires Tidy(Rebuffering(rows, chunks))
    ensures Tidy(Resume(chunks, false))
    ensures rows != [] ==> Tidy(Rebuffering(rows[1..], chunks))
  {
    DistinctSplit(rows, Flatten(chunks));
    if rows != [] {
      assert rows + Flatten(chunks) == [rows[0]] + (rows[1..] + Flatten(chunks));
      DistinctSplit([rows[0]], rows[1..] + Flatten(chunks));
    }
  }

  lemma StepKeepsTidy(s: System, step: Step)
    requires Enabled(s, step) && !step.Ack?
    requires Tidy(s.tasks[step.task])
    ensures Tidy(Next(s, step).tasks[step.task])
  {
    var t := s.tasks[step.task];
    match step
    case Snapshot(i, _, _) =>
    case Take(i) => TakeKeepsTidy(s, i);
    case EndDrain(i, size) => EndDrainKeepsTidy(s, i, size);
    case Commit(i) => SentKeepsTidy(t.chunks, t.lossy);
    case Refuse(i) => SentKeepsTidy(t.chunks, t.lossy);
    case CommitUnseen(i) => SentKeepsTidy(t.chunks, t.lossy);
    case Rebuffer(i) => RebufferKeepsTidy(t.rows, t.chunks);
  }

  ghost predicate AllTidy(s: System) {
    forall i :: 0 <= i < |s.tasks| ==> Tidy(s.tasks[i])
  }

  // A step changes only the flusher that makes it.
  lemma OnlyOneTaskMoves(s: System, step: Step)
    requires Enabled(s, step)
    ensures Next(s, step).tasks == if step.Ack? then s.tasks else s.tasks[step.task := Next(s, step).tasks[step.task]]
  {
  }

  lemma {:induction false} BatchesAreDistinct(run: seq<System>, steps: seq<Step>, n: nat)
    requires IsRun(run, steps) && n < |run|
    ensures |run[n].tasks| == |run[0].tasks| && AllTidy(run[n])
  {
    hide IsRun, Next, Enabled, Tidy;
    if n > 0 {
      StepAt(run, steps, n);
      var s, step := run[n - 1], steps[n - 1];
      BatchesAreDistinct(run, steps, n - 1);
      OnlyOneTaskMoves(s, step);
      if !step.Ack? {
        TaskExists(s, step);
        StepKeepsTidy(s, step);
      }
    } else {
      AllAsleep(run, steps);
    }
  }

  lemma StepAt(run: seq<System>, steps: seq<Step>, n: nat)
    requires IsRun(run, steps) && 0 < n < |run|
    ensures |run| == |steps| + 1 && Enabled(run[n - 1], steps[n - 1]) && run[n] == Next(run[n - 1], steps[n - 1])
  {
  }

  lemma TaskExists(s: System, step: Step)
    requires Enabled(s, step) && !step.Ack?
    ensures step.task < |s.tasks|
  {
  }

  lemma AllAsleep(run: seq<System>, steps: seq<Step>)
    requires IsRun(run, steps)
    ensures AllTidy(run[0])
  {
  }

  // However drains and acks interleave, a bulk statement is never one that
  // PostgreSQL must refuse for naming a key twice.
  lemma StatementIsAcceptable(run: seq<System>, steps: seq<Step>, n: nat, i: nat)
    requires IsRun(run, steps) && n < |run|
    requires i < |run[n].tasks| && run[n].tasks[i].Sending? && run[n].tasks[i].chunks != []
    ensures Enabled(run[n], Commit(i))
  {
    BatchesAreDistinct(run, steps, n);
    FirstChunk(run[n].tasks[i].chunks);
  }

  // ---------------------------------------------------------------------
  // What the table can contain
  // ---------------------------------------------------------------------

  // Stored read positions never move backwards.
  lemma {:induction false} TableNeverMovesBack(run: seq<System>, steps: seq<Step>, m: nat, n: nat, k: Key)
    requires IsRun(run, steps) && m <= n < |run|
    ensures At(run[m].table, k) <= At(run[n].table, k)
  {
    if m < n {
      TableNeverMovesBack(run, steps, m, n - 1, k);
      var s, step := run[n - 1], steps[n - 1];
      assert run[n] == Next(s, step);
      if step.Commit? || step.CommitUnseen? {
        AdvanceAllJoins(s.table, s.tasks[step.task].chunks[0], k);
      }
    }
  }

  lemma {:induction false} AdvanceAllOrigin(p: Positions, rows: seq<Row>, k: Key)
    requires k in AdvanceAll(p, rows)
    ensures (k in p && AdvanceAll(p, rows)[k] == p[k]) || Row(k, AdvanceAll(p, rows)[k]) in rows
  {
    AdvanceAllJoins(p, rows, k);
    HighestIsClaimed(rows, k);
  }

  // Every position anywhere in the system was acknowledged by a client for
  // that very key, or was in the table at the start.
  ghost predicate Genuine(s: System) {
    && (forall k :: k in s.pending ==> Row(k, s.pending[k]) in s.acks)
    && (forall i, row :: 0 <= i < |s.tasks| && row in RowsOf(s.tasks[i]) ==> row in s.acks)
    && (forall k :: k in s.table ==> (k in s.initial && s.table[k] == s.initial[k]) || Row(k, s.table[k]) in s.acks)
  }

  // No step of a task invents a row.
  lemma StepRows(s: System, step: Step)
    requires Enabled(s, step) && !step.Ack?
    ensures forall row :: row in RowsOf(Next(s, step).tasks[step.task]) ==>
              row in RowsOf(s.tasks[step.task]) || (row.key in s.pending && row.message == s.pending[row.key])
  {
    hide Highest, Chunks, AdvanceAll;
    var t := s.tasks[step.task];
    match step
    case EndDrain(i, size) => EndDrainConserves(s, i, size);
    case Commit(_) => HeadTail(t.chunks, Key(0, 0));
    case Refuse(_) => HeadTail(t.chunks, Key(0, 0));
    case CommitUnseen(_) => HeadTail(t.chunks, Key(0, 0));
    case _ =>
  }

  lemma TaskRowsStayGenuine(s: System, step: Step)
    requires Enabled(s, step) && Genuine(s)
    ensures forall i, row :: 0 <= i < |s.tasks| && row in RowsOf(Next(s, step).tasks[i]) ==> row in s.acks
  {
    OnlyOneTaskMoves(s, step);
    if !step.Ack? {
      StepRows(s, step);
    }
  }

  lemma BufferStaysGenuine(s: System, step: Step)
    requires Enabled(s, step) && Genuine(s)
    ensures forall k :: k in Next(s, step).pending ==> Row(k, Next(s, step).pending[k]) in Next(s, step).acks
    ensures forall row :: row in s.acks ==> row in Next(s, step).acks
    ensures Next(s, step).initial == s.initial
  {
    hide AdvanceAll, Chunks, DistinctKeys;
  }

  lemma TableStaysGenuine(s: System, step: Step)
    requires Enabled(s, step) && Genuine(s)
    ensures forall k :: k in Next(s, step).table ==>
              (k in s.initial && Next(s, step).table[k] == s.initial[k]) || Row(k, Next(s, step).table[k]) in s.acks
  {
    hide AdvanceAll, Chunks, DistinctKeys;
    forall k | (step.Commit? || step.CommitUnseen?) && k in Next(s, step).table
      ensures (k in s.initial && Next(s, step).table[k] == s.initial[k]) || Row(k, Next(s, step).table[k]) in s.acks
    {
      HeadTail(s.tasks[step.task].chunks, k);
      AdvanceAllOrigin(s.table, s.tasks[step.task].chunks[0], k);
    }
  }

  lemma StepKeepsGenuine(s: System, step: Step)
    requires Enabled(s, step) && Genuine(s)
    ensures Genuine(Next(s, step))
  {
    hide AdvanceAll, Chunks, DistinctKeys, RowsOf;
    OnlyOneTaskMoves(s, step);
    BufferStaysGenuine(s, step);
    TableStaysGenuine(s, step);
    TaskRowsStayGenuine(s, step);
  }

  lemma {:induction false} StoredPositionsAreGenuine(run: seq<System>, steps: seq<Step>, n: nat)
    requires IsRun(run, steps) && n < |run|
    ensures Genuine(run[n])
  {
    if n > 0 {
      StoredPositionsAreGenuine(run, steps, n - 1);
      assert run[n] == Next(run[n - 1], steps[n - 1]);
      StepKeepsGenuine(run[n - 1], steps[n - 1]);
    }
  }

  // ---------------------------------------------------------------------
  // Counters, and the ways an ack can go astray
  // ---------------------------------------------------------------------

  lemma {:induction false} OpsCountAcksAndRebuffers(run: seq<System>, steps: seq<Step>, n: nat)
    requires IsRun(run, steps) && n < |run|
    ensures run[n].totalOps == |run[n].acks| + run[n].rebuffered
  {
    if n > 0 {
      OpsCountAcksAndRebuffers(run, steps, n - 1);
      assert run[n] == Next(run[n - 1], steps[n - 1]);
    }
  }

  // Step j is a shutdown statement whose client sees an error.
  ghost predicate FailedShutdown(run: seq<System>, steps: seq<Step>, j: nat)
    requires IsRun(run, steps) && j < |steps|
  {
    (steps[j].Refuse? || steps[j].CommitUnseen?) && run[j].tasks[steps[j].task].lossy
  }

  // A failed shutdown statement before step n held the row.
  ghost predicate Dropped(run: seq<System>, steps: seq<Step>, n: nat, row: Row)
    requires IsRun(run, steps) && n < |run|
  {
    exists j: nat :: j < n && FailedShutdown(run, steps, j) && row in run[j].tasks[steps[j].task].chunks[0]
  }

  lemma {:induction false} LostRowsWereDropped(run: seq<System>, steps: seq<Step>, n: nat, row: Row)
    requires IsRun(run, steps) && n < |run|
    ensures row in run[n].lost <==> Dropped(run, steps, n, row)
  {
    if n > 0 {
      LostRowsWereDropped(run, steps, n - 1, row);
      assert Enabled(run[n - 1], steps[n - 1]) && run[n] == Next(run[n - 1], steps[n - 1]);
      if Dropped(run, steps, n - 1, row) {
        var j: nat :| j < n - 1 && FailedShutdown(run, steps, j) && row in run[j].tasks[steps[j].task].chunks[0];
        assert j < n;
      }
      assert FailedShutdown(run, steps, n - 1) && row in run[n - 1].tasks[steps[n - 1].task].chunks[0] ==> Dropped(run, steps, n, row);
    }
  }

  // ---------------------------------------------------------------------
  // What the buffer holds
  // ---------------------------------------------------------------------

  // The removal of key k by step number m.
  ghost predicate Takes(run: seq<System>, steps: seq<Step>, m: nat, k: Key)
    requires IsRun(run, steps) && m < |steps|
  {
    steps[m].Take? && run[m].tasks[steps[m].task].keys[0] == k
  }

  // No step from number j to before number n removes key k.
  ghost predicate NotTaken(run: seq<System>, steps: seq<Step>, j: nat, n: nat, k: Key)
    requires IsRun(run, steps) && n <= |steps|
  {
    forall m: nat :: j <= m < n ==> !Takes(run, steps, m, k)
  }

  // The row that a step puts into the buffer: acked, or given back after an error.
  ghost function Arrival(s: System, step: Step): Option<Row>
    requires Enabled(s, step)
  {
    match step
    case Ack(row) => Some(row)
    case Rebuffer(i) => if s.tasks[i].rows != [] then Some(s.tasks[i].rows[0]) else None
    case _ => None
  }

  // Step j brings a row of key k above the bound.
  ghost predicate Arrives(run: seq<System>, steps: seq<Step>, j: nat, k: Key, bound: Mark)
    requires IsRun(run, steps) && j < |steps|
  {
    var row := Arrival(run[j], steps[j]);
    row.Some? && row.value.key == k && row.value.message > bound
  }

  // A row of key k above the bound arrives at or after step `start` and is not
  // removed before step n.
  ghost predicate LateArrival(run: seq<System>, steps: seq<Step>, start: nat, n: nat, k: Key, bound: Mark)
    requires IsRun(run, steps) && n <= |steps|
  {
    exists j: nat :: start <= j < n && Arrives(run, steps, j, k, bound) && NotTaken(run, steps, j + 1, n, k)
  }

  lemma LateArrivalSnoc(run: seq<System>, steps: seq<Step>, start: nat, n: nat, k: Key, bound: Mark)
    requires IsRun(run, steps) && start < n <= |steps|
    ensures LateArrival(run, steps, start, n, k, bound) <==>
              || Arrives(run, steps, n - 1, k, bound)
              || (LateArrival(run, steps, start, n - 1, k, bound) && !Takes(run, steps, n - 1, k))
  {
    hide Arrives, Takes, IsRun;
    if LateArrival(run, steps, start, n, k, bound) {
      var j: nat :| start <= j < n && Arrives(run, steps, j, k, bound) && NotTaken(run, steps, j + 1, n, k);
      assert j < n - 1 ==> NotTaken(run, steps, j + 1, n - 1, k);
    }
    if Arrives(run, steps, n - 1, k, bound) {
      assert NotTaken(run, steps, n, n, k);
    } else if LateArrival(run, steps, start, n - 1, k, bound) && !Takes(run, steps, n - 1, k) {
      var j: nat :| start <= j < n - 1 && Arrives(run, steps, j, k, bound) && NotTaken(run, steps, j + 1, n - 1, k);
      assert NotTaken(run, steps, j + 1, n, k);
    }
  }

  lemma BufferAfterStep(s: System, step: Step, k: Key)
    requires Enabled(s, step)
    ensures At(Next(s, step).pending, k)
         == if step.Take? && s.tasks[step.task].keys[0] == k then NEVER
            else if Arrival(s, step).Some? then Join(At(s.pending, k), MarkOf(Arrival(s, step).value, k))
            else At(s.pending, k)
  {
  }

  // At every instant the buffer holds for a key what arrived since any earlier
  // instant and was not removed, and what it held then if nothing removed that.
  lemma {:induction false} BufferSince(run: seq<System>, steps: seq<Step>, start: nat, n: nat, k: Key, bound: Mark)
    requires IsRun(run, steps) && start <= n <= |steps|
    ensures At(run[n].pending, k) > bound <==>
              || LateArrival(run, steps, start, n, k, bound)
              || (NotTaken(run, steps, start, n, k) && At(run[start].pending, k) > bound)
  {
    hide AfterTake, AfterEndDrain, AfterCommit, AfterRefuse, AfterRebuffer, AfterCommitUnseen, Advance;
    if start < n {
      BufferSince(run, steps, start, n - 1, k, bound);
      assert Enabled(run[n - 1], steps[n - 1]) && run[n] == Next(run[n - 1], steps[n - 1]);
      BufferAfterStep(run[n - 1], steps[n - 1], k);
      LateArrivalSnoc(run, steps, start, n, k, bound);
      hide LateArrival, Next, IsRun;
      assert NotTaken(run, steps, start, n, k) <==> NotTaken(run, steps, start, n - 1, k) && !Takes(run, steps, n - 1, k);
    }
  }

  // Task i has taken a snapshot at step `start` and drained it by state n. The
  // snapshot names every key buffered at its start, except those that another
  // task removes meanwhile; it may name more. Whatever else goes on meanwhile.
  ghost predicate DrainedSince(run: seq<System>, steps: seq<Step>, start: nat, n: nat, i: nat) {
    && IsRun(run, steps) && start < n <= |steps|
    && steps[start].Snapshot? && steps[start].task == i
    && (forall k :: k in run[start].pending ==> k in steps[start].keys || !NotTaken(run, steps, start, n, k))
    && i < |run[n].tasks| && !run[n].tasks[i].Draining?
  }

  predicate StillToTake(t: Task, k: Key) {
    t.Draining? && k in t.keys
  }

  lemma StillToTakeAfter(s: System, step: Step, i: nat, k: Key)
    requires Enabled(s, step) && i < |s.tasks| && StillToTake(s.tasks[i], k)
    ensures |Next(s, step).tasks| == |s.tasks|
    ensures StillToTake(Next(s, step).tasks[i], k) || (step == Take(i) && s.tasks[i].keys[0] == k)
  {
  }

  // Whatever a snapshot names is still to be removed, or has been.
  lemma {:induction false} SnapshotIsTaken(run: seq<System>, steps: seq<Step>, start: nat, n: nat, k: Key)
    requires IsRun(run, steps) && start < n <= |steps|
    requires steps[start].Snapshot? && k in steps[start].keys
    ensures steps[start].task < |run[n].tasks|
    ensures StillToTake(run[n].tasks[steps[start].task], k) || !NotTaken(run, steps, start, n, k)
  {
    var s, step := run[n - 1], steps[n - 1];
    assert Enabled(s, step) && run[n] == Next(s, step);
    BatchesAreDistinct(run, steps, n - 1);
    BatchesAreDistinct(run, steps, n);
    assert Enabled(run[start], steps[start]);
    BatchesAreDistinct(run, steps, start);
    if start < n - 1 {
      SnapshotIsTaken(run, steps, start, n - 1, k);
      hide Next, AllTidy;
      if NotTaken(run, steps, start, n - 1, k) {
        StillToTakeAfter(s, step, steps[start].task, k);
        assert step == Take(steps[start].task) && s.tasks[steps[start].task].keys[0] == k ==> Takes(run, steps, n - 1, k);
      }
    }
  }

  // After a drain the buffer holds exactly what arrived late.
  lemma BufferAfterDrain(run: seq<System>, steps: seq<Step>, start: nat, n: nat, i: nat, k: Key, bound: Mark)
    requires DrainedSince(run, steps, start, n, i)
    ensures At(run[n].pending, k) > bound <==> LateArrival(run, steps, start, n, k, bound)
  {
    BufferSince(run, steps, start, n, k, bound);
    if k in run[start].pending && k in steps[start].keys {
      SnapshotIsTaken(run, steps, start, n, k);
    }
  }

  // How many rows reach the buffer from step e to before step n.
  ghost function Arrivals(run: seq<System>, steps: seq<Step>, e: nat, n: nat): nat
    requires IsRun(run, steps) && n <= |steps|
  {
    if n <= e then 0 else Arrivals(run, steps, e, n - 1) + (if Arrival(run[n - 1], steps[n - 1]).Some? then 1 else 0)
  }

  // No drain ends from step e to before step n, and one has just ended at
  // state e, or none had till then.
  ghost predicate LastDrainEnd(steps: seq<Step>, e: nat, n: nat) {
    && e <= n <= |steps|
    && (e == 0 || steps[e - 1].EndDrain?)
    && (forall j :: e <= j < n ==> !steps[j].EndDrain?)
  }

  lemma CountAfterStep(s: System, step: Step)
    requires Enabled(s, step)
    ensures Next(s, step).pendingCount
         == if step.EndDrain? then 0 else s.pendingCount + (if Arrival(s, step).Some? then 1 else 0)
  {
  }

  // The counter counts what arrived since the last drain ended, taken or not.
  lemma {:induction false} CountIsArrivals(run: seq<System>, steps: seq<Step>, e: nat, n: nat)
    requires IsRun(run, steps) && LastDrainEnd(steps, e, n)
    ensures run[n].pendingCount == Arrivals(run, steps, e, n)
  {
    if n > 0 {
      assert Enabled(run[n - 1], steps[n - 1]) && run[n] == Next(run[n - 1], steps[n - 1]);
      CountAfterStep(run[n - 1], steps[n - 1]);
      if e < n {
        hide Next, Enabled;
        CountIsArrivals(run, steps, e, n - 1);
      }
    }
  }

  // Until the first drain ends, a zero counter means an empty buffer.
  lemma SkipTestIsRightAtFirst(run: seq<System>, steps: seq<Step>, n: nat)
    requires IsRun(run, steps) && LastDrainEnd(steps, 0, n) && run[n].pendingCount == 0
    ensures run[n].pending == map[]
  {
    CountIsArrivals(run, steps, 0, n);
    forall k ensures k !in run[n].pending {
      BufferSince(run, steps, 0, n, k, NEVER);
      if LateArrival(run, steps, 0, n, k, NEVER) {
        var j: nat :| 0 <= j < n && Arrives(run, steps, j, k, NEVER) && NotTaken(run, steps, j + 1, n, k);
        ArrivalIsCounted(run, steps, 0, j, n);
      }
    }
  }

  lemma {:induction false} ArrivalIsCounted(run: seq<System>, steps: seq<Step>, e: nat, j: nat, n: nat)
    requires IsRun(run, steps) && e <= j < n <= |steps| && Arrival(run[j], steps[j]).Some?
    ensures Arrivals(run, steps, e, n) > 0
  {
    if j < n - 1 {
      ArrivalIsCounted(run, steps, e, j, n - 1);
    }
  }

  // The code clears the counter at the end of a drain whatever the buffer
  // holds by then. With a drain begun at step `start` and over, and the last
  // drain of any task ended at state e, a wake-up at state n skips rows that
  // are in the buffer if and only if nothing has arrived since e and some key
  // arrived after the last removal of it since `start`.
  lemma {:induction false} SkipTestStrands(run: seq<System>, steps: seq<Step>, start: nat, e: nat, n: nat, i: nat)
    requires DrainedSince(run, steps, start, n, i) && LastDrainEnd(steps, e, n)
    ensures run[n].pendingCount == 0 && run[n].pending != map[] <==>
              Arrivals(run, steps, e, n) == 0 && exists k :: LateArrival(run, steps, start, n, k, NEVER)
  {
    CountIsArrivals(run, steps, e, n);
    forall k ensures k in run[n].pending <==> LateArrival(run, steps, start, n, k, NEVER) {
      BufferAfterDrain(run, steps, start, n, i, k, NEVER);
    }
    if run[n].pending != map[] {
      var k :| k in run[n].pending;
      assert LateArrival(run, steps, start, n, k, NEVER);
    }
  }

  // ---------------------------------------------------------------------
  // What a stop of the server keeps
  // ---------------------------------------------------------------------

  lemma {:induction false} HighestAbove(rows: seq<Row>, k: Key, bound: Mark)
    ensures Highest(rows, k) > bound <==> exists row :: row in rows && row.key == k && row.message > bound
  {
    HighestIsClaimed(rows, k);
    forall row | row in rows && row.key == k && row.message > bound ensures Highest(rows, k) > bound {
      HighestBounds(rows, row);
    }
    if Highest(rows, k) > bound {
      assert Row(k, Highest(rows, k)) in rows;
    }
  }

  // A failed shutdown statement held a row of key k above the bound.
  ghost predicate DroppedAbove(run: seq<System>, steps: seq<Step>, n: nat, k: Key, bound: Mark)
    requires IsRun(run, steps) && n < |run|
  {
    exists row :: Dropped(run, steps, n, row) && row.key == k && row.message > bound
  }

  // Some task holds a drained row of key k above the bound.
  ghost predicate HeldAbove(tasks: seq<Task>, k: Key, bound: Mark) {
    exists i, row :: 0 <= i < |tasks| && row in RowsOf(tasks[i]) && row.key == k && row.message > bound
  }

  lemma {:induction false} InFlightAbove(tasks: seq<Task>, k: Key, bound: Mark)
    ensures InFlight(tasks, -1, k) > bound <==> HeldAbove(tasks, k, bound)
  {
    if tasks != [] {
      var front, last := tasks[..|tasks| - 1], tasks[|tasks| - 1];
      InFlightAbove(front, k, bound);
      HighestAbove(RowsOf(last), k, bound);
      if HeldAbove(front, k, bound) {
        var i, row :| 0 <= i < |front| && row in RowsOf(front[i]) && row.key == k && row.message > bound;
        assert tasks[i] == front[i];
      }
    }
  }

  // When the server stops at state n, some time after a shutdown flush has
  // drained the buffer, the table has every position ever recorded for a key
  // if and only if nothing newer than the table's position was in a failed
  // shutdown statement, arrived too late for the drain, or is still held by a task.
  lemma StopKeepsAcks(run: seq<System>, steps: seq<Step>, start: nat, n: nat, i: nat, k: Key)
    requires DrainedSince(run, steps, start, n, i)
    ensures At(run[n].table, k) == Recorded(run[n], k) <==>
              && !DroppedAbove(run, steps, n, k, At(run[n].table, k))
              && !LateArrival(run, steps, start, n, k, At(run[n].table, k))
              && !HeldAbove(run[n].tasks, k, At(run[n].table, k))
  {
    var bound := At(run[n].table, k);
    AcksAreConserved(run, steps, n, k);
    LostAbove(run, steps, n, k, bound);
    BufferAfterDrain(run, steps, start, n, i, k, bound);
    InFlightAbove(run[n].tasks, k, bound);
  }

  lemma LostAbove(run: seq<System>, steps: seq<Step>, n: nat, k: Key, bound: Mark)
    requires IsRun(run, steps) && n < |run|
    ensures Highest(run[n].lost, k) > bound <==> DroppedAbove(run, steps, n, k, bound)
  {
    HighestAbove(run[n].lost, k, bound);
    forall row ensures row in run[n].lost <==> Dropped(run, steps, n, row) {
      LostRowsWereDropped(run, steps, n, row);
    }
  }

  // A stop with all tasks asleep: the table is what writing through every
  // single ack would have made it if and only if no shutdown statement failed
  // with a row, and no row arrived too late, that is newer than the table's.
  lemma GracefulStopIsWriteThrough(run: seq<System>, steps: seq<Step>, start: nat, n: nat, i: nat)
    requires DrainedSince(run, steps, start, n, i)
    requires forall t :: 0 <= t < |run[n].tasks| ==> run[n].tasks[t] == Asleep
    ensures run[n].table == AdvanceAll(run[n].initial, run[n].acks) <==>
              forall k :: && !DroppedAbove(run, steps, n, k, At(run[n].table, k))
                          && !LateArrival(run, steps, start, n, k, At(run[n].table, k))
  {
    hide DrainedSince, DroppedAbove, LateArrival, AdvanceAll, IsRun;
    WindowIsRun(run, steps, start, n, i);
    TableIsWriteThroughIff(run[n]);
    forall k
      ensures At(run[n].table, k) == Recorded(run[n], k) <==>
                && !DroppedAbove(run, steps, n, k, At(run[n].table, k))
                && !LateArrival(run, steps, start, n, k, At(run[n].table, k))
    {
      StopKeepsAcks(run, steps, start, n, i, k);
    }
  }

  lemma WindowIsRun(run: seq<System>, steps: seq<Step>, start: nat, n: nat, i: nat)
    requires DrainedSince(run, steps, start, n, i)
    ensures IsRun(run, steps) && |run| == |steps| + 1 && n <= |steps|
  {
  }

  lemma TableIsWriteThroughIff(s: System)
    ensures s.table == AdvanceAll(s.initial, s.acks) <==> forall k :: At(s.table, k) == Recorded(s, k)
  {
    forall k ensures At(AdvanceAll(s.initial, s.acks), k) == Recorded(s, k) {
      AdvanceAllJoins(s.initial, s.acks, k);
    }
    if forall k :: At(s.table, k) == Recorded(s, k) {
      SameMarksSamePositions(s.table, AdvanceAll(s.initial, s.acks));
    }
  }

  // Whenever nothing is buffered or in flight, the table is what writing
  // through every single ack would have made it, but for rows newer than the
  // table's that a failed shutdown statement held.
  lemma SettledTableIsWriteThrough(run: seq<System>, steps: seq<Step>, n: nat)
    requires IsRun(run, steps) && n < |run|
    requires run[n].pending == map[] && forall i :: 0 <= i < |run[n].tasks| ==> run[n].tasks[i] == Asleep
    ensures run[n].table == AdvanceAll(run[n].initial, run[n].acks) <==>
              forall k :: !DroppedAbove(run, steps, n, k, At(run[n].table, k))
  {
    var s := run[n];
    TableIsWriteThroughIff(s);
    forall k ensures At(s.table, k) == Recorded(s, k) <==> !DroppedAbove(run, steps, n, k, At(s.table, k)) {
      AcksAreConserved(run, steps, n, k);
      NothingInFlight(s.tasks, k);
      LostAbove(run, steps, n, k, At(s.table, k));
    }
  }

  lemma Extend(run: seq<System>, steps: seq<Step>, step: Step) returns (run': seq<System>, steps': seq<Step>)
    requires IsRun(run, steps) && Enabled(run[|steps|], step)
    ensures IsRun(run', steps') && |steps'| == |steps| + 1
    ensures run'[|steps'|] == Next(run[|steps|], step)
  {
    run', steps' := run + [Next(run[|steps|], step)], steps + [step];
  }

  // An ack of message 7 is drained by the only task.
  lemma OneAckDrained(lossy: bool) returns (run: seq<System>, steps: seq<Step>)
    ensures IsRun(run, steps)
    ensures run[|steps|] == System(map[], 1, 1, map[], [Draining([], [Row(Key(1, 2), 7)], lossy)], map[],
                                   [Row(Key(1, 2), 7)], [], 0)
  {
    var k := Key(1, 2);
    var start := System(map[], 0, 0, map[], [Asleep], map[], [], [], 0);
    run, steps := Extend([start], [], Ack(Row(k, 7)));
    assert run[|steps|] == System(map[k := 7], 1, 1, map[], [Asleep], map[], [Row(k, 7)], [], 0);
    run, steps := Extend(run, steps, Snapshot(0, [k], lossy));
    assert run[|steps|] == System(map[k := 7], 1, 1, map[], [Draining([k], [], lossy)], map[], [Row(k, 7)], [], 0);
    run, steps := Extend(run, steps, Take(0));
    assert map[k := 7] - {k} == map[];
    assert [k][1..] == [];
  }

  // A shutdown flush that fails loses an ack that nothing else holds.
  lemma FailedShutdownLosesAck() returns (run: seq<System>, steps: seq<Step>, k: Key)
    ensures IsRun(run, steps)
    ensures var s := run[|steps|];
            Join(Join(At(s.table, k), InFlight(s.tasks, -1, k)), At(s.pending, k)) < Recorded(s, k)
  {
    k := Key(1, 2);
    run, steps := OneAckDrained(true);
    run, steps := Extend(run, steps, EndDrain(0, 100));
    run, steps := Extend(run, steps, Refuse(0));
    var s := run[|steps|];
    assert s == System(map[], 0, 1, map[], [Asleep], map[], [Row(k, 7)], [Row(k, 7)], 0);
    HighestOne(Row(k, 7), k);
    NothingInFlight(s.tasks, k);
  }

  // So does a shutdown flush that succeeds, if an ack arrives after the drain
  // removed its key: no statement fails and all tasks sleep.
  lemma LateAckIsNotStored() returns (run: seq<System>, steps: seq<Step>, k: Key)
    ensures IsRun(run, steps)
    ensures var s := run[|steps|];
            s.tasks == [Asleep] && s.lost == [] && At(s.table, k) < Recorded(s, k)
  {
    k := Key(1, 2);
    run, steps := OneAckDrained(true);
    run, steps := Extend(run, steps, Ack(Row(k, 8)));
    run, steps := Extend(run, steps, EndDrain(0, 100));
    assert run[|steps|].tasks == [Sending([[Row(k, 7)]], true)];
    run, steps := Extend(run, steps, Commit(0));
    var s := run[|steps|];
    AdvanceAllJoins(map[], [Row(k, 7)], k);
    HighestOne(Row(k, 7), k);
    HighestBounds(s.acks, Row(k, 8));
  }

  // The stranding does happen: an ack arrives after its key was removed.
  lemma SkipTestStrandsAnAck() returns (run: seq<System>, steps: seq<Step>)
    ensures IsRun(run, steps)
    ensures run[|steps|].tasks == [Asleep] && run[|steps|].pendingCount == 0 && run[|steps|].pending != map[]
  {
    var k := Key(1, 2);
    run, steps := OneAckDrained(false);
    run, steps := Extend(run, steps, Ack(Row(k, 8)));
    run, steps := Extend(run, steps, EndDrain(0, 100));
    assert run[|steps|].tasks == [Sending([[Row(k, 7)]], false)];
    run, steps := Extend(run, steps, Commit(0));
    assert k in run[|steps|].pending;
  }
}
